/** A time: relative to now, or exact (src/when_time.rs). */
module Times {
  import opened Nom
  import opened ParseHms
  import AmPms
  import AmPmTimes
  import GmtTimes
  import ExactTimes
  import RelativeTimes
  import TimeDurations

  datatype WhenTime = Relative(relative: RelativeTimes.WhenRelativeTime) | Exact(exact: ExactTimes.WhenExactTime)

  /** `alt` of the relative time, then the exact one, each `map`ped into its
      variant; when both fail the error is that of the exact time. */
  function Parse(s: string): (r: Parsed<WhenTime>)
    ensures r.Ok? && r.value.Relative? ==> RelativeTimes.Parse(s) == Ok(r.value.relative, r.rest)
    ensures r.Ok? && r.value.Exact? ==>
      RelativeTimes.Parse(s).Fail? && ExactTimes.Parse(s) == Ok(r.value.exact, r.rest)
    ensures r.Fail? ==> RelativeTimes.Parse(s).Fail? && ExactTimes.Parse(s) == Fail(r.error)
  {
    var a := RelativeTimes.Parse(s);
    if a.Ok? then Ok(Relative(a.value), a.rest)
    else
      var e := ExactTimes.Parse(s);
      if e.Ok? then Ok(Exact(e.value), e.rest) else Fail(e.error)
  }

  /** Whatever reads as a relative time reads as a time: the relative
      alternative is tried first. */
  lemma RelativeOf(s: string, x: RelativeTimes.WhenRelativeTime, t: string)
    requires RelativeTimes.Parse(s) == Ok(x, t)
    ensures Parse(s) == Ok(Relative(x), t)
  {
  }

  /** The two kinds never compete: relative times start with a keyword
      letter, exact times with a digit. */
  lemma ExactIffDigit(s: string)
    requires Parse(s).Ok?
    ensures Parse(s).value.Exact? <==> StartsWithDigit(s)
  {
    if StartsWithDigit(s) {
      RelativeTimes.NoKeyword(s);
    } else {
      ExactTimes.NoDigit(s);
    }
  }

  /** On input starting with a digit the exact reading decides alone. */
  lemma DigitIsExact(s: string)
    requires StartsWithDigit(s)
    ensures ExactTimes.Parse(s).Ok? ==> Parse(s) == Ok(Exact(ExactTimes.Parse(s).value), ExactTimes.Parse(s).rest)
    ensures ExactTimes.Parse(s).Fail? ==> Parse(s) == Fail(ExactTimes.Parse(s).error)
  {
    RelativeTimes.NoKeyword(s);
  }

  /** Every 12-hour reading, printed, reads back as an exact time. */
  lemma AmPmRoundTrip(x: AmPmTimes.AmPmTime, shape: Shape, gap: string, casing: AmPms.Casing, t: string)
    requires AmPmTimes.Valid(x) && ShapeFits(shape, x.minute, x.second) && IsGap(gap)
    ensures Parse(AmPmTimes.Text(x, shape, gap, casing) + t) == Ok(Exact(ExactTimes.AmPm(x)), t)
  {
    var s := AmPmTimes.Text(x, shape, gap, casing) + t;
    ClockTextStartsWithDigit(x.hour, x.minute, x.second, shape);
    assert s[0] == ClockText(x.hour, x.minute, x.second, shape)[0];
    ExactTimes.AmPmRoundTrip(x, shape, gap, casing, t);
    DigitIsExact(s);
  }

  /** Every `GMT` reading, printed, reads back as an exact time. */
  lemma GmtRoundTrip(x: GmtTimes.GmtTime, shape: Shape, gap: string, t: string)
    requires GmtTimes.Valid(x) && ShapeFits(shape, x.minute, x.second) && IsGap(gap)
    ensures Parse(GmtTimes.Text(x, shape, gap) + t) == Ok(Exact(ExactTimes.Gmt(x)), t)
  {
    var s := GmtTimes.Text(x, shape, gap) + t;
    ClockTextStartsWithDigit(x.hour, x.minute, x.second, shape);
    assert s[0] == ClockText(x.hour, x.minute, x.second, shape)[0];
    ExactTimes.GmtRoundTrip(x, shape, gap, t);
    DigitIsExact(s);
  }

  /** The test-vector texts, split at the fields. */
  lemma VectorTexts()
    ensures "the previous 10 mins" ==
      RelativeTimes.LeadText(RelativeTimes.Previous, RelativeTimes.The(" ")) +
      (" " + (Decimal(10) + (" " + (TimeDurations.Word(TimeDurations.Minute, TimeDurations.ShortPlural) + ""))))
    ensures "10:01:30 GMT" == "10" + (":" + ("01" + (":" + ("30" + (" " + (GmtTimes.Gmt + ""))))))
  {
    assert Decimal(10) == "10";
  }

  /** Test vector: `the previous 10 mins` is a relative duration. */
  lemma RelativeVector()
    ensures Parse("the previous 10 mins") ==
      Ok(Relative(RelativeTimes.PreviousDuration(TimeDurations.Minutes(10))), "")
  {
    VectorTexts();
    RelativeTimes.DurationRoundTrip(RelativeTimes.Previous, RelativeTimes.The(" "), " ",
      TimeDurations.Minutes(10), " ", TimeDurations.ShortPlural, "");
  }

  /** The digit fields of the exact test vector. */
  lemma VectorFields()
    ensures AllDigits("10") && Value("10") == 10
    ensures AllDigits("01") && Value("01") == 1
    ensures AllDigits("30") && Value("30") == 30
  {
  }

  /** Test vector: `10:01:30 GMT` is an exact `GMT` time. */
  lemma ExactVector()
    ensures Parse("10:01:30 GMT") == Ok(Exact(ExactTimes.Gmt(GmtTimes.GmtTime(10, 1, 30))), "")
  {
    VectorTexts();
    VectorFields();
    ExactTimes.GmtFullOf("10", "01", "30", " ", "");
    DigitIsExact("10:01:30 GMT");
  }
}
