/** An exact time of day: a 12-hour reading with `am`/`pm`, or a 24-hour
    reading marked `GMT` (src/when_exact_time.rs). */
module ExactTimes {
  import opened Nom
  import opened ParseHms
  import AmPms
  import AmPmTimes
  import GmtTimes

  datatype WhenExactTime = AmPm(amPm: AmPmTimes.AmPmTime) | Gmt(gmt: GmtTimes.GmtTime)

  /** `alt` of the 12-hour reading, then the `GMT` one, each `map`ped into
      its variant; when both fail the error is that of the `GMT` reading. */
  function Parse(s: string): (r: Parsed<WhenExactTime>)
    ensures r.Ok? && r.value.AmPm? ==> AmPmTimes.Parse(s) == Ok(r.value.amPm, r.rest)
    ensures r.Ok? && r.value.Gmt? ==>
      AmPmTimes.Parse(s).Fail? && GmtTimes.Parse(s) == Ok(r.value.gmt, r.rest)
    ensures r.Fail? ==> AmPmTimes.Parse(s).Fail? && GmtTimes.Parse(s) == Fail(r.error)
  {
    var a := AmPmTimes.Parse(s);
    if a.Ok? then Ok(AmPm(a.value), a.rest)
    else
      var g := GmtTimes.Parse(s);
      if g.Ok? then Ok(Gmt(g.value), g.rest) else Fail(g.error)
  }

  /** Every 12-hour reading, printed, reads back as itself. */
  lemma AmPmRoundTrip(x: AmPmTimes.AmPmTime, shape: Shape, gap: string, casing: AmPms.Casing, t: string)
    requires AmPmTimes.Valid(x) && ShapeFits(shape, x.minute, x.second) && IsGap(gap)
    ensures Parse(AmPmTimes.Text(x, shape, gap, casing) + t) == Ok(AmPm(x), t)
  {
    AmPmTimes.RoundTrip(x, shape, gap, casing, t);
  }

  /** `GMT` is not an `am`/`pm` marker. */
  lemma GmtNotAmPm(t: string)
    ensures !StartsWithSpace(GmtTimes.Gmt + t) && AmPms.Parse(GmtTimes.Gmt + t).Fail?
  {
    assert (GmtTimes.Gmt + t)[0] == 'G';
  }

  /** Every `GMT` reading, printed, falls through the 12-hour reading and reads
      back as itself. */
  lemma {:induction false} GmtRoundTrip(x: GmtTimes.GmtTime, shape: Shape, gap: string, t: string)
    requires GmtTimes.Valid(x) && ShapeFits(shape, x.minute, x.second) && IsGap(gap)
    ensures Parse(GmtTimes.Text(x, shape, gap) + t) == Ok(Gmt(x), t)
  {
    var clock := ClockText(x.hour, x.minute, x.second, shape);
    assert GmtTimes.Text(x, shape, gap) + t == clock + (gap + (GmtTimes.Gmt + t));
    GmtNotAmPm(t);
    AmPmTimes.NoMarkerFails(x.hour, x.minute, x.second, shape, gap, GmtTimes.Gmt + t);
    GmtTimes.RoundTrip(x, shape, gap, t);
  }

  /** The digit fields of the test vectors. */
  lemma VectorFields()
    ensures AllDigits("01") && Value("01") == 1
    ensures AllDigits("00") && Value("00") == 0
  {
  }

  /** The test-vector texts, split at the fields. */
  lemma VectorTexts()
    ensures "01:00:00 AM" == "01" + (":" + ("00" + (":" + ("00" + (" " + (AmPms.Text(AmPms.Am, AmPms.Upper) + ""))))))
    ensures "01:00:00 GMT" == "01" + (":" + ("00" + (":" + ("00" + (" " + (GmtTimes.Gmt + ""))))))
  {
  }

  /** Test vector: `01:00:00 AM` is a 12-hour reading, leading zeros allowed. */
  lemma AmVector()
    ensures Parse("01:00:00 AM") == Ok(AmPm(AmPmTimes.AmPmTime(1, 0, 0, AmPms.Am)), "")
  {
    VectorFields();
    VectorTexts();
    AmPmTimes.FullReadingOf("01", "00", "00", " ", AmPms.Am, AmPms.Upper, "");
  }

  /** `h:m:s GMT` with any digit spellings (leading zeros included) is a
      `GMT` reading. */
  lemma GmtFullOf(hs: string, ms: string, ss: string, gap: string, t: string)
    requires GmtTimes.HourDigits(hs) && FieldDigits(ms) && FieldDigits(ss) && IsGap(gap)
    ensures Parse(hs + (":" + (ms + (":" + (ss + (gap + (GmtTimes.Gmt + t))))))) ==
      Ok(Gmt(GmtTimes.GmtTime(Value(hs), Value(ms), Value(ss))), t)
  {
    GmtNotAmPm(t);
    AmPmTimes.FullNoMarker(hs, ms, ss, gap, GmtTimes.Gmt + t);
    GmtTimes.FullReadingOf(hs, ms, ss, gap, t);
  }

  /** Test vector: `01:00:00 GMT` is a `GMT` reading. */
  lemma GmtVector()
    ensures Parse("01:00:00 GMT") == Ok(Gmt(GmtTimes.GmtTime(1, 0, 0)), "")
  {
    VectorFields();
    VectorTexts();
    GmtFullOf("01", "00", "00", " ", "");
  }

  /** Input without a leading digit fails with `Digit` at the input. */
  lemma NoDigit(s: string)
    requires !StartsWithDigit(s)
    ensures Parse(s) == Fail(ParseError(s, Digit))
  {
  }
}
