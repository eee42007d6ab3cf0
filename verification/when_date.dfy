/** A date: relative to today, or an exact calendar date (src/when_date.rs). */
module Dates {
  import opened Nom
  import DateDurations
  import ExactDates
  import RelativeDates

  datatype WhenDate = Relative(relative: RelativeDates.WhenRelativeDate) | Exact(exact: ExactDates.WhenExactDate)

  /** `alt` of the relative date, then the exact one, each `map`ped into its
      variant; when both fail the error is that of the exact date. */
  function Parse(s: string): (r: Parsed<WhenDate>)
    ensures r.Ok? && r.value.Relative? ==> RelativeDates.Parse(s) == Ok(r.value.relative, r.rest)
    ensures r.Ok? && r.value.Exact? ==>
      RelativeDates.Parse(s).Fail? && ExactDates.Parse(s) == Ok(r.value.exact, r.rest)
    ensures r.Fail? ==> RelativeDates.Parse(s).Fail? && ExactDates.Parse(s) == Fail(r.error)
  {
    var a := RelativeDates.Parse(s);
    if a.Ok? then Ok(Relative(a.value), a.rest)
    else
      var e := ExactDates.Parse(s);
      if e.Ok? then Ok(Exact(e.value), e.rest) else Fail(e.error)
  }

  /** After a digit run, a date separator is no unit word, so the
      `<duration> ago` form fails. */
  lemma {:induction false} NoUnitAfterCount(ds: string, sep: ExactDates.Separator, u: string)
    requires |ds| > 0 && AllDigits(ds)
    ensures RelativeDates.AgoForm(ds + (ExactDates.Sep(sep) + u)).Fail?
  {
    var v := ExactDates.Sep(sep) + u;
    assert v[0] == ExactDates.Sep(sep)[0];
    DateDurations.CountWithoutUnit(ds, v);
  }

  /** A digit run followed by a date separator is not a relative date: the
      duration's unit word is missing. */
  lemma {:induction false} CountThenSeparator(ds: string, sep: ExactDates.Separator, u: string)
    requires |ds| > 0 && AllDigits(ds)
    ensures RelativeDates.Parse(ds + (ExactDates.Sep(sep) + u)).Fail?
  {
    var s := ds + (ExactDates.Sep(sep) + u);
    NoUnitAfterCount(ds, sep, u);
    assert s[0] == ds[0];
    RelativeDates.AgoMissing(s);
  }

  /** Both spellings of an exact date read as that date, leading zeros
      included, whatever non-digit text follows. */
  lemma {:induction false} ExactOf(sep: ExactDates.Separator, ds: string, ms: string, ys: string, t: string)
    requires ExactDates.Fields(ds, ms, ys) && !StartsWithDigit(t)
    ensures Parse(ds + (ExactDates.Sep(sep) + (ms + (ExactDates.Sep(sep) + (ys + t))))) ==
      Ok(Exact(ExactDates.WhenExactDate(Value(ys), Value(ms), Value(ds))), t)
  {
    CountThenSeparator(ds, sep, ms + (ExactDates.Sep(sep) + (ys + t)));
    ExactDates.ParseOf(sep, ds, ms, ys, t);
  }

  /** Every date the exact parser can produce, printed, reads back as an
      exact date. */
  lemma {:induction false} ExactRoundTrip(x: ExactDates.WhenExactDate, sep: ExactDates.Separator, t: string)
    requires ExactDates.Valid(x) && !StartsWithDigit(t)
    ensures Parse(ExactDates.Text(x, sep) + t) == Ok(Exact(x), t)
  {
    var ds := Decimal(x.day);
    var u := ExactDates.Sep(sep) + (Decimal(x.month) + (ExactDates.Sep(sep) + Decimal(x.year)));
    assert ExactDates.Text(x, sep) + t == ds + (ExactDates.Sep(sep) + (Decimal(x.month) + (ExactDates.Sep(sep) + (Decimal(x.year) + t))));
    CountThenSeparator(ds, sep, Decimal(x.month) + (ExactDates.Sep(sep) + (Decimal(x.year) + t)));
    ExactDates.RoundTrip(x, sep, t);
  }

  /** `<duration> ago` reads back as a relative date. */
  lemma AgoRoundTrip(d: DateDurations.DateDuration, gap0: string, plural: bool, gap: string, t: string)
    requires IsBlank(gap0) && IsGap(gap)
    ensures Parse(RelativeDates.DurationText(d, gap0, plural) + (gap + ("ago" + t))) ==
      Ok(Relative(RelativeDates.Ago(d)), t)
  {
    RelativeDates.AgoRoundTrip(d, gap0, plural, gap, t);
  }

  /** Input that starts neither a relative keyword nor a digit fails with
      the exact date's `Digit` error at the input. */
  lemma NoDate(s: string)
    requires |s| == 0 || (s[0] !in "ytlni" && !IsDigit(s[0]))
    ensures Parse(s) == Fail(ParseError(s, Digit))
  {
    RelativeDates.NoKeyword(s);
  }

  /** The test-vector texts, split at the fields. */
  lemma VectorTexts()
    ensures "10 days ago" ==
      RelativeDates.DurationText(DateDurations.Days(10), " ", true) + (" " + ("ago" + ""))
    ensures "10/10/2001" == "10" + ("/" + ("10" + ("/" + ("2001" + ""))))
    ensures "10-10-2001" == "10" + ("-" + ("10" + ("-" + ("2001" + ""))))
  {
    assert Decimal(10) == "10";
  }

  /** The digit fields of the exact test vectors. */
  lemma VectorFields()
    ensures AllDigits("10") && Value("10") == 10
    ensures AllDigits("2001") && Value("2001") == 2001
  {
    assert "2001"[..3] == "200" && "200"[..2] == "20" && "20"[..1] == "2";
  }

  /** Test vector: `yesterday`. */
  lemma YesterdayVector()
    ensures Parse("yesterday") == Ok(Relative(RelativeDates.Yesterday), "")
  {
    RelativeDates.NamedRoundTrip(RelativeDates.Yesterday, "");
    assert "yesterday" + "" == "yesterday";
  }

  /** Test vector: `10 days ago`. */
  lemma AgoVector()
    ensures Parse("10 days ago") == Ok(Relative(RelativeDates.Ago(DateDurations.Days(10))), "")
  {
    VectorTexts();
    AgoRoundTrip(DateDurations.Days(10), " ", true, " ", "");
  }

  /** Test vector: `10/10/2001`. */
  lemma SlashVector()
    ensures Parse("10/10/2001") == Ok(Exact(ExactDates.WhenExactDate(2001, 10, 10)), "")
  {
    VectorTexts();
    VectorFields();
    ExactOf(ExactDates.Slash, "10", "10", "2001", "");
  }

  /** Test vector: `10-10-2001`. */
  lemma DashVector()
    ensures Parse("10-10-2001") == Ok(Exact(ExactDates.WhenExactDate(2001, 10, 10)), "")
  {
    VectorTexts();
    VectorFields();
    ExactOf(ExactDates.Dash, "10", "10", "2001", "");
  }

  /** Test vector: `unknown` fails with `Digit` at the input. */
  lemma UnknownFails()
    ensures Parse("unknown") == Fail(ParseError("unknown", Digit))
  {
    assert "unknown"[0] == 'u';
    NoDate("unknown");
  }
}
