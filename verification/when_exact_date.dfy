/** A calendar date written day, month, year with `-` or `/` between the
    fields (src/when_exact_date.rs). */
module ExactDates {
  import opened Nom

  datatype WhenExactDate = WhenExactDate(year: u32, month: u8, day: u8)

  /** The dates the parser can produce: day 1..=31 and month 1..=12 whatever
      the month and year; the year is any `u32`. */
  predicate Valid(x: WhenExactDate) {
    1 <= x.day <= 31 && 1 <= x.month <= 12
  }

  datatype Separator = Dash | Slash

  function Sep(sep: Separator): string {
    match sep
    case Dash => "-"
    case Slash => "/"
  }

  /** `parse_with_dashes` / `parse_with_slashes`: a day in 1..=31, the
      separator, a month in 1..=12, the separator, a `u32` year. */
  function ParseWith(sep: Separator, s: string): (r: Parsed<WhenExactDate>)
    ensures r.Ok? ==> Valid(r.value)
    ensures !StartsWithDigit(s) ==> r == Fail(ParseError(s, Digit))
  {
    var (day, r1) :- BoundedU8(s, 1, 31);
    AfterDay(sep, day, r1)
  }

  /** The part of `ParseWith` after the day has been read. */
  function AfterDay(sep: Separator, day: u8, s: string): (r: Parsed<WhenExactDate>)
    ensures r.Ok? ==> r.value.day == day && 1 <= r.value.month <= 12
    ensures !(Sep(sep) <= s) ==> r == Fail(ParseError(s, Tag))
  {
    var (_, r2) :- Literal(Sep(sep), s);
    var (month, r3) :- BoundedU8(r2, 1, 12);
    var (_, r4) :- Literal(Sep(sep), r3);
    var (year, r5) :- U32(r4);
    Ok(WhenExactDate(year, month, day), r5)
  }

  /** `parse_when_exact_date`: dashes first, then slashes; when both fail
      the error is that of the slash form. */
  function Parse(s: string): (r: Parsed<WhenExactDate>)
    ensures r.Ok? ==> Valid(r.value)
    ensures r.Fail? ==> ParseWith(Slash, s) == r
    ensures !StartsWithDigit(s) ==> r == Fail(ParseError(s, Digit))
  {
    Alt(ParseWith(Dash, s), ParseWith(Slash, s))
  }

  /** The three fields as digit strings: any spelling the scanners accept,
      leading zeros included. */
  predicate Fields(ds: string, ms: string, ys: string) {
    |ds| > 0 && AllDigits(ds) && 1 <= Value(ds) <= 31 &&
    |ms| > 0 && AllDigits(ms) && 1 <= Value(ms) <= 12 &&
    |ys| > 0 && AllDigits(ys) && Value(ys) <= U32_MAX
  }

  /** After the day: the separator, a month, the separator, a year. */
  lemma AfterDayOf(sep: Separator, day: u8, ms: string, ys: string, t: string)
    requires |ms| > 0 && AllDigits(ms) && 1 <= Value(ms) <= 12
    requires |ys| > 0 && AllDigits(ys) && Value(ys) <= U32_MAX && !StartsWithDigit(t)
    ensures AfterDay(sep, day, Sep(sep) + (ms + (Sep(sep) + (ys + t)))) ==
      Ok(WhenExactDate(Value(ys), Value(ms), day), t)
  {
    var r3 := Sep(sep) + (ys + t);
    LiteralOf(Sep(sep), ms + r3);
    BoundedU8Of(ms, r3, 1, 12);
    LiteralOf(Sep(sep), ys + t);
    U32Of(ys, t);
  }

  /** A form reads its own spelling: day, separator, month, separator, year. */
  lemma ParseWithOf(sep: Separator, ds: string, ms: string, ys: string, t: string)
    requires Fields(ds, ms, ys) && !StartsWithDigit(t)
    ensures ParseWith(sep, ds + (Sep(sep) + (ms + (Sep(sep) + (ys + t))))) ==
      Ok(WhenExactDate(Value(ys), Value(ms), Value(ds)), t)
  {
    var r1 := Sep(sep) + (ms + (Sep(sep) + (ys + t)));
    BoundedU8Of(ds, r1, 1, 31);
    AfterDayOf(sep, Value(ds), ms, ys, t);
  }

  /** The dash form fails on a slash after the day. */
  lemma DashFailsOnSlash(ds: string, u: string)
    requires |ds| > 0 && AllDigits(ds)
    ensures ParseWith(Dash, ds + ("/" + u)).Fail?
  {
    BoundedU8Of(ds, "/" + u, 1, 31);
  }

  /** Both spellings read back as the same date, whatever follows them that
      is not a digit. */
  lemma {:induction false} ParseOf(sep: Separator, ds: string, ms: string, ys: string, t: string)
    requires Fields(ds, ms, ys) && !StartsWithDigit(t)
    ensures Parse(ds + (Sep(sep) + (ms + (Sep(sep) + (ys + t))))) ==
      Ok(WhenExactDate(Value(ys), Value(ms), Value(ds)), t)
  {
    ParseWithOf(sep, ds, ms, ys, t);
    if sep == Slash {
      DashFailsOnSlash(ds, ms + (Sep(sep) + (ys + t)));
    }
  }

  /** The shortest spelling of a date with separator `sep`. */
  function Text(x: WhenExactDate, sep: Separator): string {
    Decimal(x.day) + (Sep(sep) + (Decimal(x.month) + (Sep(sep) + Decimal(x.year))))
  }

  /** Every date the parser can produce prints with either separator and
      reads back; day 31 is accepted with every month. */
  lemma {:induction false} RoundTrip(x: WhenExactDate, sep: Separator, t: string)
    requires Valid(x) && !StartsWithDigit(t)
    ensures Parse(Text(x, sep) + t) == Ok(x, t)
  {
    var ds, ms, ys := Decimal(x.day), Decimal(x.month), Decimal(x.year);
    assert Text(x, sep) + t == ds + (Sep(sep) + (ms + (Sep(sep) + (ys + t))));
    ParseOf(sep, ds, ms, ys, t);
  }

  /** The two date fields, day first, as digit strings in range. */
  predicate DayMonth(ds: string, ms: string) {
    |ds| > 0 && AllDigits(ds) && 1 <= Value(ds) <= 31 &&
    |ms| > 0 && AllDigits(ms) && 1 <= Value(ms) <= 12
  }

  /** A form stops at a second separator that is not its own, with a `Tag`
      error there. */
  lemma WrongSecondSeparator(sep: Separator, ds: string, ms: string, u: string)
    requires DayMonth(ds, ms) && !(Sep(sep) <= u) && !StartsWithDigit(u)
    ensures ParseWith(sep, ds + (Sep(sep) + (ms + u))) == Fail(ParseError(u, Tag))
  {
    BoundedU8Of(ds, Sep(sep) + (ms + u), 1, 31);
    LiteralOf(Sep(sep), ms + u);
    BoundedU8Of(ms, u, 1, 12);
  }

  /** A form stops at a first separator that is not its own. */
  lemma WrongFirstSeparator(sep: Separator, ds: string, u: string)
    requires |ds| > 0 && AllDigits(ds) && 1 <= Value(ds) <= 31 && !(Sep(sep) <= u) && !StartsWithDigit(u)
    ensures ParseWith(sep, ds + u) == Fail(ParseError(u, Tag))
  {
    BoundedU8Of(ds, u, 1, 31);
  }

  /** Mixed separators fail: each form stops at the separator that is not
      its own, and the reported error is the slash form's, a `Tag` error at
      the dash. */
  lemma {:induction false} MixedFails(ds: string, ms: string, u: string)
    requires DayMonth(ds, ms)
    ensures Parse(ds + ("-" + (ms + ("/" + u)))) == Fail(ParseError("-" + (ms + ("/" + u)), Tag))
    ensures Parse(ds + ("/" + (ms + ("-" + u)))) == Fail(ParseError("-" + u, Tag))
  {
    assert ("/" + u)[0] == '/' && ("-" + u)[0] == '-';
    assert ("-" + (ms + ("/" + u)))[0] == '-' && ("/" + (ms + ("-" + u)))[0] == '/';
    WrongSecondSeparator(Dash, ds, ms, "/" + u);
    WrongFirstSeparator(Slash, ds, "-" + (ms + ("/" + u)));
    WrongFirstSeparator(Dash, ds, "/" + (ms + ("-" + u)));
    WrongSecondSeparator(Slash, ds, ms, "-" + u);
  }

  /** A day outside 1..=31 fails both forms at the start of the input:
      `Verify` when it fits a `u8`, `MapRes` when it does not. */
  lemma DayRejected(ds: string, t: string)
    requires |ds| > 0 && AllDigits(ds) && !(1 <= Value(ds) <= 31) && !StartsWithDigit(t)
    ensures Parse(ds + t) == Fail(ParseError(ds + t, if Value(ds) > U8_MAX then MapRes else Verify))
  {
    BoundedU8Of(ds, t, 1, 31);
  }

  /** A month outside 1..=12 fails a form with `Verify` (or `MapRes`) at
      the month. */
  lemma BadMonth(sep: Separator, ds: string, ms: string, t: string)
    requires |ds| > 0 && AllDigits(ds) && 1 <= Value(ds) <= 31
    requires |ms| > 0 && AllDigits(ms) && !(1 <= Value(ms) <= 12) && !StartsWithDigit(t)
    ensures ParseWith(sep, ds + (Sep(sep) + (ms + t))) ==
      Fail(ParseError(ms + t, if Value(ms) > U8_MAX then MapRes else Verify))
  {
    BoundedU8Of(ds, Sep(sep) + (ms + t), 1, 31);
    LiteralOf(Sep(sep), ms + t);
    BoundedU8Of(ms, t, 1, 12);
  }

  /** A month outside 1..=12 after a slash fails with `Verify` (or `MapRes`)
      at the month. */
  lemma MonthRejected(ds: string, ms: string, t: string)
    requires |ds| > 0 && AllDigits(ds) && 1 <= Value(ds) <= 31
    requires |ms| > 0 && AllDigits(ms) && !(1 <= Value(ms) <= 12) && !StartsWithDigit(t)
    ensures Parse(ds + ("/" + (ms + t))) ==
      Fail(ParseError(ms + t, if Value(ms) > U8_MAX then MapRes else Verify))
  {
    assert ("/" + (ms + t))[0] == '/';
    BadMonth(Slash, ds, ms, t);
    WrongFirstSeparator(Dash, ds, "/" + (ms + t));
  }

  /** After a dash the month's error is hidden: the dash form fails at the
      month, but the slash form, tried last, reports a `Tag` error at the
      dash. */
  lemma MonthErrorHidden(ds: string, ms: string, t: string)
    requires |ds| > 0 && AllDigits(ds) && 1 <= Value(ds) <= 31
    requires |ms| > 0 && AllDigits(ms) && !(1 <= Value(ms) <= 12) && !StartsWithDigit(t)
    ensures ParseWith(Dash, ds + ("-" + (ms + t))) ==
      Fail(ParseError(ms + t, if Value(ms) > U8_MAX then MapRes else Verify))
    ensures Parse(ds + ("-" + (ms + t))) == Fail(ParseError("-" + (ms + t), Tag))
  {
    assert ("-" + (ms + t))[0] == '-';
    BadMonth(Dash, ds, ms, t);
    WrongFirstSeparator(Slash, ds, "-" + (ms + t));
  }

  /** The digit fields of the test vectors. */
  lemma VectorFields()
    ensures AllDigits("01") && Value("01") == 1
    ensures AllDigits("2004") && Value("2004") == 2004
    ensures AllDigits("13") && Value("13") == 13
    ensures AllDigits("00") && Value("00") == 0
    ensures AllDigits("32") && Value("32") == 32
    ensures AllDigits("31") && Value("31") == 31
    ensures AllDigits("02") && Value("02") == 2
  {
    assert "2004"[..3] == "200" && "200"[..2] == "20" && "20"[..1] == "2";
  }

  /** Test vector: `01-01-2004`. */
  lemma DashVector()
    ensures Parse("01-01-2004") == Ok(WhenExactDate(2004, 1, 1), "")
  {
    VectorFields();
    assert "01-01-2004" == "01" + (Sep(Dash) + ("01" + (Sep(Dash) + ("2004" + ""))));
    ParseOf(Dash, "01", "01", "2004", "");
  }

  /** Test vector: `01/01/2004`. */
  lemma SlashVector()
    ensures Parse("01/01/2004") == Ok(WhenExactDate(2004, 1, 1), "")
  {
    VectorFields();
    assert "01/01/2004" == "01" + (Sep(Slash) + ("01" + (Sep(Slash) + ("2004" + ""))));
    ParseOf(Slash, "01", "01", "2004", "");
  }

  /** Test vector: day 31 is accepted in February; the calendar is not
      consulted. */
  lemma NoCalendarCheck()
    ensures Parse("31/02/2004") == Ok(WhenExactDate(2004, 2, 31), "")
  {
    VectorFields();
    assert "31/02/2004" == "31" + (Sep(Slash) + ("02" + (Sep(Slash) + ("2004" + ""))));
    ParseOf(Slash, "31", "02", "2004", "");
  }

  /** The month test-vector texts, split at the month. */
  lemma MonthTexts()
    ensures "01/13/2004" == "01" + ("/" + ("13" + "/2004"))
    ensures "01/00/2004" == "01" + ("/" + ("00" + "/2004"))
  {
  }

  /** Test vector: month 13 fails with `Verify` at the month. */
  lemma MonthThirteen()
    ensures Parse("01/13/2004") == Fail(ParseError("13/2004", Verify))
  {
    VectorFields();
    MonthTexts();
    MonthRejected("01", "13", "/2004");
  }

  /** Test vector: month 0 fails with `Verify` at the month. */
  lemma MonthZero()
    ensures Parse("01/00/2004") == Fail(ParseError("00/2004", Verify))
  {
    VectorFields();
    MonthTexts();
    MonthRejected("01", "00", "/2004");
  }

  /** Test vector: day 32 fails with `Verify` at the input. */
  lemma DayThirtyTwo()
    ensures Parse("32/12/2004") == Fail(ParseError("32/12/2004", Verify))
  {
    VectorFields();
    assert "32/12/2004" == "32" + "/12/2004";
    DayRejected("32", "/12/2004");
  }

  /** Test vector: day 0 fails with `Verify` at the input. */
  lemma DayZero()
    ensures Parse("00/01/2004") == Fail(ParseError("00/01/2004", Verify))
  {
    VectorFields();
    assert "00/01/2004" == "00" + "/01/2004";
    DayRejected("00", "/01/2004");
  }
}
