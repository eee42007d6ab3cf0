/** A count of days, weeks or months: `<digits> [spaces] <unit>`
    (src/date_duration.rs). */
module DateDurations {
  import opened Nom

  datatype DateDuration = Days(n: u32) | Weeks(n: u32) | Months(n: u32)

  datatype DateUnit = Day | Week | Month

  function Make(unit: DateUnit, n: u32): (d: DateDuration)
    ensures d.n == n && UnitOf(d) == unit
  {
    match unit
    case Day => Days(n)
    case Week => Weeks(n)
    case Month => Months(n)
  }

  function UnitOf(d: DateDuration): DateUnit {
    match d
    case Days(_) => Day
    case Weeks(_) => Week
    case Months(_) => Month
  }

  /** A unit's spellings, plural first: the order the source tries them. */
  function Plural(unit: DateUnit): string {
    match unit
    case Day => "days"
    case Week => "weeks"
    case Month => "months"
  }

  function Singular(unit: DateUnit): (w: string)
    ensures |w| + 1 == |Plural(unit)| && w + "s" == Plural(unit)
  {
    match unit
    case Day => "day"
    case Week => "week"
    case Month => "month"
  }

  /** The unit word: `days`, `day`, `weeks`, `week`, `months`, `month`, first
      match wins. A failure is a `Tag` error at the word's position. */
  function UnitWord(s: string): (r: Parsed<DateUnit>)
    ensures r.Ok? ==>
      (Plural(r.value) <= s && r.rest == s[|Plural(r.value)|..]) ||
      (Singular(r.value) <= s && !(Plural(r.value) <= s) && r.rest == s[|Singular(r.value)|..])
    ensures r.Fail? ==> r.error == ParseError(s, Tag)
  {
    Alt(LiteralAs("days", Day, s),
    Alt(LiteralAs("day", Day, s),
    Alt(LiteralAs("weeks", Week, s),
    Alt(LiteralAs("week", Week, s),
    Alt(LiteralAs("months", Month, s),
        LiteralAs("month", Month, s))))))
  }

  /** `DateDuration::parse`: a `u32` digit run, optional spaces, a unit.
      Any input not starting with a digit fails with `Digit` at the input. */
  function Parse(s: string): (r: Parsed<DateDuration>)
    ensures !StartsWithDigit(s) ==> r == Fail(ParseError(s, Digit))
    ensures r.Ok? ==> StartsWithDigit(s) && |r.rest| < |s|
  {
    var (n, r1) :- U32(s);
    AfterCount(n, r1)
  }

  /** The part of `DateDuration::parse` after the count: `space0` (which
      cannot fail), then the unit word. */
  function AfterCount(n: u32, s: string): (r: Parsed<DateDuration>)
    ensures r.Ok? ==> r.value.n == n && |r.rest| < |s|
  {
    var r2 := Space0(s).rest;
    var (unit, r3) :- UnitWord(r2);
    Ok(Make(unit, n), r3)
  }

  /** A plural unit word is read whole, whatever follows it. */
  lemma {:induction false} PluralOf(unit: DateUnit, t: string)
    ensures UnitWord(Plural(unit) + t) == Ok(unit, t)
  {
    var s := Plural(unit) + t;
    LiteralAsOf(Plural(unit), unit, t);
    match unit
    case Day =>
    case Week => assert s[0] == 'w';
    case Month => assert s[0] == 'm';
  }

  /** A singular unit word is read whole when no `s` (nor any other letter)
      follows it: the plural, tried first, would take the `s`. */
  lemma {:induction false} SingularOf(unit: DateUnit, t: string)
    requires !StartsWithLetter(t)
    ensures UnitWord(Singular(unit) + t) == Ok(unit, t)
  {
    var w := Singular(unit);
    var s := w + t;
    LiteralAsOf(w, unit, t);
    assert !(Plural(unit) <= s);
    match unit
    case Day =>
    case Week => assert s[0] == 'w';
    case Month => assert s[0] == 'm';
  }

  /** A unit's plural or singular spelling. */
  function Word(unit: DateUnit, plural: bool): string {
    if plural then Plural(unit) else Singular(unit)
  }

  /** A unit word is read whole: the plural whatever follows, the singular
      when no letter follows. */
  lemma UnitWordOf(unit: DateUnit, plural: bool, t: string)
    requires plural || !StartsWithLetter(t)
    ensures UnitWord(Word(unit, plural) + t) == Ok(unit, t)
  {
    if plural { PluralOf(unit, t); } else { SingularOf(unit, t); }
  }

  /** After the count, blanks and a unit word are consumed whole: the plural
      whatever follows, the singular when no letter follows. */
  lemma {:induction false} AfterCountOf(n: u32, unit: DateUnit, gap: string, plural: bool, t: string)
    requires IsBlank(gap) && (plural || !StartsWithLetter(t))
    ensures AfterCount(n, gap + (Word(unit, plural) + t)) == Ok(Make(unit, n), t)
  {
    var w := Word(unit, plural);
    assert (w + t)[0] == w[0];
    Space0Of(gap, w + t);
    UnitWordOf(unit, plural, t);
  }

  /** Every duration reads back from its text (the count in decimal, a
      possibly empty run of blanks, a spelling of the unit) when the text is
      not followed by a letter; with the plural, whatever follows. */
  lemma {:induction false} RoundTrip(d: DateDuration, gap: string, plural: bool, t: string)
    requires IsBlank(gap) && (plural || !StartsWithLetter(t))
    ensures Parse(Decimal(d.n) + (gap + (Word(UnitOf(d), plural) + t))) == Ok(d, t)
  {
    var w := Word(UnitOf(d), plural);
    var r1 := gap + (w + t);
    assert !StartsWithDigit(r1) by {
      if |gap| > 0 { assert r1[0] == gap[0]; } else { assert r1[0] == w[0]; }
    }
    DecimalU32(d.n, r1);
    AfterCountOf(d.n, UnitOf(d), gap, plural, t);
    assert Make(UnitOf(d), d.n) == d;
  }

  /** The count is the value of the leading digit run, and a run beyond the
      `u32` range fails with `MapRes` at the input. */
  lemma {:induction false} CountOf(ds: string, t: string)
    requires |ds| > 0 && AllDigits(ds) && !StartsWithDigit(t)
    ensures Value(ds) > U32_MAX ==> Parse(ds + t) == Fail(ParseError(ds + t, MapRes))
    ensures Parse(ds + t).Ok? ==> Parse(ds + t).value.n == Value(ds)
  {
    U32Of(ds, t);
  }

  /** A count followed by no unit fails with `Tag` after the blanks. */
  lemma {:induction false} MissingUnit(n: u32, gap: string, t: string)
    requires IsBlank(gap) && !StartsWithSpace(t) && !StartsWithDigit(gap + t)
    requires UnitWord(t).Fail?
    ensures Parse(Decimal(n) + (gap + t)) == Fail(ParseError(t, Tag))
  {
    DecimalU32(n, gap + t);
    Space0Of(gap, t);
    assert AfterCount(n, gap + t) == Fail(ParseError(t, Tag));
  }

  /** A digit run followed by neither a blank nor a letter fails: with
      `MapRes` at the input beyond the `u32` range, else with `Tag` where the
      unit word should start. */
  lemma {:induction false} CountWithoutUnit(ds: string, t: string)
    requires |ds| > 0 && AllDigits(ds)
    requires !StartsWithDigit(t) && !StartsWithSpace(t) && !StartsWithLetter(t)
    ensures Parse(ds + t) ==
      if Value(ds) > U32_MAX then Fail(ParseError(ds + t, MapRes)) else Fail(ParseError(t, Tag))
  {
    U32Of(ds, t);
    if Value(ds) <= U32_MAX {
      NoUnitAfterCount(Value(ds), t);
    }
  }

  /** After the count, text that starts with neither a blank nor a letter
      names no unit. */
  lemma NoUnitAfterCount(n: u32, t: string)
    requires !StartsWithSpace(t) && !StartsWithLetter(t)
    ensures AfterCount(n, t) == Fail(ParseError(t, Tag))
  {
    assert Space0(t).rest == t;
    assert UnitWord(t).Fail?;
  }

  /** Test vector: a zero count with a space and the plural. */
  lemma ZeroDays()
    ensures Parse("0 days") == Ok(Days(0), "")
  {
    assert "0 days" == Decimal(0) + (" " + (Word(Day, true) + ""));
    RoundTrip(Days(0), " ", true, "");
  }

  /** Test vector: the singular spelling. */
  lemma SingularWeek()
    ensures Parse("200 week") == Ok(Weeks(200), "")
  {
    assert Decimal(200) == "200";
    assert "200 week" == Decimal(200) + (" " + (Word(Week, false) + ""));
    RoundTrip(Weeks(200), " ", false, "");
  }

  /** Test vector: no space between count and unit. */
  lemma UnspacedMonths()
    ensures Parse("300months") == Ok(Months(300), "")
  {
    assert Decimal(300) == "300";
    assert "300months" == Decimal(300) + ("" + (Word(Month, true) + ""));
    RoundTrip(Months(300), "", true, "");
  }

  /** Test vector: a word is not a count. */
  lemma UnknownFails()
    ensures Parse("unknown") == Fail(ParseError("unknown", Digit))
  {
  }
}
