/** A count of seconds, minutes or hours: `<digits> [spaces] <unit>`, with
    long and short unit spellings (src/time_duration.rs). */
module TimeDurations {
  import opened Nom

  datatype TimeDuration = Seconds(n: u32) | Minutes(n: u32) | Hours(n: u32)

  datatype TimeUnit = Second | Minute | Hour

  /** The five spellings of each unit, in the order the source tries them. */
  datatype Form = LongPlural | LongSingular | ShortPlural | ShortSingular | Letter

  function Make(unit: TimeUnit, n: u32): (d: TimeDuration)
    ensures d.n == n && UnitOf(d) == unit
  {
    match unit
    case Second => Seconds(n)
    case Minute => Minutes(n)
    case Hour => Hours(n)
  }

  function UnitOf(d: TimeDuration): TimeUnit {
    match d
    case Seconds(_) => Second
    case Minutes(_) => Minute
    case Hours(_) => Hour
  }

  function Initial(unit: TimeUnit): char {
    match unit
    case Second => 's'
    case Minute => 'm'
    case Hour => 'h'
  }

  /** A unit's spelling in a form; all spellings of a unit share the
      unit's initial letter. */
  function Word(unit: TimeUnit, form: Form): (w: string)
    ensures |w| > 0 && w[0] == Initial(unit)
  {
    match (unit, form)
    case (Second, LongPlural) => "seconds"
    case (Second, LongSingular) => "second"
    case (Second, ShortPlural) => "secs"
    case (Second, ShortSingular) => "sec"
    case (Second, Letter) => "s"
    case (Minute, LongPlural) => "minutes"
    case (Minute, LongSingular) => "minute"
    case (Minute, ShortPlural) => "mins"
    case (Minute, ShortSingular) => "min"
    case (Minute, Letter) => "m"
    case (Hour, LongPlural) => "hours"
    case (Hour, LongSingular) => "hour"
    case (Hour, ShortPlural) => "hrs"
    case (Hour, ShortSingular) => "hr"
    case (Hour, Letter) => "h"
  }

  /** One unit's spellings, longest first. */
  function UnitSpellings(unit: TimeUnit, s: string): (r: Parsed<TimeUnit>)
    ensures r.Ok? ==> r.value == unit && exists form :: Word(unit, form) <= s && r.rest == s[|Word(unit, form)|..]
    ensures r.Fail? ==> r.error == ParseError(s, Tag)
  {
    Alt(LiteralAs(Word(unit, LongPlural), unit, s),
    Alt(LiteralAs(Word(unit, LongSingular), unit, s),
    Alt(LiteralAs(Word(unit, ShortPlural), unit, s),
    Alt(LiteralAs(Word(unit, ShortSingular), unit, s),
        LiteralAs(Word(unit, Letter), unit, s)))))
  }

  /** The unit word: the fifteen spellings, seconds, then minutes, then
      hours. A failure is a `Tag` error at the word's position. */
  function UnitWord(s: string): (r: Parsed<TimeUnit>)
    ensures r.Ok? ==> exists form :: Word(r.value, form) <= s && r.rest == s[|Word(r.value, form)|..]
    ensures r.Fail? ==> r.error == ParseError(s, Tag)
  {
    Alt(UnitSpellings(Second, s), Alt(UnitSpellings(Minute, s), UnitSpellings(Hour, s)))
  }

  /** `TimeDuration::parse`: a `u32` digit run, optional spaces, a unit.
      Any input not starting with a digit fails with `Digit` at the input. */
  function Parse(s: string): (r: Parsed<TimeDuration>)
    ensures !StartsWithDigit(s) ==> r == Fail(ParseError(s, Digit))
    ensures r.Ok? ==> StartsWithDigit(s) && |r.rest| < |s|
  {
    var (n, r1) :- U32(s);
    AfterCount(n, r1)
  }

  /** The part of `TimeDuration::parse` after the count: `space0` (which
      cannot fail), then the unit word. */
  function AfterCount(n: u32, s: string): (r: Parsed<TimeDuration>)
    ensures r.Ok? ==> r.value.n == n && |r.rest| < |s|
  {
    var r2 := Space0(s).rest;
    var (unit, r3) :- UnitWord(r2);
    Ok(Make(unit, n), r3)
  }

  /** Within a unit, a spelling not followed by a letter is read whole:
      every spelling tried before it either differs from it within its
      length or continues it with a letter. */
  lemma {:induction false} UnitSpellingsOf(unit: TimeUnit, form: Form, t: string)
    requires form == LongPlural || !StartsWithLetter(t)
    ensures UnitSpellings(unit, Word(unit, form) + t) == Ok(unit, t)
  {
    var w := Word(unit, form);
    var s := w + t;
    LiteralAsOf(w, unit, t);
    assert s[0] == w[0];
    assert |w| > 1 ==> s[1] == w[1];
    assert |w| > 2 ==> s[2] == w[2];
    assert |w| > 3 ==> s[3] == w[3];
    assert |t| > 0 ==> s[|w|] == t[0];
    match form
    case LongPlural =>
    case LongSingular =>
      assert !(Word(unit, LongPlural) <= s);
    case ShortPlural =>
      assert !(Word(unit, LongPlural) <= s) && !(Word(unit, LongSingular) <= s);
    case ShortSingular =>
      assert !(Word(unit, LongPlural) <= s) && !(Word(unit, LongSingular) <= s);
      assert !(Word(unit, ShortPlural) <= s);
    case Letter =>
      assert !(Word(unit, LongPlural) <= s) && !(Word(unit, LongSingular) <= s);
      assert !(Word(unit, ShortPlural) <= s) && !(Word(unit, ShortSingular) <= s);
  }

  /** A spelling not followed by a letter is read whole as its unit; the
      longest spelling is read whole whatever follows. */
  lemma {:induction false} UnitWordOf(unit: TimeUnit, form: Form, t: string)
    requires form == LongPlural || !StartsWithLetter(t)
    ensures UnitWord(Word(unit, form) + t) == Ok(unit, t)
  {
    var s := Word(unit, form) + t;
    UnitSpellingsOf(unit, form, t);
    assert s[0] == Initial(unit);
    if unit != Second {
      assert UnitSpellings(Second, s).Fail?;
    }
    if unit == Hour {
      assert UnitSpellings(Minute, s).Fail?;
    }
  }

  /** After the count, blanks and a unit word are consumed whole. */
  lemma {:induction false} AfterCountOf(n: u32, unit: TimeUnit, gap: string, form: Form, t: string)
    requires IsBlank(gap) && (form == LongPlural || !StartsWithLetter(t))
    ensures AfterCount(n, gap + (Word(unit, form) + t)) == Ok(Make(unit, n), t)
  {
    var w := Word(unit, form);
    assert (w + t)[0] == w[0];
    Space0Of(gap, w + t);
    UnitWordOf(unit, form, t);
  }

  /** Every duration reads back from its text (the count in decimal, a
      possibly empty run of blanks, a spelling of the unit) when the text is
      not followed by a letter; with the longest spelling, whatever follows. */
  lemma {:induction false} RoundTrip(d: TimeDuration, gap: string, form: Form, t: string)
    requires IsBlank(gap) && (form == LongPlural || !StartsWithLetter(t))
    ensures Parse(Decimal(d.n) + (gap + (Word(UnitOf(d), form) + t))) == Ok(d, t)
  {
    var w := Word(UnitOf(d), form);
    var r1 := gap + (w + t);
    assert !StartsWithDigit(r1) by {
      if |gap| > 0 { assert r1[0] == gap[0]; } else { assert r1[0] == w[0]; }
    }
    DecimalU32(d.n, r1);
    AfterCountOf(d.n, UnitOf(d), gap, form, t);
    assert Make(UnitOf(d), d.n) == d;
  }

  /** The count is the value of the leading digit run, and a run beyond the
      `u32` range fails with `MapRes` at the input. */
  lemma {:induction false} CountOf(ds: string, t: string)
    requires |ds| > 0 && AllDigits(ds) && !StartsWithDigit(t)
    ensures Value(ds) > U32_MAX ==> Parse(ds + t) == Fail(ParseError(ds + t, MapRes))
    ensures Parse(ds + t).Ok? ==> Parse(ds + t).value.n == Value(ds)
  {
    U32Of(ds, t);
  }

  /** Test vector: the longest spelling with a zero count. */
  lemma ZeroSeconds()
    ensures Parse("0 seconds") == Ok(Seconds(0), "")
  {
    assert "0 seconds" == Decimal(0) + (" " + (Word(Second, LongPlural) + ""));
    RoundTrip(Seconds(0), " ", LongPlural, "");
  }

  /** Test vector: a short plural. */
  lemma ShortMinutes()
    ensures Parse("100 mins") == Ok(Minutes(100), "")
  {
    assert Decimal(100) == "100";
    assert "100 mins" == Decimal(100) + (" " + (Word(Minute, ShortPlural) + ""));
    RoundTrip(Minutes(100), " ", ShortPlural, "");
  }

  /** Test vector: a one-letter unit with no space. */
  lemma LetterHours()
    ensures Parse("300h") == Ok(Hours(300), "")
  {
    assert Decimal(300) == "300";
    assert "300h" == Decimal(300) + ("" + (Word(Hour, Letter) + ""));
    RoundTrip(Hours(300), "", Letter, "");
  }

  /** Test vector: a word is not a count. */
  lemma UnknownFails()
    ensures Parse("unknown") == Fail(ParseError("unknown", Digit))
  {
  }
}
