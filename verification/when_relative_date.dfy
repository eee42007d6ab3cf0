/** A date relative to today: `yesterday`, `tomorrow`, `last`/`next`/`this`
    with a weekday or a calendar unit, `<duration> ago` or `in <duration>`
    (src/when_relative_date.rs). */
module RelativeDates {
  import opened Nom
  import Weekdays
  import DateKinds
  import DateDurations

  datatype WhenRelativeDate =
    | Yesterday | Tomorrow
    | LastDay(weekday: Weekdays.Weekday)
    | NextDay(weekday: Weekdays.Weekday)
    | ThisDay(weekday: Weekdays.Weekday)
    | LastKind(kind: DateKinds.DateKind)
    | NextKind(kind: DateKinds.DateKind)
    | ThisKind(kind: DateKinds.DateKind)
    | Ago(duration: DateDurations.DateDuration)
    | In(duration: DateDurations.DateDuration)

  /** The three words that anchor a weekday or a unit. */
  datatype Anchor = Last | Next | This

  function Word(a: Anchor): string {
    match a
    case Last => "last"
    case Next => "next"
    case This => "this"
  }

  function DayValue(a: Anchor, w: Weekdays.Weekday): WhenRelativeDate {
    match a
    case Last => LastDay(w)
    case Next => NextDay(w)
    case This => ThisDay(w)
  }

  function KindValue(a: Anchor, k: DateKinds.DateKind): WhenRelativeDate {
    match a
    case Last => LastKind(k)
    case Next => NextKind(k)
    case This => ThisKind(k)
  }

  /** The first two alternatives. */
  function Named(s: string): (r: Parsed<WhenRelativeDate>)
    ensures r.Ok? ==> (r.value == Yesterday && "yesterday" <= s && r.rest == s[9..]) ||
                      (r.value == Tomorrow && "tomorrow" <= s && r.rest == s[8..])
    ensures r.Fail? ==> r.error == ParseError(s, Tag)
  {
    Alt(LiteralAs("yesterday", Yesterday, s), LiteralAs("tomorrow", Tomorrow, s))
  }

  /** An anchor word, blanks, a weekday. */
  function DayForm(a: Anchor, s: string): (r: Parsed<Weekdays.Weekday>)
    ensures !(Word(a) <= s) ==> r == Fail(ParseError(s, Tag))
  {
    var (_, r1) :- Literal(Word(a), s);
    var (_, r2) :- Space1(r1);
    Weekdays.Parse(r2)
  }

  /** An anchor word, blanks, a calendar unit. */
  function KindForm(a: Anchor, s: string): (r: Parsed<DateKinds.DateKind>)
    ensures !(Word(a) <= s) ==> r == Fail(ParseError(s, Tag))
  {
    var (_, r1) :- Literal(Word(a), s);
    var (_, r2) :- Space1(r1);
    DateKinds.Parse(r2)
  }

  /** A duration, blanks, `ago`. */
  function AgoForm(s: string): (r: Parsed<DateDurations.DateDuration>)
    ensures !StartsWithDigit(s) ==> r == Fail(ParseError(s, Digit))
  {
    var (d, r1) :- DateDurations.Parse(s);
    var (_, r2) :- Space1(r1);
    var (_, r3) :- Literal("ago", r2);
    Ok(d, r3)
  }

  /** `in`, blanks, a duration. */
  function InForm(s: string): (r: Parsed<DateDurations.DateDuration>)
    ensures !("in" <= s) ==> r == Fail(ParseError(s, Tag))
  {
    var (_, r1) :- Literal("in", s);
    var (_, r2) :- Space1(r1);
    DateDurations.Parse(r2)
  }

  /** Alternatives three to five: `last`, `next`, `this` with a weekday.
      The first that reads gives the result; when none does the error is
      that of `this`. */
  function Days(s: string): (r: Parsed<WhenRelativeDate>)
    ensures r.Ok? <==> DayForm(Last, s).Ok? || DayForm(Next, s).Ok? || DayForm(This, s).Ok?
    ensures r.Ok? ==> r.value.LastDay? || r.value.NextDay? || r.value.ThisDay?
    ensures r.Ok? && r.value.LastDay? ==> DayForm(Last, s) == Ok(r.value.weekday, r.rest)
    ensures r.Ok? && r.value.NextDay? ==>
              DayForm(Last, s).Fail? && DayForm(Next, s) == Ok(r.value.weekday, r.rest)
    ensures r.Ok? && r.value.ThisDay? ==>
              DayForm(Last, s).Fail? && DayForm(Next, s).Fail? && DayForm(This, s) == Ok(r.value.weekday, r.rest)
    ensures r.Fail? ==> DayForm(This, s) == Fail(r.error)
  {
    FirstDay(DayForm(Last, s), DayForm(Next, s), DayForm(This, s))
  }

  /** The choice between the three weekday alternatives, given their
      readings. */
  function FirstDay(last: Parsed<Weekdays.Weekday>, next: Parsed<Weekdays.Weekday>,
                    current: Parsed<Weekdays.Weekday>): (r: Parsed<WhenRelativeDate>)
    ensures r.Ok? <==> last.Ok? || next.Ok? || current.Ok?
    ensures r.Ok? ==> r.value.LastDay? || r.value.NextDay? || r.value.ThisDay?
    ensures r.Ok? && r.value.LastDay? ==> last == Ok(r.value.weekday, r.rest)
    ensures r.Ok? && r.value.NextDay? ==> last.Fail? && next == Ok(r.value.weekday, r.rest)
    ensures r.Ok? && r.value.ThisDay? ==> last.Fail? && next.Fail? && current == Ok(r.value.weekday, r.rest)
    ensures r.Fail? ==> current == Fail(r.error)
  {
    Alt(Map(last, w => LastDay(w)),
    Alt(Map(next, w => NextDay(w)),
        Map(current, w => ThisDay(w))))
  }

  /** Alternatives six to eight: `last`, `next`, `this` with a unit. The
      first that reads gives the result; when none does the error is that of
      `this`. */
  function Kinds(s: string): (r: Parsed<WhenRelativeDate>)
    ensures r.Ok? <==> KindForm(Last, s).Ok? || KindForm(Next, s).Ok? || KindForm(This, s).Ok?
    ensures r.Ok? ==> r.value.LastKind? || r.value.NextKind? || r.value.ThisKind?
    ensures r.Ok? && r.value.LastKind? ==> KindForm(Last, s) == Ok(r.value.kind, r.rest)
    ensures r.Ok? && r.value.NextKind? ==>
              KindForm(Last, s).Fail? && KindForm(Next, s) == Ok(r.value.kind, r.rest)
    ensures r.Ok? && r.value.ThisKind? ==>
              KindForm(Last, s).Fail? && KindForm(Next, s).Fail? && KindForm(This, s) == Ok(r.value.kind, r.rest)
    ensures r.Fail? ==> KindForm(This, s) == Fail(r.error)
  {
    FirstKind(KindForm(Last, s), KindForm(Next, s), KindForm(This, s))
  }

  /** The choice between the three unit alternatives, given their readings. */
  function FirstKind(last: Parsed<DateKinds.DateKind>, next: Parsed<DateKinds.DateKind>,
                     current: Parsed<DateKinds.DateKind>): (r: Parsed<WhenRelativeDate>)
    ensures r.Ok? <==> last.Ok? || next.Ok? || current.Ok?
    ensures r.Ok? ==> r.value.LastKind? || r.value.NextKind? || r.value.ThisKind?
    ensures r.Ok? && r.value.LastKind? ==> last == Ok(r.value.kind, r.rest)
    ensures r.Ok? && r.value.NextKind? ==> last.Fail? && next == Ok(r.value.kind, r.rest)
    ensures r.Ok? && r.value.ThisKind? ==> last.Fail? && next.Fail? && current == Ok(r.value.kind, r.rest)
    ensures r.Fail? ==> current == Fail(r.error)
  {
    Alt(Map(last, k => LastKind(k)),
    Alt(Map(next, k => NextKind(k)),
        Map(current, k => ThisKind(k))))
  }

  /** The last two alternatives: `<duration> ago` and `in <duration>`. The
      first that reads gives the result; when neither does the error is that
      of `in`. */
  function Durations(s: string): (r: Parsed<WhenRelativeDate>)
    ensures r.Ok? <==> AgoForm(s).Ok? || InForm(s).Ok?
    ensures r.Ok? ==> r.value.Ago? || r.value.In?
    ensures r.Ok? && r.value.Ago? ==> AgoForm(s) == Ok(r.value.duration, r.rest)
    ensures r.Ok? && r.value.In? ==> AgoForm(s).Fail? && InForm(s) == Ok(r.value.duration, r.rest)
    ensures r.Fail? ==> InForm(s) == Fail(r.error)
  {
    var ago := AgoForm(s);
    var within := InForm(s);
    AltMap(ago, d => Ago(d), within, d => In(d));
    Alt(Map(ago, d => Ago(d)), Map(within, d => In(d)))
  }

  /** `WhenRelativeDate::parse`: the ten alternatives in source order
      (grouping them changes nothing, as `Alt` is associative); when all fail
      the error is that of the last, `in <duration>`. */
  function Parse(s: string): (r: Parsed<WhenRelativeDate>)
    ensures r.Ok? <==> Named(s).Ok? || Days(s).Ok? || Kinds(s).Ok? || Durations(s).Ok?
    ensures r.Ok? && (r.value.Yesterday? || r.value.Tomorrow?) ==> Named(s) == r
    ensures r.Ok? && (r.value.LastDay? || r.value.NextDay? || r.value.ThisDay?) ==>
              Named(s).Fail? && Days(s) == r
    ensures r.Ok? && (r.value.LastKind? || r.value.NextKind? || r.value.ThisKind?) ==>
              Named(s).Fail? && Days(s).Fail? && Kinds(s) == r
    ensures r.Ok? && (r.value.Ago? || r.value.In?) ==>
              Named(s).Fail? && Days(s).Fail? && Kinds(s).Fail? && Durations(s) == r
    ensures r.Fail? ==> InForm(s) == Fail(r.error)
  {
    Alt(Named(s), Alt(Days(s), Alt(Kinds(s), Durations(s))))
  }

  /** Input starting with an anchor word is not `yesterday` or `tomorrow`,
      and fails the anchors that differ from its own. */
  lemma AnchorOthers(a: Anchor, u: string)
    ensures Named(Word(a) + u).Fail?
    ensures forall b :: b != a ==> !(Word(b) <= Word(a) + u)
    ensures !("in" <= Word(a) + u) && !StartsWithDigit(Word(a) + u)
  {
    var s := Word(a) + u;
    assert s[0] == Word(a)[0] && s[1] == Word(a)[1];
  }

  /** An anchor, blanks and a weekday read as that weekday. */
  lemma DayFormOf(a: Anchor, gap: string, w: Weekdays.Weekday, t: string)
    requires IsGap(gap)
    ensures DayForm(a, Word(a) + (gap + (Weekdays.Name(w) + t))) == Ok(w, t)
  {
    var n := Weekdays.Name(w);
    assert (n + t)[0] == n[0];
    LiteralOf(Word(a), gap + (n + t));
    Space1Of(gap, n + t);
    Weekdays.RoundTrip(w, t);
  }

  /** `yesterday` and `tomorrow` read back, whatever follows. */
  lemma NamedRoundTrip(x: WhenRelativeDate, t: string)
    requires x == Yesterday || x == Tomorrow
    ensures Parse((if x == Yesterday then "yesterday" else "tomorrow") + t) == Ok(x, t)
  {
    var w := if x == Yesterday then "yesterday" else "tomorrow";
    assert (w + t)[0] == w[0];
    LiteralAsOf(w, x, t);
  }

  /** `last`/`next`/`this`, blanks and a weekday read back as that anchor and
      weekday. */
  lemma {:induction false} DayRoundTrip(a: Anchor, gap: string, w: Weekdays.Weekday, t: string)
    requires IsGap(gap)
    ensures Parse(Word(a) + (gap + (Weekdays.Name(w) + t))) == Ok(DayValue(a, w), t)
  {
    AnchorOthers(a, gap + (Weekdays.Name(w) + t));
    DayFormOf(a, gap, w, t);
  }

  /** No calendar unit starts like a weekday name. */
  lemma KindIsNotWeekday(k: DateKinds.DateKind, t: string)
    ensures Weekdays.Parse(DateKinds.Name(k) + t).Fail?
  {
    var s := DateKinds.Name(k) + t;
    assert s[0] == DateKinds.Name(k)[0] && s[1] == DateKinds.Name(k)[1];
    assert s[2] == DateKinds.Name(k)[2] && s[3] == DateKinds.Name(k)[3];
  }

  /** An anchor, blanks and a unit: the weekday form fails, the unit form
      reads the unit. */
  lemma KindFormOf(a: Anchor, gap: string, k: DateKinds.DateKind, t: string)
    requires IsGap(gap)
    ensures DayForm(a, Word(a) + (gap + (DateKinds.Name(k) + t))).Fail?
    ensures KindForm(a, Word(a) + (gap + (DateKinds.Name(k) + t))) == Ok(k, t)
  {
    var n := DateKinds.Name(k);
    assert (n + t)[0] == n[0];
    LiteralOf(Word(a), gap + (n + t));
    Space1Of(gap, n + t);
    KindIsNotWeekday(k, t);
    DateKinds.RoundTrip(k, t);
  }

  /** `last`/`next`/`this`, blanks and a unit read back as that anchor and
      unit: the weekday forms, tried first, fail on the unit. */
  lemma {:induction false} KindRoundTrip(a: Anchor, gap: string, k: DateKinds.DateKind, t: string)
    requires IsGap(gap)
    ensures Parse(Word(a) + (gap + (DateKinds.Name(k) + t))) == Ok(KindValue(a, k), t)
  {
    AnchorOthers(a, gap + (DateKinds.Name(k) + t));
    KindFormOf(a, gap, k, t);
  }

  /** The printed form of a duration: shortest count, blanks, unit word. */
  function DurationText(d: DateDurations.DateDuration, gap: string, plural: bool): string {
    Decimal(d.n) + (gap + DateDurations.Word(DateDurations.UnitOf(d), plural))
  }

  /** A duration followed by blanks and `ago` reads as that duration. */
  lemma AgoFormOf(d: DateDurations.DateDuration, gap0: string, plural: bool, gap: string, t: string)
    requires IsBlank(gap0) && IsGap(gap)
    ensures AgoForm(DurationText(d, gap0, plural) + (gap + ("ago" + t))) == Ok(d, t)
  {
    var w := DateDurations.Word(DateDurations.UnitOf(d), plural);
    var u := gap + ("ago" + t);
    assert DurationText(d, gap0, plural) + u == Decimal(d.n) + (gap0 + (w + u));
    assert u[0] == gap[0];
    DateDurations.RoundTrip(d, gap0, plural, u);
    AgoAfter(DurationText(d, gap0, plural) + u, d, gap, t);
  }

  /** A duration read, followed by blanks and `ago`, is the `ago` form. */
  lemma AgoAfter(s: string, d: DateDurations.DateDuration, gap: string, t: string)
    requires IsGap(gap) && DateDurations.Parse(s) == Ok(d, gap + ("ago" + t))
    ensures AgoForm(s) == Ok(d, t)
  {
    assert ("ago" + t)[0] == 'a';
    Space1Of(gap, "ago" + t);
    LiteralOf("ago", t);
  }

  /** Input starting with a digit fails every keyword alternative. */
  lemma DigitNotKeyword(s: string)
    requires StartsWithDigit(s)
    ensures Named(s).Fail? && Days(s).Fail? && Kinds(s).Fail?
  {
    assert !("yesterday" <= s) && !("tomorrow" <= s);
    assert !(Word(Last) <= s) && !(Word(Next) <= s) && !(Word(This) <= s);
  }

  /** `<duration> ago` reads back as `Ago`. */
  lemma {:induction false} AgoRoundTrip(d: DateDurations.DateDuration, gap0: string, plural: bool, gap: string, t: string)
    requires IsBlank(gap0) && IsGap(gap)
    ensures Parse(DurationText(d, gap0, plural) + (gap + ("ago" + t))) == Ok(Ago(d), t)
  {
    var s := DurationText(d, gap0, plural) + (gap + ("ago" + t));
    assert s[0] == Decimal(d.n)[0];
    DigitNotKeyword(s);
    AgoFormOf(d, gap0, plural, gap, t);
  }

  /** `in`, blanks and a duration read as that duration. */
  lemma InFormOf(gap: string, d: DateDurations.DateDuration, gap0: string, plural: bool, t: string)
    requires IsGap(gap) && IsBlank(gap0) && !StartsWithLetter(t)
    ensures InForm("in" + (gap + (DurationText(d, gap0, plural) + t))) == Ok(d, t)
  {
    var w := DateDurations.Word(DateDurations.UnitOf(d), plural);
    var u := DurationText(d, gap0, plural) + t;
    assert u == Decimal(d.n) + (gap0 + (w + t));
    assert u[0] == Decimal(d.n)[0];
    LiteralOf("in", gap + u);
    Space1Of(gap, u);
    DateDurations.RoundTrip(d, gap0, plural, t);
  }

  /** Input starting with no keyword of the first eight alternatives
      fails them all. */
  lemma NoAnchor(s: string)
    requires !("yesterday" <= s) && !("tomorrow" <= s)
    requires !(Word(Last) <= s) && !(Word(Next) <= s) && !(Word(This) <= s)
    ensures Named(s).Fail? && Days(s).Fail? && Kinds(s).Fail?
  {
    assert !("yesterday" <= s) && !("tomorrow" <= s);
    assert !(Word(Last) <= s) && !(Word(Next) <= s) && !(Word(This) <= s);
  }

  /** Input starting with `in` fails every alternative before the last. */
  lemma InNotOthers(u: string)
    ensures Named("in" + u).Fail? && Days("in" + u).Fail? && Kinds("in" + u).Fail?
    ensures AgoForm("in" + u).Fail?
  {
    var s := "in" + u;
    assert s[0] == 'i';
    NoAnchor(s);
  }

  /** `in <duration>` reads back as `In`, when no letter follows the
      duration (a letter could extend a singular unit word). */
  lemma {:induction false} InRoundTrip(gap: string, d: DateDurations.DateDuration, gap0: string, plural: bool, t: string)
    requires IsGap(gap) && IsBlank(gap0) && !StartsWithLetter(t)
    ensures Parse("in" + (gap + (DurationText(d, gap0, plural) + t))) == Ok(In(d), t)
  {
    InNotOthers(gap + (DurationText(d, gap0, plural) + t));
    InFormOf(gap, d, gap0, plural, t);
  }

  /** Input that starts no alternative fails with `Tag` at the input. */
  lemma NoKeyword(s: string)
    requires |s| == 0 || (s[0] !in "ytlni" && !IsDigit(s[0]))
    ensures Parse(s) == Fail(ParseError(s, Tag))
  {
    assert !("in" <= s) && !("yesterday" <= s) && !("tomorrow" <= s);
    assert !(Word(Last) <= s) && !(Word(Next) <= s) && !(Word(This) <= s);
    NoAnchor(s);
    assert AgoForm(s).Fail?;
  }

  /** A duration without `ago` fails: the `in` form, tried last, reports a
      `Tag` error at the input. */
  lemma AgoMissing(s: string)
    requires StartsWithDigit(s)
    requires AgoForm(s).Fail?
    ensures Parse(s) == Fail(ParseError(s, Tag))
  {
    DigitNotKeyword(s);
  }

  /** Test vector: an unknown word fails with `Tag` at the input. */
  lemma UnknownFails()
    ensures Parse("unknown") == Fail(ParseError("unknown", Tag))
  {
    NoKeyword("unknown");
  }
}
