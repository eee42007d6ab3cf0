/** A time relative to now: a named time of day, `next`/`previous`/`this`
    with a clock unit, or `next`/`previous` with a duration; `next` and
    `previous` may be preceded by `the` (src/when_relative_time.rs). */
module RelativeTimes {
  import opened Nom
  import TimeKinds
  import TimeDurations

  datatype WhenRelativeTime =
    | Noon | Morning | Evening | Midnight
    | NextKind(kind: TimeKinds.TimeKind)
    | PreviousKind(kind: TimeKinds.TimeKind)
    | ThisKind(kind: TimeKinds.TimeKind)
    | NextDuration(duration: TimeDurations.TimeDuration)
    | PreviousDuration(duration: TimeDurations.TimeDuration)

  /** The four times of day named by a single keyword. */
  predicate IsNamed(x: WhenRelativeTime) {
    x.Noon? || x.Morning? || x.Evening? || x.Midnight?
  }

  function Keyword(x: WhenRelativeTime): string
    requires IsNamed(x)
  {
    match x
    case Noon => "noon"
    case Morning => "morning"
    case Evening => "evening"
    case Midnight => "midnight"
  }

  /** The two direction words. */
  datatype Direction = Next | Previous

  function Word(d: Direction): string {
    match d
    case Next => "next"
    case Previous => "previous"
  }

  function Other(d: Direction): Direction {
    match d
    case Next => Previous
    case Previous => Next
  }

  /** The first four alternatives: the named times of day, in source order. */
  function Named(s: string): (r: Parsed<WhenRelativeTime>)
    ensures r.Ok? ==> IsNamed(r.value) && Keyword(r.value) <= s && r.rest == s[|Keyword(r.value)|..]
    ensures r.Fail? ==> r.error == ParseError(s, Tag)
  {
    Alt(LiteralAs("noon", Noon, s),
    Alt(LiteralAs("morning", Morning, s),
    Alt(LiteralAs("evening", Evening, s),
        LiteralAs("midnight", Midnight, s))))
  }

  /** `the`, blanks, the direction word. */
  function TheThen(d: Direction, s: string): (r: Parsed<Direction>)
    ensures r.Ok? ==> r.value == d
    ensures !("the" <= s) ==> r == Fail(ParseError(s, Tag))
  {
    var (_, r1) :- Literal("the", s);
    var (_, r2) :- Space1(r1);
    LiteralAs(Word(d), d, r2)
  }

  /** The direction word, bare or after `the` and blanks. */
  function Introduced(d: Direction, s: string): (r: Parsed<Direction>)
    ensures r.Ok? ==> r.value == d
    ensures !(Word(d) <= s) && !("the" <= s) ==> r == Fail(ParseError(s, Tag))
  {
    Alt(LiteralAs(Word(d), d, s), TheThen(d, s))
  }

  /** A direction, blanks, a clock unit. */
  function KindForm(d: Direction, s: string): (r: Parsed<TimeKinds.TimeKind>)
    ensures r.Fail? && !(Word(d) <= s) && !("the" <= s) ==> r.error == ParseError(s, Tag)
  {
    var (_, r1) :- Introduced(d, s);
    var (_, r2) :- Space1(r1);
    TimeKinds.Parse(r2)
  }

  /** `this`, blanks, a clock unit. */
  function ThisForm(s: string): (r: Parsed<TimeKinds.TimeKind>)
    ensures !("this" <= s) ==> r == Fail(ParseError(s, Tag))
  {
    var (_, r1) :- Literal("this", s);
    var (_, r2) :- Space1(r1);
    TimeKinds.Parse(r2)
  }

  /** A direction, blanks, a duration. */
  function DurationForm(d: Direction, s: string): (r: Parsed<TimeDurations.TimeDuration>)
    ensures !(Word(d) <= s) && !("the" <= s) ==> r == Fail(ParseError(s, Tag))
  {
    var (_, r1) :- Introduced(d, s);
    var (_, r2) :- Space1(r1);
    TimeDurations.Parse(r2)
  }

  function KindValue(d: Direction, k: TimeKinds.TimeKind): WhenRelativeTime {
    match d
    case Next => NextKind(k)
    case Previous => PreviousKind(k)
  }

  function DurationValue(d: Direction, x: TimeDurations.TimeDuration): WhenRelativeTime {
    match d
    case Next => NextDuration(x)
    case Previous => PreviousDuration(x)
  }

  /** Alternatives five to seven: `next`, `previous`, `this` with a unit.
      The first that reads gives the result; when none does the error is
      that of `this`. */
  function Kinds(s: string): (r: Parsed<WhenRelativeTime>)
    ensures r.Ok? <==> KindForm(Next, s).Ok? || KindForm(Previous, s).Ok? || ThisForm(s).Ok?
    ensures r.Ok? ==> r.value.NextKind? || r.value.PreviousKind? || r.value.ThisKind?
    ensures r.Ok? && r.value.NextKind? ==> KindForm(Next, s) == Ok(r.value.kind, r.rest)
    ensures r.Ok? && r.value.PreviousKind? ==>
              KindForm(Next, s).Fail? && KindForm(Previous, s) == Ok(r.value.kind, r.rest)
    ensures r.Ok? && r.value.ThisKind? ==>
              KindForm(Next, s).Fail? && KindForm(Previous, s).Fail? && ThisForm(s) == Ok(r.value.kind, r.rest)
    ensures r.Fail? ==> ThisForm(s) == Fail(r.error)
  {
    FirstKind(KindForm(Next, s), KindForm(Previous, s), ThisForm(s))
  }

  /** The choice between the three unit alternatives, given their readings. */
  function FirstKind(next: Parsed<TimeKinds.TimeKind>, previous: Parsed<TimeKinds.TimeKind>,
                     current: Parsed<TimeKinds.TimeKind>): (r: Parsed<WhenRelativeTime>)
    ensures r.Ok? <==> next.Ok? || previous.Ok? || current.Ok?
    ensures r.Ok? ==> r.value.NextKind? || r.value.PreviousKind? || r.value.ThisKind?
    ensures r.Ok? && r.value.NextKind? ==> next == Ok(r.value.kind, r.rest)
    ensures r.Ok? && r.value.PreviousKind? ==> next.Fail? && previous == Ok(r.value.kind, r.rest)
    ensures r.Ok? && r.value.ThisKind? ==> next.Fail? && previous.Fail? && current == Ok(r.value.kind, r.rest)
    ensures r.Fail? ==> current == Fail(r.error)
  {
    Alt(Map(next, k => NextKind(k)),
    Alt(Map(previous, k => PreviousKind(k)),
        Map(current, k => ThisKind(k))))
  }

  /** The last two alternatives: `next` and `previous` with a duration.
      The first that reads gives the result; when neither does the error is
      that of `previous`. */
  function Durations(s: string): (r: Parsed<WhenRelativeTime>)
    ensures r.Ok? <==> DurationForm(Next, s).Ok? || DurationForm(Previous, s).Ok?
    ensures r.Ok? ==> r.value.NextDuration? || r.value.PreviousDuration?
    ensures r.Ok? && r.value.NextDuration? ==> DurationForm(Next, s) == Ok(r.value.duration, r.rest)
    ensures r.Ok? && r.value.PreviousDuration? ==>
              DurationForm(Next, s).Fail? && DurationForm(Previous, s) == Ok(r.value.duration, r.rest)
    ensures r.Fail? ==> DurationForm(Previous, s) == Fail(r.error)
  {
    EitherDuration(DurationForm(Next, s), DurationForm(Previous, s))
  }

  /** The choice between the two duration alternatives, given their
      readings. */
  function EitherDuration(next: Parsed<TimeDurations.TimeDuration>, previous: Parsed<TimeDurations.TimeDuration>):
    (r: Parsed<WhenRelativeTime>)
    ensures r.Ok? <==> next.Ok? || previous.Ok?
    ensures r.Ok? ==> r.value.NextDuration? || r.value.PreviousDuration?
    ensures r.Ok? && r.value.NextDuration? ==> next == Ok(r.value.duration, r.rest)
    ensures r.Ok? && r.value.PreviousDuration? ==> next.Fail? && previous == Ok(r.value.duration, r.rest)
    ensures r.Fail? ==> previous == Fail(r.error)
  {
    Alt(Map(next, x => NextDuration(x)), Map(previous, x => PreviousDuration(x)))
  }

  /** `parse_when_relative_time`: the nine alternatives in source order (as
      `Alt` is associative, grouping them changes nothing); when all fail the
      error is that of the last, `previous` with a duration. */
  function Parse(s: string): (r: Parsed<WhenRelativeTime>)
    ensures r.Ok? <==> Named(s).Ok? || Kinds(s).Ok? || Durations(s).Ok?
    ensures r.Ok? && IsNamed(r.value) ==> Named(s) == r
    ensures r.Ok? && (r.value.NextKind? || r.value.PreviousKind? || r.value.ThisKind?) ==>
              Named(s).Fail? && Kinds(s) == r
    ensures r.Ok? && (r.value.NextDuration? || r.value.PreviousDuration?) ==>
              Named(s).Fail? && Kinds(s).Fail? && Durations(s) == r
    ensures r.Fail? ==> DurationForm(Previous, s) == Fail(r.error)
  {
    Alt(Named(s), Alt(Kinds(s), Durations(s)))
  }

  /** How a direction word is introduced: bare, or after `the` and blanks. */
  datatype Lead = Bare | The(gap: string)

  predicate LeadOk(lead: Lead) {
    lead.The? ==> IsGap(lead.gap)
  }

  function LeadText(d: Direction, lead: Lead): string {
    match lead
    case Bare => Word(d)
    case The(gap) => "the" + (gap + Word(d))
  }

  /** A direction word, introduced either way, is read and consumed. */
  lemma IntroducedOf(d: Direction, lead: Lead, t: string)
    requires LeadOk(lead)
    ensures Introduced(d, LeadText(d, lead) + t) == Ok(d, t)
  {
    var w := Word(d);
    match lead
    case Bare =>
      LiteralAsOf(w, d, t);
    case The(gap) =>
      var s := "the" + (gap + (w + t));
      assert LeadText(d, lead) + t == s;
      assert s[0] == 't' && w[0] != 't';
      assert (w + t)[0] == w[0];
      LiteralOf("the", gap + (w + t));
      Space1Of(gap, w + t);
      LiteralAsOf(w, d, t);
  }

  /** After `the` and blanks, the other direction word does not match. */
  lemma OtherFailsAfterThe(d: Direction, gap: string, u: string)
    requires IsGap(gap)
    ensures TheThen(Other(d), "the" + (gap + (Word(d) + u))).Fail?
  {
    var w, w' := Word(d), Word(Other(d));
    assert (w + u)[0] == w[0] && w[0] != w'[0];
    LiteralOf("the", gap + (w + u));
    Space1Of(gap, w + u);
  }

  /** The other direction word does not match. */
  lemma OtherFails(d: Direction, lead: Lead, u: string)
    requires LeadOk(lead)
    ensures Introduced(Other(d), LeadText(d, lead) + u).Fail?
  {
    var w, w' := Word(d), Word(Other(d));
    match lead
    case Bare =>
      var s := w + u;
      assert s[0] == w[0] && w[0] != w'[0] && w[0] != 't';
    case The(gap) =>
      var s := "the" + (gap + (w + u));
      assert LeadText(d, lead) + u == s;
      assert s[0] == 't' && w'[0] != 't';
      OtherFailsAfterThe(d, gap, u);
  }

  /** A direction, introduced either way, is not a named time and not `this`. */
  lemma NotNamedNorThis(d: Direction, lead: Lead, u: string)
    requires LeadOk(lead)
    ensures Named(LeadText(d, lead) + u).Fail?
    ensures !("this" <= LeadText(d, lead) + u)
  {
    var s := LeadText(d, lead) + u;
    match lead
    case Bare =>
      assert s[0] == Word(d)[0] && s[1] == Word(d)[1];
    case The(gap) =>
      assert s[0] == 't' && s[1] == 'h' && s[2] == 'e';
  }

  /** A direction, blanks and a clock unit read as that unit. */
  lemma KindFormOf(d: Direction, lead: Lead, gap: string, k: TimeKinds.TimeKind, t: string)
    requires LeadOk(lead) && IsGap(gap)
    ensures KindForm(d, LeadText(d, lead) + (gap + (TimeKinds.Name(k) + t))) == Ok(k, t)
  {
    var w := TimeKinds.Name(k);
    IntroducedOf(d, lead, gap + (w + t));
    assert (w + t)[0] == w[0];
    Space1Of(gap, w + t);
    TimeKinds.RoundTrip(k, t);
  }

  /** The unit alternatives on a direction, blanks and a clock unit. */
  lemma {:induction false} KindsOf(d: Direction, lead: Lead, gap: string, k: TimeKinds.TimeKind, t: string)
    requires LeadOk(lead) && IsGap(gap)
    ensures Kinds(LeadText(d, lead) + (gap + (TimeKinds.Name(k) + t))) == Ok(KindValue(d, k), t)
  {
    var u := gap + (TimeKinds.Name(k) + t);
    KindFormOf(d, lead, gap, k, t);
    if d == Previous {
      OtherFails(d, lead, u);
    }
  }

  /** A named time of day is matched by its own alternative only. */
  lemma NamedOf(x: WhenRelativeTime, t: string)
    requires IsNamed(x)
    ensures Named(Keyword(x) + t) == Ok(x, t)
  {
    var w := Keyword(x);
    var s := w + t;
    assert s[0] == w[0] && s[1] == w[1];
    LiteralAsOf(w, x, t);
  }

  /** Every named time of day reads back, whatever follows it. */
  lemma NamedRoundTrip(x: WhenRelativeTime, t: string)
    requires IsNamed(x)
    ensures Parse(Keyword(x) + t) == Ok(x, t)
  {
    NamedOf(x, t);
  }

  /** `next`/`previous` (optionally after `the`), blanks and a clock unit
      read back as that direction and unit, whatever follows. */
  lemma {:induction false} KindRoundTrip(d: Direction, lead: Lead, gap: string, k: TimeKinds.TimeKind, t: string)
    requires LeadOk(lead) && IsGap(gap)
    ensures Parse(LeadText(d, lead) + (gap + (TimeKinds.Name(k) + t))) == Ok(KindValue(d, k), t)
  {
    NotNamedNorThis(d, lead, gap + (TimeKinds.Name(k) + t));
    KindsOf(d, lead, gap, k, t);
  }

  /** `this`, blanks and a clock unit read as that unit. */
  lemma ThisFormOf(gap: string, k: TimeKinds.TimeKind, t: string)
    requires IsGap(gap)
    ensures ThisForm("this" + (gap + (TimeKinds.Name(k) + t))) == Ok(k, t)
  {
    var w := TimeKinds.Name(k);
    assert (w + t)[0] == w[0];
    LiteralOf("this", gap + (w + t));
    Space1Of(gap, w + t);
    TimeKinds.RoundTrip(k, t);
  }

  /** Input starting with `this` is neither a named time nor a direction. */
  lemma ThisNotOthers(u: string)
    ensures Named("this" + u).Fail?
    ensures KindForm(Next, "this" + u).Fail? && KindForm(Previous, "this" + u).Fail?
  {
    var s := "this" + u;
    assert s[0] == 't' && s[1] == 'h' && s[2] == 'i';
  }

  /** `this`, blanks and a clock unit read back as that unit. */
  lemma {:induction false} ThisRoundTrip(gap: string, k: TimeKinds.TimeKind, t: string)
    requires IsGap(gap)
    ensures Parse("this" + (gap + (TimeKinds.Name(k) + t))) == Ok(ThisKind(k), t)
  {
    ThisNotOthers(gap + (TimeKinds.Name(k) + t));
    ThisFormOf(gap, k, t);
  }

  /** `this` and blanks followed by a count is not the `this` form. */
  lemma ThisFormOnCount(gap: string, u: string)
    requires IsGap(gap) && StartsWithDigit(u)
    ensures ThisForm("this" + (gap + u)).Fail?
  {
    LiteralOf("this", gap + u);
    Space1Of(gap, u);
  }

  /** Input starting with `this` fails both duration alternatives, with a
      `Tag` error at the input. */
  lemma DurationsOnThis(u: string)
    ensures Durations("this" + u) == Fail(ParseError("this" + u, Tag))
  {
    var s := "this" + u;
    assert s[0] == 't' && s[1] == 'h' && s[2] == 'i';
  }

  /** There is no `this <duration>` form: after `this` and blanks a count
      fails every alternative, and the error is the last alternative's, a
      `Tag` error at the input. */
  lemma ThisNoDuration(gap: string, u: string)
    requires IsGap(gap) && StartsWithDigit(u)
    ensures Parse("this" + (gap + u)) == Fail(ParseError("this" + (gap + u), Tag))
  {
    ThisNotOthers(gap + u);
    ThisFormOnCount(gap, u);
    DurationsOnThis(gap + u);
  }

  /** A direction and blanks followed by a count is not the unit form: the
      clock unit is missing. */
  lemma KindFormOnCount(d: Direction, lead: Lead, gap: string, u: string)
    requires LeadOk(lead) && IsGap(gap) && StartsWithDigit(u)
    ensures KindForm(d, LeadText(d, lead) + (gap + u)).Fail?
  {
    IntroducedOf(d, lead, gap + u);
    Space1Of(gap, u);
  }

  /** A direction and blanks, then text that reads as a duration. */
  lemma DurationFormAt(d: Direction, lead: Lead, gap: string, u: string, x: TimeDurations.TimeDuration, t: string)
    requires LeadOk(lead) && IsGap(gap) && !StartsWithSpace(u)
    requires TimeDurations.Parse(u) == Ok(x, t)
    ensures DurationForm(d, LeadText(d, lead) + (gap + u)) == Ok(x, t)
  {
    IntroducedOf(d, lead, gap + u);
    Space1Of(gap, u);
  }

  /** `next`/`previous` (optionally after `the`), blanks and a duration read
      back as that direction and duration: the unit alternatives, tried
      first, fail on the count. */
  lemma {:induction false} DurationRoundTrip(d: Direction, lead: Lead, gap: string, x: TimeDurations.TimeDuration,
                                             gap2: string, form: TimeDurations.Form, t: string)
    requires LeadOk(lead) && IsGap(gap) && IsBlank(gap2)
    requires form == TimeDurations.LongPlural || !StartsWithLetter(t)
    ensures Parse(LeadText(d, lead) +
      (gap + (Decimal(x.n) + (gap2 + (TimeDurations.Word(TimeDurations.UnitOf(x), form) + t))))) ==
      Ok(DurationValue(d, x), t)
  {
    var u := Decimal(x.n) + (gap2 + (TimeDurations.Word(TimeDurations.UnitOf(x), form) + t));
    assert u[0] == Decimal(x.n)[0];
    TimeDurations.RoundTrip(x, gap2, form, t);
    DurationAfterLead(d, lead, gap, u, x, t);
  }

  /** A direction and blanks, then text starting with a digit that reads as
      a duration: the whole phrase reads as that direction and duration. */
  lemma DurationAfterLead(d: Direction, lead: Lead, gap: string, u: string, x: TimeDurations.TimeDuration, t: string)
    requires LeadOk(lead) && IsGap(gap) && StartsWithDigit(u)
    requires TimeDurations.Parse(u) == Ok(x, t)
    ensures Parse(LeadText(d, lead) + (gap + u)) == Ok(DurationValue(d, x), t)
  {
    var s := LeadText(d, lead) + (gap + u);
    OtherWordsFail(d, lead, gap + u);
    CountAfterLead(d, lead, gap, u, x, t);
    ParseAsDuration(d, s, x, t);
  }

  /** After a direction, neither a named time, nor `this`, nor the other
      direction reads. */
  lemma OtherWordsFail(d: Direction, lead: Lead, u: string)
    requires LeadOk(lead)
    ensures Named(LeadText(d, lead) + u).Fail? && !("this" <= LeadText(d, lead) + u)
    ensures Introduced(Other(d), LeadText(d, lead) + u).Fail?
  {
    NotNamedNorThis(d, lead, u);
    OtherFails(d, lead, u);
  }

  /** On a direction, blanks and a duration starting with a digit, the unit
      form fails and the duration form reads the duration. */
  lemma CountAfterLead(d: Direction, lead: Lead, gap: string, u: string, x: TimeDurations.TimeDuration, t: string)
    requires LeadOk(lead) && IsGap(gap) && StartsWithDigit(u)
    requires TimeDurations.Parse(u) == Ok(x, t)
    ensures KindForm(d, LeadText(d, lead) + (gap + u)).Fail?
    ensures DurationForm(d, LeadText(d, lead) + (gap + u)) == Ok(x, t)
  {
    KindFormOnCount(d, lead, gap, u);
    DurationFormAt(d, lead, gap, u, x, t);
  }

  /** Where only the duration alternative in direction `d` reads, the whole
      reading is that duration. */
  lemma ParseAsDuration(d: Direction, s: string, x: TimeDurations.TimeDuration, t: string)
    requires Named(s).Fail? && !("this" <= s)
    requires KindForm(d, s).Fail? && Introduced(Other(d), s).Fail?
    requires DurationForm(d, s) == Ok(x, t)
    ensures Parse(s) == Ok(DurationValue(d, x), t)
  {
    assert KindForm(Other(d), s).Fail? && DurationForm(Other(d), s).Fail?;
    assert Kinds(s).Fail?;
  }

  /** Input that cannot start any keyword fails with `Tag` at the input. */
  lemma NoKeyword(s: string)
    requires |s| == 0 || s[0] !in {'n', 'm', 'e', 'p', 't'}
    ensures Parse(s) == Fail(ParseError(s, Tag))
  {
    assert !(Word(Next) <= s) && !(Word(Previous) <= s) && !("the" <= s) && !("this" <= s);
  }

  /** Test vector: an unknown word fails with `Tag` at the input. */
  lemma UnknownFails()
    ensures Parse("unknown") == Fail(ParseError("unknown", Tag))
  {
    NoKeyword("unknown");
  }
}
