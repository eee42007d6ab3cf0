/** The whole phrase: a date, a time or both, optionally followed by
    `in <timezone>` (src/when_input.rs). */
module Inputs {
  import opened Nom
  import Dates
  import Times
  import Timezones
  import DateDurations
  import RelativeDates
  import TimeDurations
  import TimeKinds
  import RelativeTimes
  import NamedTimezones

  datatype WhenInputTime =
    | OnlyDate(date: Dates.WhenDate)
    | OnlyTime(time: Times.WhenTime)
    | DateAndTime(date: Dates.WhenDate, time: Times.WhenTime)

  datatype Option<T> = None | Some(value: T)

  datatype WhenInput = WhenInput(time: WhenInputTime, timezone: Option<Timezones.WhenTimezone>)

  /** `space1, tag(word), space1`: a keyword between two blank runs, as it
      appears in both alternatives that join parts of the phrase. The value
      is the two blank runs; the rest starts at the first non-blank. */
  function Keyword(word: string, s: string): (r: Parsed<(string, string)>)
    ensures r.Ok? ==> IsGap(r.value.0) && IsGap(r.value.1) && !StartsWithSpace(r.rest)
    ensures r.Ok? ==> s == r.value.0 + (word + (r.value.1 + r.rest))
    ensures !StartsWithSpace(s) ==> r == Fail(ParseError(s, Space))
  {
    var (gap, r2) :- Space1(s);
    var (_, r3) :- Literal(word, r2);
    var (gap2, r4) :- Space1(r3);
    Ok((gap, gap2), r4)
  }

  /** A keyword between blank runs, followed by a non-blank, is read with
      exactly those runs. */
  lemma {:induction false} KeywordOf(gap: string, word: string, gap2: string, u: string)
    requires IsGap(gap) && IsGap(gap2) && !StartsWithSpace(u)
    requires |word| > 0 && !IsSpace(word[0])
    ensures Keyword(word, gap + (word + (gap2 + u))) == Ok((gap, gap2), u)
  {
    assert (word + (gap2 + u))[0] == word[0];
    Space1Of(gap, word + (gap2 + u));
    LiteralOf(word, gap2 + u);
    Space1Of(gap2, u);
  }

  /** The first alternative of `WhenInputTime::parse`: a date, blanks, `at`,
      blanks, a time. */
  function DateAndTimeForm(s: string): (r: Parsed<(Dates.WhenDate, Times.WhenTime)>)
    ensures r.Ok? ==> Dates.Parse(s).Ok? && r.value.0 == Dates.Parse(s).value
    ensures r.Ok? ==>
              Keyword("at", Dates.Parse(s).rest).Ok? &&
              Times.Parse(Keyword("at", Dates.Parse(s).rest).rest) == Ok(r.value.1, r.rest)
    ensures Dates.Parse(s).Fail? ==> r == Fail(Dates.Parse(s).error)
  {
    var (date, r1) :- Dates.Parse(s);
    AtTime(date, r1)
  }

  /** The part of the first alternative after the date: it reads exactly
      when `at` between blank runs is followed by a time. */
  function AtTime(date: Dates.WhenDate, s: string): (r: Parsed<(Dates.WhenDate, Times.WhenTime)>)
    ensures r.Ok? <==> Keyword("at", s).Ok? && Times.Parse(Keyword("at", s).rest).Ok?
    ensures r.Ok? ==> r.value.0 == date && Times.Parse(Keyword("at", s).rest) == Ok(r.value.1, r.rest)
    ensures !StartsWithSpace(s) ==> r == Fail(ParseError(s, Space))
  {
    var (_, r4) :- Keyword("at", s);
    var (time, r5) :- Times.Parse(r4);
    Ok((date, time), r5)
  }

  /** `WhenInputTime::parse`: date and time, else the date alone, else the
      time alone; when all fail the error is that of the time. */
  function ParseTime(s: string): (r: Parsed<WhenInputTime>)
    ensures r.Ok? && r.value.DateAndTime? ==> DateAndTimeForm(s) == Ok((r.value.date, r.value.time), r.rest)
    ensures r.Ok? && r.value.OnlyDate? ==> DateAndTimeForm(s).Fail? && Dates.Parse(s) == Ok(r.value.date, r.rest)
    ensures r.Ok? && r.value.OnlyTime? ==> Dates.Parse(s).Fail? && Times.Parse(s) == Ok(r.value.time, r.rest)
    ensures r.Fail? ==> Dates.Parse(s).Fail? && Times.Parse(s) == Fail(r.error)
  {
    var a := DateAndTimeForm(s);
    if a.Ok? then Ok(DateAndTime(a.value.0, a.value.1), a.rest)
    else
      var d := Dates.Parse(s);
      if d.Ok? then Ok(OnlyDate(d.value), d.rest)
      else
        var t := Times.Parse(s);
        if t.Ok? then Ok(OnlyTime(t.value), t.rest) else Fail(t.error)
  }

  /** The first alternative of `WhenInput::parse`: the time part, then `eof`.
      It reads exactly when the time part ends the input. */
  function Unzoned(s: string): (r: Parsed<WhenInput>)
    ensures r.Ok? <==> ParseTime(s).Ok? && ParseTime(s).rest == ""
    ensures r.Ok? ==> r.rest == "" && r.value.timezone.None? && r.value.time == ParseTime(s).value
  {
    var (time, r1) :- ParseTime(s);
    var (_, r2) :- EndOfInput(r1);
    Ok(WhenInput(time, None), r2)
  }

  /** The second alternative: the time part, blanks, `in`, blanks, a
      timezone. Nothing is required after the timezone. */
  function Zoned(s: string): (r: Parsed<WhenInput>)
    ensures r.Ok? ==> ParseTime(s).Ok? && r.value.time == ParseTime(s).value && r.value.timezone.Some?
    ensures r.Ok? ==>
              Keyword("in", ParseTime(s).rest).Ok? &&
              Timezones.Parse(Keyword("in", ParseTime(s).rest).rest) == Ok(r.value.timezone.value, r.rest)
    ensures ParseTime(s).Fail? ==> r == Fail(ParseTime(s).error)
  {
    var (time, r1) :- ParseTime(s);
    InZone(time, r1)
  }

  /** The part of the second alternative after the time part: it reads
      exactly when `in` between blank runs is followed by a timezone. */
  function InZone(time: WhenInputTime, s: string): (r: Parsed<WhenInput>)
    ensures r.Ok? <==> Keyword("in", s).Ok? && Timezones.Parse(Keyword("in", s).rest).Ok?
    ensures r.Ok? ==>
              r.value.time == time && r.value.timezone.Some? &&
              Timezones.Parse(Keyword("in", s).rest) == Ok(r.value.timezone.value, r.rest)
    ensures !StartsWithSpace(s) ==> r == Fail(ParseError(s, Space))
  {
    var (_, r4) :- Keyword("in", s);
    var (zone, r5) :- Timezones.Parse(r4);
    Ok(WhenInput(time, Some(zone)), r5)
  }

  /** `WhenInput::parse`, as written: the unzoned reading when the time part
      ends the input, else the zoned one. */
  function Parse(s: string): (r: Parsed<WhenInput>)
    ensures (r.Ok? && r.value.timezone.None?) <==> (ParseTime(s).Ok? && ParseTime(s).rest == "")
    ensures r.Ok? && r.value.timezone.None? ==> r.rest == ""
    ensures r.Ok? && r.value.timezone.Some? ==> r == Zoned(s)
    ensures (r.Ok? && r.value.timezone.Some?) <==>
              !(ParseTime(s).Ok? && ParseTime(s).rest == "") && Zoned(s).Ok?
    ensures r.Ok? ==> ParseTime(s).Ok? && r.value.time == ParseTime(s).value
    ensures r.Fail? ==> Zoned(s) == r
  {
    Alt(Unzoned(s), Zoned(s))
  }

  /** A date read alone: what follows it is not blanks and `at`. */
  lemma {:induction false} OnlyDateOf(s: string, d: Dates.WhenDate, gap: string, u: string)
    requires Dates.Parse(s) == Ok(d, gap + u) && IsBlank(gap) && !StartsWithSpace(u) && !("at" <= u)
    ensures ParseTime(s) == Ok(OnlyDate(d), gap + u)
  {
    NoAtAfter(gap, u);
    assert DateAndTimeForm(s).Fail?;
  }

  /** Blanks, then text that neither starts with a blank nor with `at`: no
      `at` keyword reads there. */
  lemma NoAtAfter(gap: string, u: string)
    requires IsBlank(gap) && !StartsWithSpace(u) && !("at" <= u)
    ensures Keyword("at", gap + u).Fail?
  {
    if gap == "" {
      assert gap + u == u;
    } else {
      Space1Of(gap, u);
    }
  }

  /** A date, blanks, `at`, blanks and a time read as both. */
  lemma {:induction false} DateAndTimeOf(s: string, d: Dates.WhenDate, gap: string, gap2: string, u: string,
                                         t: Times.WhenTime, rest: string)
    requires Dates.Parse(s) == Ok(d, gap + ("at" + (gap2 + u)))
    requires IsGap(gap) && IsGap(gap2) && !StartsWithSpace(u)
    requires Times.Parse(u) == Ok(t, rest)
    ensures ParseTime(s) == Ok(DateAndTime(d, t), rest)
  {
    AtTimeOf(d, gap, gap2, u, t, rest);
    assert DateAndTimeForm(s) == Ok((d, t), rest);
  }

  /** After a date, blanks, `at`, blanks and a time read as that time. */
  lemma AtTimeOf(d: Dates.WhenDate, gap: string, gap2: string, u: string, t: Times.WhenTime, rest: string)
    requires IsGap(gap) && IsGap(gap2) && !StartsWithSpace(u)
    requires Times.Parse(u) == Ok(t, rest)
    ensures AtTime(d, gap + ("at" + (gap2 + u))) == Ok((d, t), rest)
  {
    KeywordOf(gap, "at", gap2, u);
  }

  /** A time part, blanks, `in`, blanks and a timezone read as a zoned
      phrase; whatever follows the timezone is left over. */
  lemma {:induction false} ZonedOf(s: string, time: WhenInputTime, gap: string, gap2: string, u: string,
                                   z: Timezones.WhenTimezone, rest: string)
    requires ParseTime(s) == Ok(time, gap + ("in" + (gap2 + u)))
    requires IsGap(gap) && IsGap(gap2) && !StartsWithSpace(u)
    requires Timezones.Parse(u) == Ok(z, rest)
    ensures Parse(s) == Ok(WhenInput(time, Some(z)), rest)
  {
    InZoneOf(time, gap, gap2, u, z, rest);
    assert Zoned(s) == Ok(WhenInput(time, Some(z)), rest);
  }

  /** After a time part, blanks, `in`, blanks and a timezone read as that
      timezone. */
  lemma InZoneOf(time: WhenInputTime, gap: string, gap2: string, u: string, z: Timezones.WhenTimezone, rest: string)
    requires IsGap(gap) && IsGap(gap2) && !StartsWithSpace(u)
    requires Timezones.Parse(u) == Ok(z, rest)
    ensures InZone(time, gap + ("in" + (gap2 + u))) == Ok(WhenInput(time, Some(z)), rest)
  {
    KeywordOf(gap, "in", gap2, u);
  }

  /** `WhenInput::parse` with the whole input required (`all_consuming`),
      as the unzoned alternative and the offset already require it. */
  function ParseWhole(s: string): (r: Parsed<WhenInput>)
    ensures r.Ok? <==> Parse(s).Ok? && Parse(s).rest == ""
    ensures r.Ok? ==> r.rest == "" && Parse(s) == r
    ensures Parse(s).Ok? && Parse(s).rest != "" ==> r == Fail(ParseError(Parse(s).rest, Eof))
  {
    var (x, r1) :- Parse(s);
    var (_, r2) :- EndOfInput(r1);
    Ok(x, r2)
  }

  /** As written, a zone name may be followed by anything: the phrase is
      accepted with the text after the name left over, which the caller
      discards. The corrected reading rejects it with `Eof` there. */
  lemma {:induction false} TrailingAfterName(s: string, time: WhenInputTime, gap: string, gap2: string,
                                             x: NamedTimezones.WhenNamedTimezone, t: string)
    requires ParseTime(s) == Ok(time, gap + ("in" + (gap2 + (NamedTimezones.Text(x) + t))))
    requires IsGap(gap) && IsGap(gap2)
    requires NamedTimezones.IsName(x.region) && NamedTimezones.IsName(x.city)
    requires |t| > 0 && !NamedTimezones.StartsWithNameChar(t)
    ensures Parse(s) == Ok(WhenInput(time, Some(Timezones.Named(x))), t)
    ensures ParseWhole(s) == Fail(ParseError(t, Eof))
  {
    InNamed(s, time, gap, gap2, x, t);
  }

  /** A time part that ends the input reads as a phrase with no
      timezone. */
  lemma UnzonedOf(s: string, time: WhenInputTime)
    requires ParseTime(s) == Ok(time, "")
    ensures Parse(s) == Ok(WhenInput(time, None), "")
  {
  }

  /** `DateDurations.Days(10)` printed with a space and the plural. */
  lemma TenDays()
    ensures RelativeDates.DurationText(DateDurations.Days(10), " ", true) == "10 days"
  {
    assert Decimal(10) == "10";
  }

  /** `in 10 days`, split at its parts. */
  lemma InTenDaysText()
    ensures "in 10 days" == "in" + (" " + ("10 days" + ""))
  {
  }

  /** A date that ends the input reads as a phrase with the date alone. */
  lemma DateAloneOf(s: string, d: Dates.WhenDate)
    requires Dates.Parse(s) == Ok(d, "")
    ensures Parse(s) == Ok(WhenInput(OnlyDate(d), None), "")
  {
    assert "" + "" == "";
    OnlyDateOf(s, d, "", "");
    UnzonedOf(s, OnlyDate(d));
  }

  /** `in <duration>` alone is a date with no timezone. */
  lemma {:induction false} InAlone(x: DateDurations.DateDuration, s: string)
    requires s == "in" + (" " + (RelativeDates.DurationText(x, " ", true) + ""))
    ensures Parse(s) == Ok(WhenInput(OnlyDate(Dates.Relative(RelativeDates.In(x))), None), "")
  {
    RelativeDates.InRoundTrip(" ", x, " ", true, "");
    DateAloneOf(s, Dates.Relative(RelativeDates.In(x)));
  }

  /** Test vector: `in 10 days` is a date alone, with no timezone. */
  lemma DateOnlyVector()
    ensures Parse("in 10 days") ==
      Ok(WhenInput(OnlyDate(Dates.Relative(RelativeDates.In(DateDurations.Days(10)))), None), "")
  {
    TenDays();
    InTenDaysText();
    InAlone(DateDurations.Days(10), "in 10 days");
  }

  /** A time that ends the input, where no date reads, is a phrase with the
      time alone. */
  lemma TimeAloneOf(s: string, t: Times.WhenTime)
    requires Dates.Parse(s).Fail? && Times.Parse(s) == Ok(t, "")
    ensures Parse(s) == Ok(WhenInput(OnlyTime(t), None), "")
  {
    UnzonedOf(s, OnlyTime(t));
  }

  /** `previous <duration>` alone is a time with no timezone: `previous` is
      no date keyword. */
  lemma {:induction false} PreviousAlone(x: TimeDurations.TimeDuration, s: string)
    requires s == RelativeTimes.LeadText(RelativeTimes.Previous, RelativeTimes.Bare) +
      (" " + (Decimal(x.n) + (" " + (TimeDurations.Word(TimeDurations.UnitOf(x), TimeDurations.LongPlural) + ""))))
    ensures Parse(s) == Ok(WhenInput(OnlyTime(Times.Relative(RelativeTimes.PreviousDuration(x))), None), "")
  {
    RelativeTimes.DurationRoundTrip(RelativeTimes.Previous, RelativeTimes.Bare, " ", x, " ", TimeDurations.LongPlural, "");
    assert s[0] == 'p';
    UndatedRelativeAloneOf(s, RelativeTimes.PreviousDuration(x));
  }

  /** A relative time that ends the input, where no date reads, is a phrase
      with that time alone. */
  lemma RelativeAloneOf(s: string, x: RelativeTimes.WhenRelativeTime)
    requires Dates.Parse(s).Fail? && RelativeTimes.Parse(s) == Ok(x, "")
    ensures Parse(s) == Ok(WhenInput(OnlyTime(Times.Relative(x)), None), "")
  {
    TimeAloneOf(s, Times.Relative(x));
  }

  /** A relative time that ends the input and starts with a character no
      date starts with is a phrase with that time alone. */
  lemma UndatedRelativeAloneOf(s: string, x: RelativeTimes.WhenRelativeTime)
    requires |s| > 0 && s[0] !in "ytlni" && !IsDigit(s[0]) && RelativeTimes.Parse(s) == Ok(x, "")
    ensures Parse(s) == Ok(WhenInput(OnlyTime(Times.Relative(x)), None), "")
  {
    Dates.NoDate(s);
    RelativeAloneOf(s, x);
  }

  /** `Hours(10)` printed as a count and a long plural. */
  lemma TenHours()
    ensures Decimal(TimeDurations.Hours(10).n) == "10"
    ensures TimeDurations.Word(TimeDurations.UnitOf(TimeDurations.Hours(10)), TimeDurations.LongPlural) == "hours"
  {
    assert Decimal(10) == "10";
  }

  /** `previous 10 hours`, split at its parts. */
  lemma PreviousTenHoursText()
    ensures "previous 10 hours" ==
      RelativeTimes.LeadText(RelativeTimes.Previous, RelativeTimes.Bare) + (" " + ("10" + (" " + ("hours" + ""))))
  {
  }

  /** Test vector: `previous 10 hours` is a time alone, with no timezone. */
  lemma TimeOnlyVector()
    ensures Parse("previous 10 hours") ==
      Ok(WhenInput(OnlyTime(Times.Relative(RelativeTimes.PreviousDuration(TimeDurations.Hours(10)))), None), "")
  {
    TenHours();
    PreviousTenHoursText();
    PreviousAlone(TimeDurations.Hours(10), "previous 10 hours");
  }

  /** `the next|previous <duration>` read as a time, to the end. */
  lemma {:induction false} TheDurationTime(d: RelativeTimes.Direction, y: TimeDurations.TimeDuration, u: string)
    requires u == RelativeTimes.LeadText(d, RelativeTimes.The(" ")) +
      (" " + (Decimal(y.n) + (" " + (TimeDurations.Word(TimeDurations.UnitOf(y), TimeDurations.LongPlural) + ""))))
    ensures Times.Parse(u) == Ok(Times.Relative(RelativeTimes.DurationValue(d, y)), "")
    ensures !StartsWithSpace(u)
  {
    RelativeTimes.DurationRoundTrip(d, RelativeTimes.The(" "), " ", y, " ", TimeDurations.LongPlural, "");
    assert u[0] == 't';
    TheRelativeTime(u, RelativeTimes.DurationValue(d, y), "");
  }

  /** `<duration> ago at the next|previous <duration>` is a date and a time
      with no timezone. */
  lemma {:induction false} AgoAtDuration(x: DateDurations.DateDuration, d: RelativeTimes.Direction,
                                         y: TimeDurations.TimeDuration, u: string, s: string)
    requires u == RelativeTimes.LeadText(d, RelativeTimes.The(" ")) +
      (" " + (Decimal(y.n) + (" " + (TimeDurations.Word(TimeDurations.UnitOf(y), TimeDurations.LongPlural) + ""))))
    requires s == RelativeDates.DurationText(x, " ", true) + (" " + ("ago" + (" " + ("at" + (" " + u)))))
    ensures Parse(s) == Ok(WhenInput(DateAndTime(Dates.Relative(RelativeDates.Ago(x)),
                                                 Times.Relative(RelativeTimes.DurationValue(d, y))), None), "")
  {
    var date := Dates.Relative(RelativeDates.Ago(x));
    var t := Times.Relative(RelativeTimes.DurationValue(d, y));
    Dates.AgoRoundTrip(x, " ", true, " ", " " + ("at" + (" " + u)));
    TheDurationTime(d, y, u);
    DateAndTimeOf(s, date, " ", " ", u, t, "");
    UnzonedOf(s, DateAndTime(date, t));
  }

  /** `the next 10 hours`, split at its parts. */
  lemma NextTenHoursText()
    ensures "the next 10 hours" ==
      RelativeTimes.LeadText(RelativeTimes.Next, RelativeTimes.The(" ")) + (" " + ("10" + (" " + ("hours" + ""))))
  {
  }

  /** `10 days ago at the next 10 hours`, split at its parts. */
  lemma AgoAtNextText()
    ensures "10 days ago at the next 10 hours" ==
      "10 days" + (" " + ("ago" + (" " + ("at" + (" " + "the next 10 hours")))))
  {
  }

  /** Test vector: `10 days ago at the next 10 hours` is a date and a time. */
  lemma DateAndTimeVector()
    ensures Parse("10 days ago at the next 10 hours") ==
      Ok(WhenInput(DateAndTime(Dates.Relative(RelativeDates.Ago(DateDurations.Days(10))),
                               Times.Relative(RelativeTimes.NextDuration(TimeDurations.Hours(10)))), None), "")
  {
    TenDays();
    TenHours();
    NextTenHoursText();
    AgoAtNextText();
    AgoAtDuration(DateDurations.Days(10), RelativeTimes.Next, TimeDurations.Hours(10),
      "the next 10 hours", "10 days ago at the next 10 hours");
  }

  /** `the next|previous <unit>` read as a time, up to `rest`. */
  lemma {:induction false} TheKindTime(d: RelativeTimes.Direction, k: TimeKinds.TimeKind, rest: string, u: string)
    requires u == RelativeTimes.LeadText(d, RelativeTimes.The(" ")) + (" " + (TimeKinds.Name(k) + rest))
    ensures Times.Parse(u) == Ok(Times.Relative(RelativeTimes.KindValue(d, k)), rest)
    ensures !StartsWithSpace(u)
  {
    RelativeTimes.KindRoundTrip(d, RelativeTimes.The(" "), " ", k, rest);
    assert u[0] == 't';
    TheRelativeTime(u, RelativeTimes.KindValue(d, k), rest);
  }

  /** A relative time introduced by `the` reads as a time, and starts with
      no blank. */
  lemma TheRelativeTime(u: string, x: RelativeTimes.WhenRelativeTime, rest: string)
    requires |u| > 0 && u[0] == 't' && RelativeTimes.Parse(u) == Ok(x, rest)
    ensures Times.Parse(u) == Ok(Times.Relative(x), rest)
    ensures !StartsWithSpace(u)
  {
    Times.RelativeOf(u, x, rest);
  }

  /** `in Region/City` after the time part reads as that zone, up to a
      text that continues no name. */
  lemma {:induction false} InNamed(s: string, time: WhenInputTime, gap: string, gap2: string,
                                   zone: NamedTimezones.WhenNamedTimezone, t: string)
    requires IsGap(gap) && IsGap(gap2)
    requires NamedTimezones.IsName(zone.region) && NamedTimezones.IsName(zone.city)
    requires !NamedTimezones.StartsWithNameChar(t)
    requires ParseTime(s) == Ok(time, gap + ("in" + (gap2 + (NamedTimezones.Text(zone) + t))))
    ensures Parse(s) == Ok(WhenInput(time, Some(Timezones.Named(zone))), t)
  {
    NamedZone(zone, t);
    ZonedOf(s, time, gap, gap2, NamedTimezones.Text(zone) + t, Timezones.Named(zone), t);
  }

  /** A zone name read as a timezone; it starts with no blank. */
  lemma {:induction false} NamedZone(zone: NamedTimezones.WhenNamedTimezone, t: string)
    requires NamedTimezones.IsName(zone.region) && NamedTimezones.IsName(zone.city)
    requires !NamedTimezones.StartsWithNameChar(t)
    ensures Timezones.Parse(NamedTimezones.Text(zone) + t) == Ok(Timezones.Named(zone), t)
    ensures !StartsWithSpace(NamedTimezones.Text(zone) + t)
  {
    var z := NamedTimezones.Text(zone) + t;
    assert z[0] == zone.region[0];
    Timezones.NamedRoundTrip(zone, t);
  }

  /** `<duration> ago at the next|previous <unit> in Region/City` is a date,
      a time and a named timezone. */
  lemma {:induction false} AgoAtKindIn(x: DateDurations.DateDuration, d: RelativeTimes.Direction, k: TimeKinds.TimeKind,
                                       zone: NamedTimezones.WhenNamedTimezone, rest: string, u: string, s: string)
    requires NamedTimezones.IsName(zone.region) && NamedTimezones.IsName(zone.city)
    requires rest == " " + ("in" + (" " + (NamedTimezones.Text(zone) + "")))
    requires u == RelativeTimes.LeadText(d, RelativeTimes.The(" ")) + (" " + (TimeKinds.Name(k) + rest))
    requires s == RelativeDates.DurationText(x, " ", true) + (" " + ("ago" + (" " + ("at" + (" " + u)))))
    ensures Parse(s) == Ok(WhenInput(DateAndTime(Dates.Relative(RelativeDates.Ago(x)),
                                                 Times.Relative(RelativeTimes.KindValue(d, k))),
                                     Some(Timezones.Named(zone))), "")
  {
    var date := Dates.Relative(RelativeDates.Ago(x));
    var t := Times.Relative(RelativeTimes.KindValue(d, k));
    Dates.AgoRoundTrip(x, " ", true, " ", " " + ("at" + (" " + u)));
    TheKindTime(d, k, rest, u);
    DateAndTimeOf(s, date, " ", " ", u, t, rest);
    assert IsGap(" ");
    InNamed(s, DateAndTime(date, t), " ", " ", zone, "");
  }

  /** `<date> ago at ` before any text, split at its parts. */
  lemma AgoAtSplit(u: string)
    ensures "10 days ago at " + u == "10 days" + (" " + ("ago" + (" " + ("at" + (" " + u)))))
  {
  }

  /** The zoned test vector split before its zone. */
  lemma ZonedTextHead()
    ensures "10 days ago at the previous hour in Africa/Addis_Ababa" ==
      "10 days ago at the previous hour" + " in Africa/Addis_Ababa"
  {
  }

  /** The zoned test vector's date and time split before the time. */
  lemma ZonedTextTime()
    ensures "10 days ago at the previous hour" == "10 days ago at " + "the previous hour"
  {
  }

  /** `the previous hour` before any text, split at its parts. */
  lemma PreviousHourSplit(rest: string)
    ensures "the previous hour" + rest ==
      RelativeTimes.LeadText(RelativeTimes.Previous, RelativeTimes.The(" ")) + (" " + (TimeKinds.Name(TimeKinds.Hour) + rest))
  {
    assert "the previous hour" == "the" + (" " + "previous") + (" " + "hour");
  }

  /** The zone clause of the zoned test vector, split at its parts. */
  lemma AddisClause()
    ensures " in Africa/Addis_Ababa" ==
      " " + ("in" + (" " + (NamedTimezones.Text(NamedTimezones.WhenNamedTimezone("Africa", "Addis_Ababa")) + "")))
  {
  }

  /** Test vector: `10 days ago at the previous hour in Africa/Addis_Ababa`
      is a date, a time and a named timezone. */
  lemma ZonedVector()
    ensures Parse("10 days ago at the previous hour in Africa/Addis_Ababa") ==
      Ok(WhenInput(DateAndTime(Dates.Relative(RelativeDates.Ago(DateDurations.Days(10))),
                               Times.Relative(RelativeTimes.PreviousKind(TimeKinds.Hour))),
                   Some(Timezones.Named(NamedTimezones.WhenNamedTimezone("Africa", "Addis_Ababa")))), "")
  {
    var zone := NamedTimezones.WhenNamedTimezone("Africa", "Addis_Ababa");
    var rest := " in Africa/Addis_Ababa";
    var u := "the previous hour" + rest;
    var s := "10 days ago at the previous hour" + rest;
    TenDays();
    ZonedTextHead();
    ZonedTextTime();
    assert s == "10 days ago at " + u;
    AgoAtSplit(u);
    PreviousHourSplit(rest);
    AddisClause();
    assert NamedTimezones.IsName(zone.region) && NamedTimezones.IsName(zone.city);
    AgoAtKindIn(DateDurations.Days(10), RelativeTimes.Previous, TimeKinds.Hour, zone, rest, u, s);
  }

  /** `tomorrow in Region/City` followed by more text: accepted as written
      with the text left over, rejected by the corrected reading. */
  lemma {:induction false} TomorrowInThen(zone: NamedTimezones.WhenNamedTimezone, t: string, s: string)
    requires NamedTimezones.IsName(zone.region) && NamedTimezones.IsName(zone.city)
    requires |t| > 0 && !NamedTimezones.StartsWithNameChar(t)
    requires s == "tomorrow" + (" " + ("in" + (" " + (NamedTimezones.Text(zone) + t))))
    ensures Parse(s) == Ok(WhenInput(OnlyDate(Dates.Relative(RelativeDates.Tomorrow)),
                                     Some(Timezones.Named(zone))), t)
    ensures ParseWhole(s) == Fail(ParseError(t, Eof))
  {
    var u := "in" + (" " + (NamedTimezones.Text(zone) + t));
    var d := Dates.Relative(RelativeDates.Tomorrow);
    RelativeDates.NamedRoundTrip(RelativeDates.Tomorrow, " " + u);
    assert Dates.Parse(s) == Ok(d, " " + u);
    assert u[0] == 'i';
    OnlyDateOf(s, d, " ", u);
    TrailingAfterName(s, OnlyDate(d), " ", " ", zone, t);
  }

  /** The text of the trailing-text example, split at its parts. */
  lemma TrailingText()
    ensures "tomorrow in Europe/London please" ==
      "tomorrow" + (" " + ("in" + (" " + (NamedTimezones.Text(NamedTimezones.WhenNamedTimezone("Europe", "London")) + " please"))))
  {
  }

  /** `tomorrow in Europe/London please` is accepted as written, leaving
      ` please`; the corrected reading rejects it with `Eof` there. */
  lemma TrailingVector()
    ensures Parse("tomorrow in Europe/London please") ==
      Ok(WhenInput(OnlyDate(Dates.Relative(RelativeDates.Tomorrow)),
                   Some(Timezones.Named(NamedTimezones.WhenNamedTimezone("Europe", "London")))), " please")
    ensures ParseWhole("tomorrow in Europe/London please") == Fail(ParseError(" please", Eof))
  {
    var zone := NamedTimezones.WhenNamedTimezone("Europe", "London");
    TrailingText();
    assert NamedTimezones.IsName(zone.region) && NamedTimezones.IsName(zone.city);
    assert " please"[0] == ' ';
    TomorrowInThen(zone, " please", "tomorrow in Europe/London please");
  }
}
