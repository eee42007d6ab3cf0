/** A 24-hour clock reading followed by `GMT`: `h GMT`, `h:m GMT` or
    `h:m:s GMT` (src/gmt_time.rs). */
module GmtTimes {
  import opened Nom
  import opened ParseHms

  datatype GmtTime = GmtTime(hour: u8, minute: u8, second: u8)

  /** The readings the parser can produce: hour below 24, minute and second
      below 60. */
  predicate Valid(x: GmtTime) {
    x.hour < 24 && x.minute < 60 && x.second < 60
  }

  /** `gmt`: the upper-case marker. */
  const Gmt: string := "GMT"

  /** The tail every form ends with: at least one blank, then `GMT`. */
  function Marked(hour: u8, minute: u8, second: u8, s: string): (r: Parsed<GmtTime>)
    ensures r.Ok? ==> r.value == GmtTime(hour, minute, second)
    ensures !StartsWithSpace(s) ==> r == Fail(ParseError(s, Space))
  {
    var (_, r1) :- Space1(s);
    var (_, r2) :- Literal(Gmt, r1);
    Ok(GmtTime(hour, minute, second), r2)
  }

  /** `parse_hour_only`: `h GMT`, minute and second 0. */
  function HourOnly(s: string): (r: Parsed<GmtTime>)
    ensures r.Ok? ==> Valid(r.value) && r.value.minute == 0 && r.value.second == 0
  {
    var (hour, r1) :- Parse24(s);
    Marked(hour, 0, 0, r1)
  }

  /** `parse_hour_minute`: `h:m GMT`, second 0. */
  function HourMinute(s: string): (r: Parsed<GmtTime>)
    ensures r.Ok? ==> Valid(r.value) && r.value.second == 0
  {
    var (hour, r1) :- Parse24(s);
    var (_, r2) :- Literal(":", r1);
    var (minute, r3) :- Parse60(r2);
    Marked(hour, minute, 0, r3)
  }

  /** `parse_all`: `h:m:s GMT`. */
  function All(s: string): (r: Parsed<GmtTime>)
    ensures r.Ok? ==> Valid(r.value)
  {
    var (hour, r1) :- Parse24(s);
    var (_, r2) :- Literal(":", r1);
    var (minute, r3) :- Parse60(r2);
    var (_, r4) :- Literal(":", r3);
    var (second, r5) :- Parse60(r4);
    Marked(hour, minute, second, r5)
  }

  /** `parse_gmt_time`: the three forms in order; when all fail, the
      error is that of the full form. */
  function Parse(s: string): (r: Parsed<GmtTime>)
    ensures r.Ok? ==> Valid(r.value)
    ensures r.Fail? ==> r == All(s)
  {
    Alt(HourOnly(s), Alt(HourMinute(s), All(s)))
  }

  /** The blanks and the marker are read whole. */
  lemma MarkedOf(hour: u8, minute: u8, second: u8, gap: string, t: string)
    requires IsGap(gap)
    ensures Marked(hour, minute, second, gap + (Gmt + t)) == Ok(GmtTime(hour, minute, second), t)
  {
    assert (Gmt + t)[0] == 'G';
    Space1Of(gap, Gmt + t);
    LiteralOf(Gmt, t);
  }

  /** The printed form of a reading: the clock text in a shape the reading
      fits, blanks, the marker. */
  function Text(x: GmtTime, shape: Shape, gap: string): string {
    ClockText(x.hour, x.minute, x.second, shape) + (gap + Gmt)
  }

  /** A digit spelling of an hour this parser accepts. */
  predicate HourDigits(hs: string) {
    |hs| > 0 && AllDigits(hs) && Value(hs) < 24
  }

  /** An hour followed by `:` is not the hour-only form: the blank is
      missing. */
  lemma HourOnlyOnColon(hs: string, rest: string)
    requires HourDigits(hs) && StartsWithColon(rest)
    ensures HourOnly(hs + rest) == Fail(ParseError(rest, Space))
  {
    BoundedU8Of(hs, rest, 0, 23);
  }

  /** `h:m` followed by `:` is not the hour-minute form. */
  lemma HourMinuteOnColon(hs: string, ms: string, rest: string)
    requires HourDigits(hs) && FieldDigits(ms) && StartsWithColon(rest)
    ensures HourMinute(hs + (":" + (ms + rest))) == Fail(ParseError(rest, Space))
  {
    var tail := ":" + (ms + rest);
    BoundedU8Of(hs, tail, 0, 23);
    assert Parse24(hs + tail) == Ok(Value(hs), tail);
    ColonFieldOf(ms, rest);
    assert !StartsWithSpace(rest);
  }

  /** `h`, blanks and a marker read as the hour-only form. */
  lemma HourReadingOf(hs: string, gap: string, t: string)
    requires HourDigits(hs) && IsGap(gap)
    ensures Parse(hs + (gap + (Gmt + t))) == Ok(GmtTime(Value(hs), 0, 0), t)
  {
    var tail := gap + (Gmt + t);
    assert tail[0] == gap[0];
    BoundedU8Of(hs, tail, 0, 23);
    MarkedOf(Value(hs), 0, 0, gap, t);
  }

  /** `h:m`, blanks and a marker read as the hour-minute form. */
  lemma HourMinuteReadingOf(hs: string, ms: string, gap: string, t: string)
    requires HourDigits(hs) && FieldDigits(ms) && IsGap(gap)
    ensures Parse(hs + (":" + (ms + (gap + (Gmt + t))))) ==
      Ok(GmtTime(Value(hs), Value(ms), 0), t)
  {
    var tail := gap + (Gmt + t);
    assert tail[0] == gap[0];
    var r1 := ":" + (ms + tail);
    HourOnlyOnColon(hs, r1);
    BoundedU8Of(hs, r1, 0, 23);
    ColonFieldOf(ms, tail);
    MarkedOf(Value(hs), Value(ms), 0, gap, t);
    assert HourMinute(hs + r1) == Ok(GmtTime(Value(hs), Value(ms), 0), t);
  }

  /** The full form reads `h:m:s`, blanks and a marker. */
  lemma AllFormOf(hs: string, ms: string, ss: string, gap: string, t: string)
    requires HourDigits(hs) && FieldDigits(ms) && FieldDigits(ss) && IsGap(gap)
    ensures All(hs + (":" + (ms + (":" + (ss + (gap + (Gmt + t))))))) ==
      Ok(GmtTime(Value(hs), Value(ms), Value(ss)), t)
  {
    var tail := gap + (Gmt + t);
    assert tail[0] == gap[0];
    var r3 := ":" + (ss + tail);
    BoundedU8Of(hs, ":" + (ms + r3), 0, 23);
    ColonFieldOf(ms, r3);
    ColonFieldOf(ss, tail);
    MarkedOf(Value(hs), Value(ms), Value(ss), gap, t);
  }

  /** `h:m:s`, blanks and a marker read as the full form. */
  lemma FullReadingOf(hs: string, ms: string, ss: string, gap: string, t: string)
    requires HourDigits(hs) && FieldDigits(ms) && FieldDigits(ss) && IsGap(gap)
    ensures Parse(hs + (":" + (ms + (":" + (ss + (gap + (Gmt + t))))))) ==
      Ok(GmtTime(Value(hs), Value(ms), Value(ss)), t)
  {
    var tail := gap + (Gmt + t);
    var r3 := ":" + (ss + tail);
    HourOnlyOnColon(hs, ":" + (ms + r3));
    HourMinuteOnColon(hs, ms, r3);
    AllFormOf(hs, ms, ss, gap, t);
  }

  /** Every valid reading prints in every shape that fits it and reads back,
      whatever blanks separate it from the marker and whatever follows. */
  lemma {:induction false} RoundTrip(x: GmtTime, shape: Shape, gap: string, t: string)
    requires Valid(x) && ShapeFits(shape, x.minute, x.second) && IsGap(gap)
    ensures Parse(Text(x, shape, gap) + t) == Ok(x, t)
  {
    var tail := gap + (Gmt + t);
    assert Text(x, shape, gap) + t == ClockText(x.hour, x.minute, x.second, shape) + tail;
    ClockTextThen(x.hour, x.minute, x.second, shape, tail);
    var hs, ms, ss := Decimal(x.hour), Decimal(x.minute), Decimal(x.second);
    match shape
    case HourOnly => HourReadingOf(hs, gap, t);
    case HourMinute => HourMinuteReadingOf(hs, ms, gap, t);
    case HourMinuteSecond => FullReadingOf(hs, ms, ss, gap, t);
  }

  /** Blanks followed by something other than a marker fail the tail. */
  lemma MarkedFails(hour: u8, minute: u8, second: u8, gap: string, u: string)
    requires IsGap(gap) && !StartsWithSpace(u) && !(Gmt <= u)
    ensures Marked(hour, minute, second, gap + u).Fail?
  {
    Space1Of(gap, u);
  }

  /** An hour (any digit spelling), blanks and something other than a
      marker: no form applies. */
  lemma HourNoMarker(hs: string, gap: string, u: string)
    requires |hs| > 0 && AllDigits(hs) && IsGap(gap)
    requires !StartsWithSpace(u) && !(Gmt <= u)
    ensures Parse(hs + (gap + u)).Fail?
  {
    var tail := gap + u;
    assert tail[0] == gap[0];
    if Value(hs) < 24 {
      MarkedFails(Value(hs), 0, 0, gap, u);
    }
    BoundedU8Of(hs, tail, 0, 23);
  }

  /** `h:m`, blanks and something other than a marker: no form applies. */
  lemma HourMinuteNoMarker(hs: string, ms: string, gap: string, u: string)
    requires |hs| > 0 && AllDigits(hs) && FieldDigits(ms) && IsGap(gap)
    requires !StartsWithSpace(u) && !(Gmt <= u)
    ensures Parse(hs + (":" + (ms + (gap + u)))).Fail?
  {
    var tail := gap + u;
    var r1 := ":" + (ms + tail);
    BoundedU8Of(hs, r1, 0, 23);
    if Value(hs) < 24 {
      var hour: u8 := Value(hs);
      assert tail[0] == gap[0];
      MarkedFails(hour, Value(ms), 0, gap, u);
      HourOnlyOnColon(hs, r1);
      ColonFieldOf(ms, tail);
      assert HourMinute(hs + r1) == Marked(hour, Value(ms), 0, tail);
      assert !(":" <= tail);
    }
  }

  /** `h:m:s`, blanks and something other than a marker: no form applies. */
  lemma FullNoMarker(hs: string, ms: string, ss: string, gap: string, u: string)
    requires |hs| > 0 && AllDigits(hs) && FieldDigits(ms) && FieldDigits(ss) && IsGap(gap)
    requires !StartsWithSpace(u) && !(Gmt <= u)
    ensures Parse(hs + (":" + (ms + (":" + (ss + (gap + u)))))).Fail?
  {
    var tail := gap + u;
    var r3 := ":" + (ss + tail);
    var r1 := ":" + (ms + r3);
    BoundedU8Of(hs, r1, 0, 23);
    if Value(hs) < 24 {
      var hour: u8 := Value(hs);
      assert tail[0] == gap[0];
      MarkedFails(hour, Value(ms), Value(ss), gap, u);
      HourOnlyOnColon(hs, r1);
      HourMinuteOnColon(hs, ms, r3);
      ColonFieldOf(ms, r3);
      ColonFieldOf(ss, tail);
      assert All(hs + r1) == Marked(hour, Value(ms), Value(ss), tail);
    }
  }

  /** After the clock fields and blanks, input that is not a marker fails
      every form. */
  lemma {:induction false} NoMarkerFails(hour: u8, minute: u8, second: u8, shape: Shape, gap: string, u: string)
    requires minute < 60 && second < 60 && IsGap(gap)
    requires !StartsWithSpace(u) && !(Gmt <= u)
    ensures Parse(ClockText(hour, minute, second, shape) + (gap + u)).Fail?
  {
    ClockTextThen(hour, minute, second, shape, gap + u);
    var hs, ms, ss := Decimal(hour), Decimal(minute), Decimal(second);
    match shape
    case HourOnly => HourNoMarker(hs, gap, u);
    case HourMinute => HourMinuteNoMarker(hs, ms, gap, u);
    case HourMinuteSecond => FullNoMarker(hs, ms, ss, gap, u);
  }

  /** Without a blank before the marker no form applies; the error is the
      full form's, which expects a `:` where the marker starts. */
  lemma NoBlank(hour: u8, t: string)
    requires hour < 24
    ensures Parse(Decimal(hour) + (Gmt + t)) == Fail(ParseError(Gmt + t, Tag))
  {
    DecimalU8(hour, Gmt + t, 0, 23);
    assert (Gmt + t)[0] == 'G';
  }

  /** Test vector: hour 24 fails with `Verify` at the input. */
  lemma HourOutOfRange()
    ensures Parse("24 GMT") == Fail(ParseError("24 GMT", Verify))
  {
    var ds := "24";
    assert Value(ds) == 24;
    assert "24 GMT" == ds + " GMT";
    BoundedU8Of(ds, " GMT", 0, 23);
  }

  /** A `:` after the hour commits to a minute: a bad minute fails the
      whole reading with the minute's error. */
  lemma MinuteRejected(hs: string, u: string)
    requires HourDigits(hs) && Parse60(u).Fail?
    ensures Parse(hs + (":" + u)) == Fail(Parse60(u).error)
  {
    HourOnlyOnColon(hs, ":" + u);
    BoundedU8Of(hs, ":" + u, 0, 23);
    LiteralOf(":", u);
  }

  /** A second `:` commits to a second likewise. */
  lemma SecondRejected(hs: string, ms: string, u: string)
    requires HourDigits(hs) && FieldDigits(ms) && Parse60(u).Fail?
    ensures Parse(hs + (":" + (ms + (":" + u)))) == Fail(Parse60(u).error)
  {
    var r3 := ":" + u;
    HourOnlyOnColon(hs, ":" + (ms + r3));
    HourMinuteOnColon(hs, ms, r3);
    BoundedU8Of(hs, ":" + (ms + r3), 0, 23);
    ColonFieldOf(ms, r3);
    LiteralOf(":", u);
  }

  /** The test-vector texts, split at the fields. */
  lemma VectorTexts()
    ensures "60" + " GMT" == "60 GMT"
    ensures "12:60 GMT" == Decimal(12) + (":" + "60 GMT")
    ensures "12:58:60 GMT" == Decimal(12) + (":" + (Decimal(58) + (":" + "60 GMT")))
  {
    assert Decimal(58) == "58";
  }

  /** Test vector: minute 60 fails with `Verify` at the minute. */
  lemma MinuteOutOfRange()
    ensures Parse("12:60 GMT") == Fail(ParseError("60 GMT", Verify))
  {
    VectorTexts();
    SixtyRejected(" GMT");
    MinuteRejected(Decimal(12), "60 GMT");
  }

  /** Test vector: second 60 fails with `Verify` at the second. */
  lemma SecondOutOfRange()
    ensures Parse("12:58:60 GMT") == Fail(ParseError("60 GMT", Verify))
  {
    VectorTexts();
    SixtyRejected(" GMT");
    SecondRejected(Decimal(12), Decimal(58), "60 GMT");
  }
}
