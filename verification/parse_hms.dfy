/** Bounded clock-field scanners and the shared `h[:m[:s]]` reader
    (src/parse_hms.rs). */
module ParseHms {
  import opened Nom

  /** Which hour range the clock reading uses. */
  datatype HmsFormat = H24 | H12

  /** `parse_24`: an hour in 0..=23. */
  function Parse24(s: string): (r: Parsed<u8>)
    ensures r.Ok? ==> r.value < 24 && Digit1(s).Ok? && r.rest == Digit1(s).rest
    ensures r.Fail? ==> r.error.input == s
  {
    BoundedU8(s, 0, 23)
  }

  /** `parse_12`: an hour in 1..=12. */
  function Parse12(s: string): (r: Parsed<u8>)
    ensures r.Ok? ==> 1 <= r.value <= 12 && Digit1(s).Ok? && r.rest == Digit1(s).rest
    ensures r.Fail? ==> r.error.input == s
  {
    BoundedU8(s, 1, 12)
  }

  /** `parse_60`: a minute or second in 0..=59. */
  function Parse60(s: string): (r: Parsed<u8>)
    ensures r.Ok? ==> r.value < 60 && Digit1(s).Ok? && r.rest == Digit1(s).rest
    ensures r.Fail? ==> r.error.input == s
  {
    BoundedU8(s, 0, 59)
  }

  predicate HourFits(h: int, format: HmsFormat) {
    match format
    case H24 => 0 <= h < 24
    case H12 => 1 <= h <= 12
  }

  /** The hour scanner `parse_hms` picks for its format. */
  function ParseHour(s: string, format: HmsFormat): (r: Parsed<u8>)
    ensures r.Ok? ==> HourFits(r.value, format) && Digit1(s).Ok? && r.rest == Digit1(s).rest
    ensures r.Fail? ==> r.error.input == s
  {
    match format
    case H24 => Parse24(s)
    case H12 => Parse12(s)
  }

  predicate StartsWithColon(s: string) {
    |s| > 0 && s[0] == ':'
  }

  /** `parse_hms_inner`: an hour, then optionally `:minute`, then optionally
      `:second`; missing fields are 0. Once a `:` follows a field the next
      field is mandatory: its failure fails the whole reading. */
  function Parse(s: string, format: HmsFormat): (r: Parsed<(u8, u8, u8)>)
    ensures r.Ok? ==> HourFits(r.value.0, format) && r.value.1 < 60 && r.value.2 < 60
  {
    var (hour, r1) :- ParseHour(s, format);
    AfterHour(hour, r1)
  }

  /** The part of `parse_hms_inner` after the hour has been read. The
      `tag(":")` inside `preceded` is reached only when a `:` follows, so it
      always reads and its error path is left out. */
  function AfterHour(hour: u8, s: string): (r: Parsed<(u8, u8, u8)>)
    ensures r.Ok? ==> r.value.0 == hour && r.value.1 < 60 && r.value.2 < 60
  {
    if !StartsWithColon(s) then Ok((hour, 0, 0), s)
    else
      var r2 := Literal(":", s).rest;
      var (minute, r3) :- Parse60(r2);
      AfterMinute(hour, minute, r3)
  }

  /** The part of `parse_hms_inner` after the minute has been read. */
  function AfterMinute(hour: u8, minute: u8, s: string): (r: Parsed<(u8, u8, u8)>)
    ensures r.Ok? ==> r.value.0 == hour && r.value.1 == minute && r.value.2 < 60
  {
    if !StartsWithColon(s) then Ok((hour, minute, 0), s)
    else
      var r4 := Literal(":", s).rest;
      var (second, r5) :- Parse60(r4);
      Ok((hour, minute, second), r5)
  }

  /** The hour scanner of a format on a digit run followed by a non-digit. */
  lemma HourOf(ds: string, t: string, format: HmsFormat)
    requires |ds| > 0 && AllDigits(ds) && !StartsWithDigit(t)
    ensures ParseHour(ds + t, format) ==
      if Value(ds) > U8_MAX then Fail(ParseError(ds + t, MapRes))
      else if HourFits(Value(ds), format) then Ok(Value(ds), t)
      else Fail(ParseError(ds + t, Verify))
  {
    match format
    case H24 => BoundedU8Of(ds, t, 0, 23);
    case H12 => BoundedU8Of(ds, t, 1, 12);
  }

  /** How many fields a clock reading spells out. */
  datatype Shape = HourOnly | HourMinute | HourMinuteSecond

  /** A shape can spell a reading when the fields it leaves out are 0. */
  predicate ShapeFits(shape: Shape, minute: nat, second: nat) {
    match shape
    case HourOnly => minute == 0 && second == 0
    case HourMinute => second == 0
    case HourMinuteSecond => true
  }

  /** `h`, `h:m` or `h:m:s` in shortest decimal spelling. */
  function ClockText(hour: nat, minute: nat, second: nat, shape: Shape): string {
    match shape
    case HourOnly => Decimal(hour)
    case HourMinute => Decimal(hour) + (":" + Decimal(minute))
    case HourMinuteSecond => Decimal(hour) + (":" + (Decimal(minute) + (":" + Decimal(second))))
  }

  /** Clock text begins with a digit. */
  lemma ClockTextStartsWithDigit(hour: nat, minute: nat, second: nat, shape: Shape)
    ensures StartsWithDigit(ClockText(hour, minute, second, shape))
  {
    var d := Decimal(hour);
    assert ClockText(hour, minute, second, shape)[0] == d[0];
  }

  /** A field of at most 59 written as a digit run followed by a non-digit. */
  lemma FieldOf(ds: string, t: string)
    requires |ds| > 0 && AllDigits(ds) && Value(ds) < 60 && !StartsWithDigit(t)
    ensures Parse60(ds + t) == Ok(Value(ds), t)
  {
    BoundedU8Of(ds, t, 0, 59);
  }

  /** A digit spelling of a minute or second. */
  predicate FieldDigits(ds: string) {
    |ds| > 0 && AllDigits(ds) && Value(ds) < 60
  }

  /** 60 is not a minute or a second: it fails the range check at its
      digits. */
  lemma SixtyRejected(t: string)
    requires !StartsWithDigit(t)
    ensures Parse60("60" + t) == Fail(ParseError("60" + t, Verify))
  {
    assert Value("60") == 60;
    BoundedU8Of("60", t, 0, 59);
  }

  /** `:` followed by a field. */
  lemma ColonFieldOf(ds: string, t: string)
    requires |ds| > 0 && AllDigits(ds) && Value(ds) < 60 && !StartsWithDigit(t)
    ensures Literal(":", ":" + (ds + t)) == Ok(":", ds + t)
    ensures Parse60(ds + t) == Ok(Value(ds), t)
  {
    LiteralOf(":", ds + t);
    FieldOf(ds, t);
  }

  /** An hour (any digit spelling, leading zeros included) not followed by
      `:` reads as `(hour, 0, 0)` and only the hour digits are consumed. */
  lemma HourOnlyOf(ds: string, t: string, format: HmsFormat)
    requires |ds| > 0 && AllDigits(ds) && Value(ds) <= U8_MAX && HourFits(Value(ds), format)
    requires !StartsWithDigit(t) && !StartsWithColon(t)
    ensures Parse(ds + t, format) == Ok((Value(ds), 0, 0), t)
  {
    HourOf(ds, t, format);
  }

  /** After a minute, `:` and a field give the second. */
  lemma AfterMinuteOf(hour: u8, minute: u8, ss: string, t: string)
    requires |ss| > 0 && AllDigits(ss) && Value(ss) < 60 && !StartsWithDigit(t)
    ensures AfterMinute(hour, minute, ":" + (ss + t)) == Ok((hour, minute, Value(ss)), t)
  {
    ColonFieldOf(ss, t);
    assert StartsWithColon(":" + (ss + t));
  }

  /** `h:m` not followed by a further `:` reads with second 0 and leaves
      the input right after the minute digits. */
  lemma HourMinuteOf(hs: string, ms: string, t: string, format: HmsFormat)
    requires |hs| > 0 && AllDigits(hs) && Value(hs) <= U8_MAX && HourFits(Value(hs), format)
    requires |ms| > 0 && AllDigits(ms) && Value(ms) < 60
    requires !StartsWithDigit(t) && !StartsWithColon(t)
    ensures Parse(hs + (":" + (ms + t)), format) == Ok((Value(hs), Value(ms), 0), t)
  {
    var r1 := ":" + (ms + t);
    HourOf(hs, r1, format);
    ColonFieldOf(ms, t);
    assert StartsWithColon(r1);
    assert AfterHour(Value(hs), r1) == Ok((Value(hs), Value(ms), 0), t);
  }

  /** After an hour, `:m:s` gives minute and second. */
  lemma AfterHourFullOf(hour: u8, ms: string, ss: string, t: string)
    requires |ms| > 0 && AllDigits(ms) && Value(ms) < 60
    requires |ss| > 0 && AllDigits(ss) && Value(ss) < 60 && !StartsWithDigit(t)
    ensures AfterHour(hour, ":" + (ms + (":" + (ss + t)))) == Ok((hour, Value(ms), Value(ss)), t)
  {
    var r3 := ":" + (ss + t);
    ColonFieldOf(ms, r3);
    AfterMinuteOf(hour, Value(ms), ss, t);
    assert StartsWithColon(":" + (ms + r3));
  }

  /** `h:m:s` reads all three fields and leaves the input after the seconds. */
  lemma FullOf(hs: string, ms: string, ss: string, t: string, format: HmsFormat)
    requires |hs| > 0 && AllDigits(hs) && Value(hs) <= U8_MAX && HourFits(Value(hs), format)
    requires |ms| > 0 && AllDigits(ms) && Value(ms) < 60
    requires |ss| > 0 && AllDigits(ss) && Value(ss) < 60
    requires !StartsWithDigit(t)
    ensures Parse(hs + (":" + (ms + (":" + (ss + t)))), format) == Ok((Value(hs), Value(ms), Value(ss)), t)
  {
    HourOf(hs, ":" + (ms + (":" + (ss + t))), format);
    AfterHourFullOf(Value(hs), ms, ss, t);
  }

  /** Clock text followed by more input, in the nesting the lemmas use. */
  lemma ClockTextThen(hour: nat, minute: nat, second: nat, shape: Shape, t: string)
    ensures shape == HourOnly ==> ClockText(hour, minute, second, shape) + t == Decimal(hour) + t
    ensures shape == HourMinute ==>
      ClockText(hour, minute, second, shape) + t == Decimal(hour) + (":" + (Decimal(minute) + t))
    ensures shape == HourMinuteSecond ==>
      ClockText(hour, minute, second, shape) + t ==
      Decimal(hour) + (":" + (Decimal(minute) + (":" + (Decimal(second) + t))))
  {
    var hs, ms, ss := Decimal(hour), Decimal(minute), Decimal(second);
    match shape
    case HourOnly =>
    case HourMinute =>
      assert (hs + (":" + ms)) + t == hs + (":" + (ms + t));
    case HourMinuteSecond =>
      assert (hs + (":" + (ms + (":" + ss)))) + t == hs + (":" + (ms + (":" + (ss + t))));
  }

  /** Every reading the shape can spell is read back exactly, and the input
      after its last digit is left over. */
  lemma RoundTrip(hour: u8, minute: u8, second: u8, shape: Shape, format: HmsFormat, t: string)
    requires HourFits(hour, format) && minute < 60 && second < 60
    requires ShapeFits(shape, minute, second)
    requires !StartsWithDigit(t) && !StartsWithColon(t)
    ensures Parse(ClockText(hour, minute, second, shape) + t, format) == Ok((hour, minute, second), t)
  {
    ClockTextThen(hour, minute, second, shape, t);
    match shape
    case HourOnly => HourOnlyOf(Decimal(hour), t, format);
    case HourMinute => HourMinuteOf(Decimal(hour), Decimal(minute), t, format);
    case HourMinuteSecond => FullOf(Decimal(hour), Decimal(minute), Decimal(second), t, format);
  }

  /** A `:` after the hour commits to a minute: when the minute is missing
      or out of range the whole reading fails with the minute's error, and
      there is no fallback to the hour alone. */
  lemma MinuteNoFallback(hs: string, u: string, format: HmsFormat)
    requires |hs| > 0 && AllDigits(hs) && Value(hs) <= U8_MAX && HourFits(Value(hs), format)
    requires Parse60(u).Fail?
    ensures Parse(hs + (":" + u), format) == Fail(Parse60(u).error)
  {
    HourOf(hs, ":" + u, format);
    LiteralOf(":", u);
  }

  /** Likewise a second `:` commits to a second. */
  lemma SecondNoFallback(hs: string, ms: string, u: string, format: HmsFormat)
    requires |hs| > 0 && AllDigits(hs) && Value(hs) <= U8_MAX && HourFits(Value(hs), format)
    requires FieldDigits(ms) && Parse60(u).Fail?
    ensures Parse(hs + (":" + (ms + (":" + u))), format) == Fail(Parse60(u).error)
  {
    var r3 := ":" + u;
    var r1 := ":" + (ms + r3);
    HourOf(hs, r1, format);
    ColonFieldOf(ms, r3);
    LiteralOf(":", u);
    assert StartsWithColon(r3);
    assert AfterMinute(Value(hs), Value(ms), r3) == Fail(Parse60(u).error);
    assert StartsWithColon(r1);
  }
}
