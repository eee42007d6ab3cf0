/** A UTC offset such as `UTC+1:30`, which must make up the whole input
    (src/when_utc_offset.rs). */
module UtcOffsets {
  import opened Nom
  import opened ParseHms

  datatype Sign = Plus | Minus

  datatype WhenUtcOffset = WhenUtcOffset(sign: Sign, hour: u8, minute: u8, second: u8)

  /** The offsets the parser can produce: a 24-hour clock reading. */
  predicate Valid(x: WhenUtcOffset) {
    x.hour < 24 && x.minute < 60 && x.second < 60
  }

  function SignText(sign: Sign): string {
    match sign
    case Plus => "+"
    case Minus => "-"
  }

  /** `sign`: `+` or `-`; any other input fails with `Tag` there. */
  function SignOf(s: string): (r: Parsed<Sign>)
    ensures r.Ok? ==> SignText(r.value) <= s && r.rest == s[1..]
    ensures r.Fail? ==> r.error == ParseError(s, Tag)
  {
    Alt(LiteralAs("+", Plus, s), LiteralAs("-", Minus, s))
  }

  /** The file's private `parse_24`/`parse_60`/`parse_hms`, as written
      there: an hour below 24, then `:minute` and `:second` while a `:`
      follows, each mandatory once its `:` is read. It is the shared 24-hour
      reader of `ParseHms`, on every input. */
  function LocalHms(s: string): (r: Parsed<(u8, u8, u8)>)
    ensures r == ParseHms.Parse(s, H24)
  {
    var (hour, r1) :- BoundedU8(s, 0, 23);
    if !StartsWithColon(r1) then Ok((hour, 0, 0), r1)
    else
      var r2 := Literal(":", r1).rest;
      var (minute, r3) :- BoundedU8(r2, 0, 59);
      if !StartsWithColon(r3) then Ok((hour, minute, 0), r3)
      else
        var r4 := Literal(":", r3).rest;
        var (second, r5) :- BoundedU8(r4, 0, 59);
        Ok((hour, minute, second), r5)
  }

  /** `parse_when_utc_offset`: `UTC`, a sign, a 24-hour `h[:m[:s]]` reading,
      and nothing after it (`all_consuming`). */
  function Parse(s: string): (r: Parsed<WhenUtcOffset>)
    ensures r.Ok? ==> r.rest == "" && Valid(r.value)
    ensures !("UTC" <= s) ==> r == Fail(ParseError(s, Tag))
  {
    var (_, r1) :- Literal("UTC", s);
    var (sign, r2) :- SignOf(r1);
    AfterSign(sign, r2)
  }

  /** The part of `parse_when_utc_offset` after the sign. */
  function AfterSign(sign: Sign, s: string): (r: Parsed<WhenUtcOffset>)
    ensures r.Ok? ==> r.rest == "" && r.value.sign == sign && Valid(r.value)
  {
    var (hms, r3) :- LocalHms(s);
    var (_, r4) :- EndOfInput(r3);
    Ok(WhenUtcOffset(sign, hms.0, hms.1, hms.2), r4)
  }

  /** After `UTC` and a sign, the clock reading decides. */
  lemma PrefixOf(sign: Sign, u: string)
    ensures Parse("UTC" + (SignText(sign) + u)) == AfterSign(sign, u)
  {
    LiteralOf("UTC", SignText(sign) + u);
    assert (SignText(sign) + u)[0] == SignText(sign)[0];
    assert (SignText(sign) + u)[1..] == u;
  }

  /** The shortest spelling of an offset with the given fields. */
  function Text(x: WhenUtcOffset, shape: Shape): string {
    "UTC" + (SignText(x.sign) + ClockText(x.hour, x.minute, x.second, shape))
  }

  /** Every offset the parser can produce, printed, reads back whole. */
  lemma {:induction false} RoundTrip(x: WhenUtcOffset, shape: Shape)
    requires Valid(x) && ShapeFits(shape, x.minute, x.second)
    ensures Parse(Text(x, shape)) == Ok(x, "")
  {
    var clock := ClockText(x.hour, x.minute, x.second, shape);
    PrefixOf(x.sign, clock);
    ParseHms.RoundTrip(x.hour, x.minute, x.second, shape, H24, "");
    assert clock + "" == clock;
  }

  /** Anything after a complete reading fails the whole offset with `Eof`
      there. */
  lemma {:induction false} Trailing(x: WhenUtcOffset, shape: Shape, t: string)
    requires Valid(x) && ShapeFits(shape, x.minute, x.second)
    requires |t| > 0 && !StartsWithDigit(t) && !StartsWithColon(t)
    ensures Parse(Text(x, shape) + t) == Fail(ParseError(t, Eof))
  {
    var clock := ClockText(x.hour, x.minute, x.second, shape);
    assert Text(x, shape) + t == "UTC" + (SignText(x.sign) + (clock + t));
    PrefixOf(x.sign, clock + t);
    ParseHms.RoundTrip(x.hour, x.minute, x.second, shape, H24, t);
  }

  /** `UTC` without a sign fails with `Tag` after it. */
  lemma NoSign(u: string)
    requires |u| == 0 || (u[0] != '+' && u[0] != '-')
    ensures Parse("UTC" + u) == Fail(ParseError(u, Tag))
  {
    LiteralOf("UTC", u);
  }

  /** An hour of 24 or more fails at the hour: with `MapRes` beyond `u8`,
      else with `Verify`. */
  lemma {:induction false} HourRejected(sign: Sign, hs: string, t: string)
    requires |hs| > 0 && AllDigits(hs) && Value(hs) >= 24 && !StartsWithDigit(t)
    ensures Parse("UTC" + (SignText(sign) + (hs + t))) ==
      Fail(ParseError(hs + t, if Value(hs) > U8_MAX then MapRes else Verify))
  {
    PrefixOf(sign, hs + t);
    HourOf(hs, t, H24);
  }

  /** Once a `:` follows the hour, a bad minute fails the offset with the
      minute's error; there is no fallback to the hour alone. */
  lemma {:induction false} MinuteRejected(sign: Sign, hs: string, u: string)
    requires |hs| > 0 && AllDigits(hs) && Value(hs) < 24 && Parse60(u).Fail?
    ensures Parse("UTC" + (SignText(sign) + (hs + (":" + u)))) == Fail(Parse60(u).error)
  {
    PrefixOf(sign, hs + (":" + u));
    MinuteNoFallback(hs, u, H24);
  }

  /** Likewise for a bad second after `h:m:`. */
  lemma {:induction false} SecondRejected(sign: Sign, hs: string, ms: string, u: string)
    requires |hs| > 0 && AllDigits(hs) && Value(hs) < 24 && FieldDigits(ms) && Parse60(u).Fail?
    ensures Parse("UTC" + (SignText(sign) + (hs + (":" + (ms + (":" + u)))))) == Fail(Parse60(u).error)
  {
    PrefixOf(sign, hs + (":" + (ms + (":" + u))));
    SecondNoFallback(hs, ms, u, H24);
  }

  /** The decimal spellings in the test vectors. */
  lemma VectorDecimals()
    ensures Decimal(1) == "1" && Decimal(30) == "30" && Decimal(24) == "24"
    ensures Decimal(12) == "12" && Decimal(58) == "58"
  {
  }

  /** The accepted test-vector texts, as printed offsets. */
  lemma OkTexts()
    ensures "UTC+1" == Text(WhenUtcOffset(Plus, 1, 0, 0), HourOnly)
    ensures "UTC-1:30" == Text(WhenUtcOffset(Minus, 1, 30, 0), HourMinute)
    ensures "UTC+1:30:24" == Text(WhenUtcOffset(Plus, 1, 30, 24), HourMinuteSecond)
  {
    VectorDecimals();
  }

  /** The rejected test-vector texts, split at the fields. */
  lemma ErrorTexts()
    ensures "UTC+24" == "UTC" + (SignText(Plus) + ("24" + ""))
    ensures "UTC+12:60" == "UTC" + (SignText(Plus) + (Decimal(12) + (":" + "60")))
    ensures "UTC+12:58:60" == "UTC" + (SignText(Plus) + (Decimal(12) + (":" + (Decimal(58) + (":" + "60")))))
  {
    VectorDecimals();
  }

  /** Test vector: `UTC+1`. */
  lemma HourVector()
    ensures Parse("UTC+1") == Ok(WhenUtcOffset(Plus, 1, 0, 0), "")
  {
    OkTexts();
    RoundTrip(WhenUtcOffset(Plus, 1, 0, 0), HourOnly);
  }

  /** Test vector: `UTC-1:30`. */
  lemma HourMinuteVector()
    ensures Parse("UTC-1:30") == Ok(WhenUtcOffset(Minus, 1, 30, 0), "")
  {
    OkTexts();
    RoundTrip(WhenUtcOffset(Minus, 1, 30, 0), HourMinute);
  }

  /** Test vector: `UTC+1:30:24`. */
  lemma FullVector()
    ensures Parse("UTC+1:30:24") == Ok(WhenUtcOffset(Plus, 1, 30, 24), "")
  {
    OkTexts();
    RoundTrip(WhenUtcOffset(Plus, 1, 30, 24), HourMinuteSecond);
  }

  /** Test vector: `UTC+24` fails with `Verify` at `24`. */
  lemma HourTwentyFour()
    ensures Parse("UTC+24") == Fail(ParseError("24", Verify))
  {
    ErrorTexts();
    assert AllDigits("24") && Value("24") == 24;
    HourRejected(Plus, "24", "");
    assert "24" + "" == "24";
  }

  /** Test vector: `UTC+12:60` fails with `Verify` at `60`. */
  lemma MinuteSixty()
    ensures Parse("UTC+12:60") == Fail(ParseError("60", Verify))
  {
    ErrorTexts();
    SixtyRejected("");
    assert "60" + "" == "60";
    MinuteRejected(Plus, Decimal(12), "60");
  }

  /** Test vector: `UTC+12:58:60` fails with `Verify` at `60`. */
  lemma SecondSixty()
    ensures Parse("UTC+12:58:60") == Fail(ParseError("60", Verify))
  {
    ErrorTexts();
    SixtyRejected("");
    assert "60" + "" == "60";
    SecondRejected(Plus, Decimal(12), Decimal(58), "60");
  }
}
