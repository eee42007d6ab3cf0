/** A timezone: a UTC offset or a zone name (src/when_timezone.rs). */
module Timezones {
  import opened Nom
  import opened ParseHms
  import UtcOffsets
  import NamedTimezones

  datatype WhenTimezone = UtcOffset(offset: UtcOffsets.WhenUtcOffset) | Named(named: NamedTimezones.WhenNamedTimezone)

  /** `alt` of the offset, then the name, each `map`ped into its variant;
      when both fail the error is that of the name. */
  function Parse(s: string): (r: Parsed<WhenTimezone>)
    ensures r.Ok? && r.value.UtcOffset? ==> UtcOffsets.Parse(s) == Ok(r.value.offset, r.rest)
    ensures r.Ok? && r.value.Named? ==>
      UtcOffsets.Parse(s).Fail? && NamedTimezones.Parse(s) == Ok(r.value.named, r.rest)
    ensures r.Fail? ==> UtcOffsets.Parse(s).Fail? && NamedTimezones.Parse(s) == Fail(r.error)
  {
    var a := UtcOffsets.Parse(s);
    if a.Ok? then Ok(UtcOffset(a.value), a.rest)
    else
      var n := NamedTimezones.Parse(s);
      if n.Ok? then Ok(Named(n.value), n.rest) else Fail(n.error)
  }

  /** Every offset the parser can produce, printed, reads back whole. */
  lemma OffsetRoundTrip(x: UtcOffsets.WhenUtcOffset, shape: Shape)
    requires UtcOffsets.Valid(x) && ShapeFits(shape, x.minute, x.second)
    ensures Parse(UtcOffsets.Text(x, shape)) == Ok(UtcOffset(x), "")
  {
    UtcOffsets.RoundTrip(x, shape);
  }

  /** A zone name is never an offset: after `UTC` comes a name character or
      the `/`, neither of them a sign. */
  lemma {:induction false} NameIsNoOffset(x: NamedTimezones.WhenNamedTimezone, t: string)
    requires NamedTimezones.IsName(x.region)
    ensures UtcOffsets.Parse(NamedTimezones.Text(x) + t).Fail?
  {
    var s := NamedTimezones.Text(x) + t;
    var n := |x.region|;
    assert s == x.region + ("/" + (x.city + t));
    assert s[n] == '/';
    if n < 3 {
      assert "UTC"[n] != '/';
      assert !("UTC" <= s);
    } else {
      assert s[3] == '/' || NamedTimezones.IsNameChar(s[3]) by {
        if n > 3 { assert s[3] == x.region[3]; }
      }
      if "UTC" <= s {
        assert s == "UTC" + s[3..];
        UtcOffsets.NoSign(s[3..]);
      }
    }
  }

  /** Every zone with two names reads back as itself. */
  lemma {:induction false} NamedRoundTrip(x: NamedTimezones.WhenNamedTimezone, t: string)
    requires NamedTimezones.IsName(x.region) && NamedTimezones.IsName(x.city)
    requires !NamedTimezones.StartsWithNameChar(t)
    ensures Parse(NamedTimezones.Text(x) + t) == Ok(Named(x), t)
  {
    NameIsNoOffset(x, t);
    NamedTimezones.RoundTrip(x, t);
  }

  /** `UTC` followed by a sign is a name without its `/`. */
  lemma {:induction false} SignIsNoSlash(sign: UtcOffsets.Sign, v: string)
    ensures NamedTimezones.Parse("UTC" + (UtcOffsets.SignText(sign) + v)) ==
      Fail(ParseError(UtcOffsets.SignText(sign) + v, Tag))
  {
    var u := UtcOffsets.SignText(sign) + v;
    assert u[0] == UtcOffsets.SignText(sign)[0];
    assert NamedTimezones.IsName("UTC");
    NamedTimezones.NoSlash("UTC", u);
  }

  /** Text after an offset fails the offset (it must end the input) and is no
      zone name either: the error is the name's `Tag` at the sign. */
  lemma {:induction false} OffsetThenText(x: UtcOffsets.WhenUtcOffset, shape: Shape, t: string)
    requires UtcOffsets.Valid(x) && ShapeFits(shape, x.minute, x.second)
    requires |t| > 0 && !StartsWithDigit(t) && !StartsWithColon(t)
    ensures Parse(UtcOffsets.Text(x, shape) + t) ==
      Fail(ParseError(UtcOffsets.SignText(x.sign) + (ClockText(x.hour, x.minute, x.second, shape) + t), Tag))
  {
    var v := ClockText(x.hour, x.minute, x.second, shape) + t;
    var s := UtcOffsets.Text(x, shape) + t;
    assert s == "UTC" + (UtcOffsets.SignText(x.sign) + v);
    UtcOffsets.Trailing(x, shape, t);
    SignIsNoSlash(x.sign, v);
    assert NamedTimezones.Parse(s) == Fail(ParseError(UtcOffsets.SignText(x.sign) + v, Tag));
  }

  /** The test-vector texts. */
  lemma VectorTexts()
    ensures "UTC+3" == UtcOffsets.Text(UtcOffsets.WhenUtcOffset(UtcOffsets.Plus, 3, 0, 0), HourOnly)
    ensures "Africa/Addis_Ababa" == NamedTimezones.Text(NamedTimezones.WhenNamedTimezone("Africa", "Addis_Ababa")) + ""
  {
    assert Decimal(3) == "3";
  }

  /** Test vector: `UTC+3`. */
  lemma OffsetVector()
    ensures Parse("UTC+3") == Ok(UtcOffset(UtcOffsets.WhenUtcOffset(UtcOffsets.Plus, 3, 0, 0)), "")
  {
    VectorTexts();
    OffsetRoundTrip(UtcOffsets.WhenUtcOffset(UtcOffsets.Plus, 3, 0, 0), HourOnly);
  }

  /** Test vector: `Africa/Addis_Ababa`. */
  lemma NamedVector()
    ensures Parse("Africa/Addis_Ababa") ==
      Ok(Named(NamedTimezones.WhenNamedTimezone("Africa", "Addis_Ababa")), "")
  {
    var x := NamedTimezones.WhenNamedTimezone("Africa", "Addis_Ababa");
    VectorTexts();
    assert NamedTimezones.IsName(x.region) && NamedTimezones.IsName(x.city);
    NamedRoundTrip(x, "");
  }

  /** Test vector: `unknown` fails with the name's `Tag` at the end of the
      input. */
  lemma UnknownFails()
    ensures Parse("unknown") == Fail(ParseError("", Tag))
  {
    NamedTimezones.UnknownFails();
    assert !("UTC" <= "unknown");
  }
}
