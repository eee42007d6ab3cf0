/** The clock units named after `next`/`previous`/`this` (src/time_kind.rs). */
module TimeKinds {
  import opened Nom

  datatype TimeKind = Hour | Minute | Second

  function Name(k: TimeKind): string {
    match k
    case Hour => "hour"
    case Minute => "minute"
    case Second => "second"
  }

  /** `TimeKind::parse`: `hour`, `minute`, `second` in that order. A success
      consumes exactly the keyword; every failure is a `Tag` error at the
      input. */
  function Parse(s: string): (r: Parsed<TimeKind>)
    ensures r.Ok? ==> Name(r.value) <= s && r.rest == s[|Name(r.value)|..]
    ensures r.Fail? ==> r.error == ParseError(s, Tag)
  {
    Alt(LiteralAs("hour", Hour, s),
    Alt(LiteralAs("minute", Minute, s),
        LiteralAs("second", Second, s)))
  }

  /** Any input starting with a keyword reads as that kind and only the
      keyword is consumed (the keywords differ in their first letter). */
  lemma ParseOf(k: TimeKind, s: string)
    requires Name(k) <= s
    ensures Parse(s) == Ok(k, s[|Name(k)|..])
  {
    assert s[0] == Name(k)[0];
  }

  lemma RoundTrip(k: TimeKind, t: string)
    ensures Parse(Name(k) + t) == Ok(k, t)
  {
    var s := Name(k) + t;
    assert Name(k) <= s;
    ParseOf(k, s);
    assert s[|Name(k)|..] == t;
  }

  /** Parsing fails exactly when the input starts with no keyword. */
  lemma FailsIff(s: string)
    ensures Parse(s).Fail? <==> forall k :: !(Name(k) <= s)
  {
    if Parse(s).Fail? {
      forall k ensures !(Name(k) <= s) {
        if Name(k) <= s {
          ParseOf(k, s);
        }
      }
    }
  }

  /** A plural reads as the singular keyword and leaves the `s`; upper case
      and other words fail at the input. */
  lemma Examples()
    ensures Parse("hours") == Ok(Hour, "s")
    ensures Parse("Hour") == Fail(ParseError("Hour", Tag))
    ensures Parse("unknown") == Fail(ParseError("unknown", Tag))
  {
    RoundTrip(Hour, "s");
    assert "hours" == Name(Hour) + "s";
    assert "Hour"[0] == 'H';
    assert "unknown"[0] == 'u';
  }
}
