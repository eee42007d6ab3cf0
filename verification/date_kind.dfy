/** The calendar units named after `last`/`next`/`this` (src/date_kind.rs). */
module DateKinds {
  import opened Nom

  datatype DateKind = Week | Month | Year

  function Name(k: DateKind): string {
    match k
    case Week => "week"
    case Month => "month"
    case Year => "year"
  }

  /** `DateKind::parse`: `week`, `month`, `year` in that order. A success
      consumes exactly the keyword; every failure is a `Tag` error at the
      input. */
  function Parse(s: string): (r: Parsed<DateKind>)
    ensures r.Ok? ==> Name(r.value) <= s && r.rest == s[|Name(r.value)|..]
    ensures r.Fail? ==> r.error == ParseError(s, Tag)
  {
    Alt(LiteralAs("week", Week, s),
    Alt(LiteralAs("month", Month, s),
        LiteralAs("year", Year, s)))
  }

  /** Any input starting with a keyword reads as that kind and only the
      keyword is consumed (the keywords differ in their first letter). */
  lemma ParseOf(k: DateKind, s: string)
    requires Name(k) <= s
    ensures Parse(s) == Ok(k, s[|Name(k)|..])
  {
    assert s[0] == Name(k)[0];
  }

  lemma RoundTrip(k: DateKind, t: string)
    ensures Parse(Name(k) + t) == Ok(k, t)
  {
    var s := Name(k) + t;
    assert Name(k) <= s;
    ParseOf(k, s);
    assert s[|Name(k)|..] == t;
  }

  /** Parsing fails exactly when the input starts with no keyword. */
  lemma FailsIff(s: string)
    ensures Parse(s).Fail? <==> forall k :: !(Name(k) <= s)
  {
    if Parse(s).Fail? {
      forall k ensures !(Name(k) <= s) {
        if Name(k) <= s {
          ParseOf(k, s);
        }
      }
    }
  }

  /** A plural reads as the singular keyword and leaves the `s`; upper case
      and other words fail at the input. */
  lemma Examples()
    ensures Parse("weeks") == Ok(Week, "s")
    ensures Parse("Week") == Fail(ParseError("Week", Tag))
    ensures Parse("unknown") == Fail(ParseError("unknown", Tag))
  {
    RoundTrip(Week, "s");
    assert "weeks" == Name(Week) + "s";
    assert "Week"[0] == 'W';
    assert "unknown"[0] == 'u';
  }
}
