/** Lower-case day names (src/weekday.rs). */
module Weekdays {
  import opened Nom

  datatype Weekday = Monday | Tuesday | Wednesday | Thursday | Friday | Saturday | Sunday

  /** The only accepted spelling of a day: its lower-case English name. */
  function Name(w: Weekday): string {
    match w
    case Monday => "monday"
    case Tuesday => "tuesday"
    case Wednesday => "wednesday"
    case Thursday => "thursday"
    case Friday => "friday"
    case Saturday => "saturday"
    case Sunday => "sunday"
  }

  /** `Weekday::parse`: the day names tried Monday to Sunday. A success
      consumes exactly the day's name; every failure is a `Tag` error at the
      input. */
  function Parse(s: string): (r: Parsed<Weekday>)
    ensures r.Ok? ==> Name(r.value) <= s && r.rest == s[|Name(r.value)|..]
    ensures r.Fail? ==> r.error == ParseError(s, Tag)
  {
    Alt(LiteralAs("monday", Monday, s),
    Alt(LiteralAs("tuesday", Tuesday, s),
    Alt(LiteralAs("wednesday", Wednesday, s),
    Alt(LiteralAs("thursday", Thursday, s),
    Alt(LiteralAs("friday", Friday, s),
    Alt(LiteralAs("saturday", Saturday, s),
        LiteralAs("sunday", Sunday, s)))))))
  }

  /** Any input starting with a day's name reads as that day: no two names
      share their first two letters, so no earlier alternative intervenes. */
  lemma ParseOf(w: Weekday, s: string)
    requires Name(w) <= s
    ensures Parse(s) == Ok(w, s[|Name(w)|..])
  {
    assert s[0] == Name(w)[0] && s[1] == Name(w)[1];
    match w
    case Monday =>
    case Tuesday => assert !("monday" <= s);
    case Wednesday => assert !("monday" <= s) && !("tuesday" <= s);
    case Thursday => assert !("monday" <= s) && !("tuesday" <= s) && !("wednesday" <= s);
    case Friday => assert !("thursday" <= s) && !("tuesday" <= s);
    case Saturday => assert !("friday" <= s) && !("thursday" <= s) && !("tuesday" <= s);
    case Sunday => assert !("saturday" <= s) && !("friday" <= s) && !("thursday" <= s) && !("tuesday" <= s);
  }

  /** Printing a day and reading it back gives the day and the rest. */
  lemma RoundTrip(w: Weekday, t: string)
    ensures Parse(Name(w) + t) == Ok(w, t)
  {
    var s := Name(w) + t;
    assert Name(w) <= s;
    ParseOf(w, s);
    assert s[|Name(w)|..] == t;
  }

  /** Parsing fails exactly when the input starts with no day name. */
  lemma FailsIff(s: string)
    ensures Parse(s).Fail? <==> forall w :: !(Name(w) <= s)
  {
    if Parse(s).Fail? {
      forall w ensures !(Name(w) <= s) {
        if Name(w) <= s {
          ParseOf(w, s);
        }
      }
    }
  }

  /** Capitalised names are not accepted, and neither is anything else. */
  lemma Rejects()
    ensures Parse("Monday") == Fail(ParseError("Monday", Tag))
    ensures Parse("unknown") == Fail(ParseError("unknown", Tag))
  {
    assert "Monday"[0] == 'M';
    assert "unknown"[0] == 'u';
  }
}
