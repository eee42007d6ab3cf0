/** The `am`/`pm` marker of a 12-hour clock reading (src/am_pm.rs). */
module AmPms {
  import opened Nom

  datatype AmPm = Am | Pm

  /** How a marker is spelled: all lower case or all upper case. */
  datatype Casing = Lower | Upper

  /** The two-letter spelling of a marker in a casing. */
  function Text(p: AmPm, casing: Casing): string {
    match (p, casing)
    case (Am, Lower) => "am"
    case (Am, Upper) => "AM"
    case (Pm, Lower) => "pm"
    case (Pm, Upper) => "PM"
  }

  /** `AmPm::parse`: `am` or `AM` gives `Am`, then `pm` or `PM` gives `Pm`.
      A success consumes exactly one spelling of its marker; every failure is
      a `Tag` error at the input. */
  function Parse(s: string): (r: Parsed<AmPm>)
    ensures r.Ok? ==> Text(r.value, Lower) <= s || Text(r.value, Upper) <= s
    ensures r.Ok? ==> |s| >= 2 && r.rest == s[2..]
    ensures r.Fail? ==> r.error == ParseError(s, Tag)
  {
    Alt(Alt(LiteralAs("am", Am, s), LiteralAs("AM", Am, s)),
        Alt(LiteralAs("pm", Pm, s), LiteralAs("PM", Pm, s)))
  }

  /** Any input starting with a spelling of a marker reads as that marker,
      and only the two letters are consumed. */
  lemma ParseOf(p: AmPm, casing: Casing, s: string)
    requires Text(p, casing) <= s
    ensures Parse(s) == Ok(p, s[2..])
  {
    assert s[0] == Text(p, casing)[0] && s[1] == Text(p, casing)[1];
  }

  /** Printing a marker and reading it back gives the marker and the rest. */
  lemma RoundTrip(p: AmPm, casing: Casing, t: string)
    ensures Parse(Text(p, casing) + t) == Ok(p, t)
  {
    var s := Text(p, casing) + t;
    assert Text(p, casing) <= s;
    ParseOf(p, casing, s);
    assert s[2..] == t;
  }

  /** The outcome depends on the first two characters alone: two inputs that
      agree on them either both fail or give the same marker. */
  lemma {:induction false} FirstTwoDecide(s: string, s': string)
    requires |s| >= 2 && |s'| >= 2 && s[..2] == s'[..2]
    ensures Parse(s).Ok? <==> Parse(s').Ok?
    ensures Parse(s).Ok? ==> Parse(s').value == Parse(s).value
  {
    if Parse(s).Ok? {
      var casing := if Text(Parse(s).value, Lower) <= s then Lower else Upper;
      assert Text(Parse(s).value, casing) == s[..2];
      ParseOf(Parse(s).value, casing, s');
    }
    if Parse(s').Ok? {
      var casing := if Text(Parse(s').value, Lower) <= s' then Lower else Upper;
      assert Text(Parse(s').value, casing) == s'[..2];
      ParseOf(Parse(s').value, casing, s);
    }
  }

  /** Mixed case is not a marker, nor is anything else. */
  lemma Rejects()
    ensures Parse("Am") == Fail(ParseError("Am", Tag))
    ensures Parse("x") == Fail(ParseError("x", Tag))
  {
    assert "Am"[0] == 'A' && "Am"[1] == 'm';
  }
}
