/** An IANA-style zone name `Region/City` (src/when_named_timezone.rs). */
module NamedTimezones {
  import opened Nom

  datatype WhenNamedTimezone = WhenNamedTimezone(region: string, city: string)

  /** The characters of a name part: letters and `_`. */
  predicate IsNameChar(c: char) {
    IsLetter(c) || c == '_'
  }

  predicate StartsWithNameChar(s: string) {
    |s| > 0 && IsNameChar(s[0])
  }

  /** A non-empty run of name characters. */
  predicate IsName(w: string) {
    |w| > 0 && forall i :: 0 <= i < |w| ==> IsNameChar(w[i])
  }

  /** `name`: the longest non-empty run of name characters; an empty run
      fails with `TakeWhile1` at the input. */
  function Name(s: string): (r: Parsed<string>)
    ensures r.Ok? ==> IsName(r.value) && s == r.value + r.rest && !StartsWithNameChar(r.rest)
    ensures r.Fail? <==> !StartsWithNameChar(s)
    ensures r.Fail? ==> r.error == ParseError(s, ErrorKind.TakeWhile1)
  {
    TakeRun(s, IsNameChar, ErrorKind.TakeWhile1)
  }

  /** `parse_when_named_timezone`: a name, `/`, a name. Whatever follows the
      second name is left for the caller. */
  function Parse(s: string): (r: Parsed<WhenNamedTimezone>)
    ensures r.Ok? ==>
      IsName(r.value.region) && IsName(r.value.city) && !StartsWithNameChar(r.rest) &&
      s == r.value.region + ("/" + (r.value.city + r.rest))
  {
    var (region, r1) :- Name(s);
    var (_, r2) :- Literal("/", r1);
    var (city, r3) :- Name(r2);
    Ok(WhenNamedTimezone(region, city), r3)
  }

  function Text(x: WhenNamedTimezone): string {
    x.region + ("/" + x.city)
  }

  /** A whole name followed by a non-name character is read exactly. */
  lemma NameOf(w: string, t: string)
    requires IsName(w) && !StartsWithNameChar(t)
    ensures Name(w + t) == Ok(w, t)
  {
    RunLengthOf(w, t, IsNameChar);
    assert (w + t)[..|w|] == w;
    assert (w + t)[|w|..] == t;
  }

  /** Every zone with two names reads back as itself; with the contract of
      `Parse` this characterises the accepted inputs exactly. */
  lemma {:induction false} RoundTrip(x: WhenNamedTimezone, t: string)
    requires IsName(x.region) && IsName(x.city) && !StartsWithNameChar(t)
    ensures Parse(Text(x) + t) == Ok(x, t)
  {
    assert Text(x) + t == x.region + ("/" + (x.city + t));
    assert ("/" + (x.city + t))[0] == '/';
    NameOf(x.region, "/" + (x.city + t));
    LiteralOf("/", x.city + t);
    NameOf(x.city, t);
  }

  /** Input not starting with a name fails with `TakeWhile1` at the input. */
  lemma NoRegion(s: string)
    requires !StartsWithNameChar(s)
    ensures Parse(s) == Fail(ParseError(s, ErrorKind.TakeWhile1))
  {
  }

  /** A name not followed by `/` fails with `Tag` right after the name. */
  lemma {:induction false} NoSlash(w: string, u: string)
    requires IsName(w) && !StartsWithNameChar(u) && !("/" <= u)
    ensures Parse(w + u) == Fail(ParseError(u, Tag))
  {
    NameOf(w, u);
  }

  /** A `/` with no name after it fails with `TakeWhile1` after the `/`. */
  lemma {:induction false} NoCity(w: string, u: string)
    requires IsName(w) && !StartsWithNameChar(u)
    ensures Parse(w + ("/" + u)) == Fail(ParseError(u, ErrorKind.TakeWhile1))
  {
    assert ("/" + u)[0] == '/';
    NameOf(w, "/" + u);
    LiteralOf("/", u);
  }

  /** Test vector: `Africa/Addis_Ababa`. */
  lemma AddisVector()
    ensures Parse("Africa/Addis_Ababa") == Ok(WhenNamedTimezone("Africa", "Addis_Ababa"), "")
  {
    var x := WhenNamedTimezone("Africa", "Addis_Ababa");
    assert IsName(x.region) && IsName(x.city);
    assert Text(x) + "" == "Africa/Addis_Ababa";
    RoundTrip(x, "");
  }

  /** Test vector: `Europe/London`. */
  lemma LondonVector()
    ensures Parse("Europe/London") == Ok(WhenNamedTimezone("Europe", "London"), "")
  {
    var x := WhenNamedTimezone("Europe", "London");
    assert IsName(x.region) && IsName(x.city);
    assert Text(x) + "" == "Europe/London";
    RoundTrip(x, "");
  }

  /** Test vector: `America/New_York`. */
  lemma NewYorkVector()
    ensures Parse("America/New_York") == Ok(WhenNamedTimezone("America", "New_York"), "")
  {
    var x := WhenNamedTimezone("America", "New_York");
    assert IsName(x.region) && IsName(x.city);
    assert Text(x) + "" == "America/New_York";
    RoundTrip(x, "");
  }

  /** Test vector: `unknown` is a name with no `/`, failing with `Tag` at the
      end of the input. */
  lemma UnknownFails()
    ensures Parse("unknown") == Fail(ParseError("", Tag))
  {
    assert IsName("unknown");
    assert "unknown" + "" == "unknown";
    NoSlash("unknown", "");
  }
}
