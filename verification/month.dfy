/** Month names, abbreviated or in full, capitalised or lower case
    (src/month.rs). */
module Months {
  import opened Nom

  datatype Month =
    January | February | March | April | May | June |
    July | August | September | October | November | December

  /** How a month name is spelled: capitalised or all lower case. */
  datatype Casing = Capitalized | Lower

  /** The three-letter abbreviation of a month in a casing. */
  function Abbrev(m: Month, casing: Casing): (w: string)
    ensures |w| == 3
  {
    match (m, casing)
    case (January, Capitalized) => "Jan"
    case (January, Lower) => "jan"
    case (February, Capitalized) => "Feb"
    case (February, Lower) => "feb"
    case (March, Capitalized) => "Mar"
    case (March, Lower) => "mar"
    case (April, Capitalized) => "Apr"
    case (April, Lower) => "apr"
    case (May, Capitalized) => "May"
    case (May, Lower) => "may"
    case (June, Capitalized) => "Jun"
    case (June, Lower) => "jun"
    case (July, Capitalized) => "Jul"
    case (July, Lower) => "jul"
    case (August, Capitalized) => "Aug"
    case (August, Lower) => "aug"
    case (September, Capitalized) => "Sep"
    case (September, Lower) => "sep"
    case (October, Capitalized) => "Oct"
    case (October, Lower) => "oct"
    case (November, Capitalized) => "Nov"
    case (November, Lower) => "nov"
    case (December, Capitalized) => "Dec"
    case (December, Lower) => "dec"
  }

  /** The full name of a month in a casing; it begins with the abbreviation,
      and for May the two coincide. */
  function Full(m: Month, casing: Casing): (w: string)
    ensures |w| >= 3 && w[..3] == Abbrev(m, casing)
    ensures m == May <==> w == Abbrev(m, casing)
  {
    match (m, casing)
    case (January, Capitalized) => "January"
    case (January, Lower) => "january"
    case (February, Capitalized) => "February"
    case (February, Lower) => "february"
    case (March, Capitalized) => "March"
    case (March, Lower) => "march"
    case (April, Capitalized) => "April"
    case (April, Lower) => "april"
    case (May, Capitalized) => "May"
    case (May, Lower) => "may"
    case (June, Capitalized) => "June"
    case (June, Lower) => "june"
    case (July, Capitalized) => "July"
    case (July, Lower) => "july"
    case (August, Capitalized) => "August"
    case (August, Lower) => "august"
    case (September, Capitalized) => "September"
    case (September, Lower) => "september"
    case (October, Capitalized) => "October"
    case (October, Lower) => "october"
    case (November, Capitalized) => "November"
    case (November, Lower) => "november"
    case (December, Capitalized) => "December"
    case (December, Lower) => "december"
  }

  /** One month's alternatives in the source's order: `Xxx`, `xxx`, then
      `Full`, `full` (May has only `May` and `may`). A full name begins with
      its abbreviation, so a success always comes from an abbreviation. */
  function AbbrevFirst(m: Month, s: string): (r: Parsed<Month>)
    ensures r.Ok? ==> r.value == m && |s| >= 3 && r.rest == s[3..]
    ensures r.Ok? ==> s[..3] == Abbrev(m, Capitalized) || s[..3] == Abbrev(m, Lower)
    ensures r.Fail? ==> r.error == ParseError(s, Tag)
  {
    if m == May then
      Alt(LiteralAs("May", May, s), LiteralAs("may", May, s))
    else
      Alt(LiteralAs(Abbrev(m, Capitalized), m, s),
      Alt(LiteralAs(Abbrev(m, Lower), m, s),
      Alt(LiteralAs(Full(m, Capitalized), m, s),
          LiteralAs(Full(m, Lower), m, s))))
  }

  /** The months in the order the source tries them. */
  const Order: seq<Month> :=
    [January, February, March, April, May, June, July, August, September, October, November, December]

  lemma InOrder(m: Month)
    ensures m in Order
  {
    match m
    case January => assert Order[0] == m;
    case February => assert Order[1] == m;
    case March => assert Order[2] == m;
    case April => assert Order[3] == m;
    case May => assert Order[4] == m;
    case June => assert Order[5] == m;
    case July => assert Order[6] == m;
    case August => assert Order[7] == m;
    case September => assert Order[8] == m;
    case October => assert Order[9] == m;
    case November => assert Order[10] == m;
    case December => assert Order[11] == m;
  }

  /** One month's alternatives: abbreviations first as written, or full
      names first. */
  function Try(m: Month, s: string, longest: bool): (r: Parsed<Month>)
    ensures r.Ok? ==> r.value == m
    ensures r.Fail? ==> r.error == ParseError(s, Tag)
  {
    if longest then FullFirst(m, s) else AbbrevFirst(m, s)
  }

  /** `alt` over the months `ms` in order: the first month that reads wins,
      and when all fail the error is the last one's `Tag` at the input. */
  function FirstMonth(ms: seq<Month>, s: string, longest: bool): (r: Parsed<Month>)
    requires |ms| > 0
    ensures r.Ok? ==> r.value in ms && r == Try(r.value, s, longest)
    ensures r.Fail? ==> r.error == ParseError(s, Tag)
    ensures r.Fail? <==> forall m :: m in ms ==> Try(m, s, longest).Fail?
    decreases |ms|
  {
    if |ms| == 1 then Try(ms[0], s, longest)
    else Alt(Try(ms[0], s, longest), FirstMonth(ms[1..], s, longest))
  }

  /** When exactly one month of `ms` reads, `alt` yields that month's
      reading. */
  lemma {:induction false} OnlyOneReads(ms: seq<Month>, s: string, longest: bool, m: Month)
    requires m in ms && Try(m, s, longest).Ok?
    requires forall m' :: m' in ms && m' != m ==> Try(m', s, longest).Fail?
    ensures FirstMonth(ms, s, longest) == Try(m, s, longest)
    decreases |ms|
  {
    if ms[0] != m {
      assert m in ms[1..];
      OnlyOneReads(ms[1..], s, longest, m);
    }
  }

  /** `Month::parse` as written: the months tried January to December. A
      success consumes exactly three characters, which spell the month's
      abbreviation; every failure is a `Tag` error at the input. */
  function Parse(s: string): (r: Parsed<Month>)
    ensures r.Ok? ==> |s| >= 3 && r.rest == s[3..]
    ensures r.Ok? ==> s[..3] == Abbrev(r.value, Capitalized) || s[..3] == Abbrev(r.value, Lower)
    ensures r.Fail? ==> r.error == ParseError(s, Tag)
  {
    FirstMonth(Order, s, false)
  }

  /** No two months share an abbreviation, in either casing. */
  lemma AbbrevInjective(m: Month, c: Casing, m': Month, c': Casing)
    requires Abbrev(m, c) == Abbrev(m', c')
    ensures m == m'
  {
  }

  /** The two casings of an abbreviation differ in the initial. */
  lemma CasingsDiffer(m: Month)
    ensures Abbrev(m, Capitalized)[0] != Abbrev(m, Lower)[0]
  {
  }

  /** No abbreviation begins with `u`. */
  lemma AbbrevInitial(m: Month)
    ensures Abbrev(m, Capitalized)[0] != 'u' && Abbrev(m, Lower)[0] != 'u'
  {
  }

  /** Any input starting with a month's abbreviation reads as that month and
      only the abbreviation is consumed. */
  lemma AbbrevOf(m: Month, casing: Casing, s: string)
    requires Abbrev(m, casing) <= s
    ensures Parse(s) == Ok(m, s[3..])
  {
    assert s[..3] == Abbrev(m, casing);
    forall m' | m' != m ensures AbbrevFirst(m', s).Fail? {
      if AbbrevFirst(m', s).Ok? {
        if s[..3] == Abbrev(m', Capitalized) {
          AbbrevInjective(m, casing, m', Capitalized);
        } else {
          AbbrevInjective(m, casing, m', Lower);
        }
      }
    }
    assert AbbrevFirst(m, s) == Ok(m, s[3..]);
    InOrder(m);
    OnlyOneReads(Order, s, false, m);
  }

  lemma AbbrevRoundTrip(m: Month, casing: Casing, t: string)
    ensures Parse(Abbrev(m, casing) + t) == Ok(m, t)
  {
    var s := Abbrev(m, casing) + t;
    assert Abbrev(m, casing) <= s;
    AbbrevOf(m, casing, s);
    assert s[3..] == t;
  }

  /** Whatever follows an abbreviation's three letters is left over. */
  lemma AbbrevThen(m: Month, casing: Casing, w: string, t: string)
    requires |w| >= 3 && w[..3] == Abbrev(m, casing)
    ensures Parse(w + t) == Ok(m, w[3..] + t)
  {
    var s := w + t;
    SplitThree(w, t);
    AbbrevOf(m, casing, s);
  }

  /** The first three characters of `w + t` are those of `w`. */
  lemma SplitThree(w: string, t: string)
    requires |w| >= 3
    ensures w[..3] <= w + t && (w + t)[3..] == w[3..] + t
  {
  }

  /** A full name also yields its month, but only its first three letters
      are consumed: the rest of the name is left over. */
  lemma FullNameShadowed(m: Month, casing: Casing, t: string)
    ensures Parse(Full(m, casing) + t) == Ok(m, Full(m, casing)[3..] + t)
  {
    AbbrevThen(m, casing, Full(m, casing), t);
  }

  /** The outcome depends on the first three characters alone. */
  lemma FirstThreeDecide(s: string, s': string)
    requires |s| >= 3 && |s'| >= 3 && s[..3] == s'[..3]
    ensures Parse(s).Ok? <==> Parse(s').Ok?
    ensures Parse(s).Ok? ==> Parse(s').value == Parse(s).value
  {
    if Parse(s).Ok? {
      var m := Parse(s).value;
      var casing := if s[..3] == Abbrev(m, Capitalized) then Capitalized else Lower;
      AbbrevOf(m, casing, s');
    }
    if Parse(s').Ok? {
      var m := Parse(s').value;
      var casing := if s'[..3] == Abbrev(m, Capitalized) then Capitalized else Lower;
      AbbrevOf(m, casing, s);
    }
  }

  /** The full name `January` leaves `uary` behind. */
  lemma JanuaryLeavesRest()
    ensures Parse("January") == Ok(January, "uary")
  {
    AbbrevThen(January, Capitalized, "January", "");
    assert "January" + "" == "January";
    assert "January"[3..] + "" == "uary";
  }

  /** An abbreviation alone reads as its month, consuming it all. */
  lemma AbbrevAlone(m: Month, casing: Casing, s: string)
    requires s == Abbrev(m, casing)
    ensures Parse(s) == Ok(m, "")
  {
    AbbrevRoundTrip(m, casing, "");
    assert s + "" == s;
  }

  /** May has no longer name, so `may` is read whole. */
  lemma MayWhole()
    ensures Parse("may") == Ok(May, "")
  {
    AbbrevAlone(May, Lower, "may");
  }

  /** A word that begins with no abbreviation fails at the input. */
  lemma UnknownFails()
    ensures Parse("unknown") == Fail(ParseError("unknown", Tag))
  {
    var s := "unknown";
    assert s[..3][0] == 'u';
    forall m ensures AbbrevFirst(m, s).Fail? {
      AbbrevInitial(m);
    }
  }

  /** What a reading of month `m` with full names first consumed: a full
      name whole, or just an abbreviation. */
  predicate ReadsMonth(m: Month, s: string, rest: string) {
    |s| >= 3 && (s[..3] == Abbrev(m, Capitalized) || s[..3] == Abbrev(m, Lower)) &&
    ((Full(m, Capitalized) <= s && rest == s[|Full(m, Capitalized)|..]) ||
     (Full(m, Lower) <= s && rest == s[|Full(m, Lower)|..]) ||
     rest == s[3..])
  }

  /** One month's alternatives with the full names first: `Full`, `full`,
      `Xxx`, `xxx`. */
  function FullFirst(m: Month, s: string): (r: Parsed<Month>)
    ensures r.Ok? ==> r.value == m && ReadsMonth(m, s, r.rest)
    ensures r.Fail? ==> r.error == ParseError(s, Tag)
  {
    if m == May then
      Alt(LiteralAs("May", May, s), LiteralAs("may", May, s))
    else
      Alt(LiteralAs(Full(m, Capitalized), m, s),
      Alt(LiteralAs(Full(m, Lower), m, s),
      Alt(LiteralAs(Abbrev(m, Capitalized), m, s),
          LiteralAs(Abbrev(m, Lower), m, s))))
  }

  /** The month parser with each month's full names tried before its
      abbreviations, so a full name is consumed whole. */
  function ParseLongestFirst(s: string): (r: Parsed<Month>)
    ensures r.Ok? ==> r == FullFirst(r.value, s) && ReadsMonth(r.value, s, r.rest)
    ensures r.Fail? ==> r.error == ParseError(s, Tag)
  {
    FirstMonth(Order, s, true)
  }

  /** With full names first, the months other than `m` all fail on an input
      that starts with an abbreviation of `m`. */
  lemma OthersFail(m: Month, casing: Casing, s: string)
    requires Abbrev(m, casing) <= s
    ensures forall m' :: m' != m ==> FullFirst(m', s).Fail?
  {
    assert s[..3] == Abbrev(m, casing);
    forall m' | m' != m ensures FullFirst(m', s).Fail? {
      if FullFirst(m', s).Ok? {
        if s[..3] == Abbrev(m', Capitalized) {
          AbbrevInjective(m, casing, m', Capitalized);
        } else {
          AbbrevInjective(m, casing, m', Lower);
        }
      }
    }
  }

  /** With full names first, a full name followed by anything reads as its
      month and is consumed whole. */
  lemma FullNameRoundTrip(m: Month, casing: Casing, t: string)
    ensures ParseLongestFirst(Full(m, casing) + t) == Ok(m, t)
  {
    var w := Full(m, casing);
    var s := w + t;
    assert w <= s;
    assert Abbrev(m, casing) <= s;
    OthersFail(m, casing, s);
    assert s[|w|..] == t;
    assert FullFirst(m, s) == Ok(m, t);
    InOrder(m);
    OnlyOneReads(Order, s, true, m);
  }

  /** An abbreviation not continued by the rest of its full name still
      reads as its month. */
  lemma LongestFirstAbbrevOf(m: Month, casing: Casing, s: string)
    requires Abbrev(m, casing) <= s
    requires !(Full(m, casing) <= s)
    ensures ParseLongestFirst(s) == Ok(m, s[3..])
  {
    OthersFail(m, casing, s);
    var other := if casing == Capitalized then Lower else Capitalized;
    assert s[..3] == Abbrev(m, casing);
    CasingsDiffer(m);
    assert !(Abbrev(m, other) <= s);
    assert Full(m, other)[0] != s[0] by {
      assert Full(m, other)[..3][0] == Full(m, other)[0];
      assert s[..3][0] == s[0];
    }
    assert FullFirst(m, s) == Ok(m, s[3..]);
    InOrder(m);
    OnlyOneReads(Order, s, true, m);
  }
}
