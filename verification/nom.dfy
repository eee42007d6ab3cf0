/** The parser-combinator vocabulary the grammar is built from, over `string`
    (a `seq<char>`): a parser maps its input to a value and the unconsumed rest,
    or to an error naming the input where it failed and the kind of failure.
    Every parser here is complete (no partial-input mode), so the only failures
    are recoverable errors, the ones `alt` backtracks over. */
module Nom {

  /** Unsigned machine integers of the source, as subset types. */
  type u8 = x: int | 0 <= x < 0x100
  type u32 = x: int | 0 <= x < 0x1_0000_0000

  const U8_MAX: nat := 0xFF
  const U32_MAX: nat := 0xFFFF_FFFF

  /** The error kinds the grammar can produce: a literal that did not match,
      an empty digit run, a digit run too large for its integer type, a value
      rejected by a range check, missing whitespace, an empty name run, and
      trailing input where the end was required. */
  datatype ErrorKind = Tag | Digit | MapRes | Verify | Space | TakeWhile1 | Eof

  datatype ParseError = ParseError(input: string, kind: ErrorKind)

  /** The outcome of running a parser: a value with the rest of the input, or
      an error. Usable with `:-`, which stops at the first failing step. */
  datatype Parsed<+T> = Ok(value: T, rest: string) | Fail(error: ParseError) {

    predicate IsFailure() {
      Fail?
    }

    function PropagateFailure<U>(): Parsed<U>
      requires Fail?
    {
      Fail(error)
    }

    function Extract(): (T, string)
      requires Ok?
    {
      (value, rest)
    }
  }

  /** `r` is what is left of `s` after a prefix of it has been consumed. */
  ghost predicate IsSuffix(r: string, s: string) {
    |r| <= |s| && s[|s| - |r|..] == r
  }

  /** Ordered choice of two alternatives: the first success wins, and when
      both fail the error of the second is reported. Nested to the right it
      gives nom's `alt` over a tuple, which keeps the last branch's error. */
  function Alt<T>(first: Parsed<T>, second: Parsed<T>): (r: Parsed<T>)
    ensures first.Ok? ==> r == first
    ensures first.Fail? ==> r == second
  {
    if first.Ok? then first else second
  }

  /** Grouping the branches of an ordered choice does not change it, so a
      tuple `alt((a, b, c))` may be split at any point. */
  lemma AltAssociative<T>(a: Parsed<T>, b: Parsed<T>, c: Parsed<T>)
    ensures Alt(Alt(a, b), c) == Alt(a, Alt(b, c))
  {
  }

  /** A choice between two mapped readings: the first reading mapped when it
      succeeds, else the second mapped, else the second's error. */
  lemma AltMap<T, U>(a: Parsed<T>, f: T -> U, b: Parsed<T>, g: T -> U)
    ensures a.Ok? ==> Alt(Map(a, f), Map(b, g)) == Ok(f(a.value), a.rest)
    ensures a.Fail? && b.Ok? ==> Alt(Map(a, f), Map(b, g)) == Ok(g(b.value), b.rest)
    ensures a.Fail? && b.Fail? ==> Alt(Map(a, f), Map(b, g)) == Fail(b.error)
  {
  }

  /** `map(p, f)`: the value of a success passed through `f`. */
  function Map<T, U>(p: Parsed<T>, f: T -> U): (r: Parsed<U>)
    ensures r.Ok? <==> p.Ok?
    ensures r.Ok? ==> r.value == f(p.value) && r.rest == p.rest
    ensures r.Fail? ==> r.error == p.error
  {
    match p
    case Ok(v, rest) => Ok(f(v), rest)
    case Fail(e) => Fail(e)
  }

  /** `tag(t)`: case-sensitive literal prefix. */
  function Literal(t: string, s: string): (r: Parsed<string>)
    ensures r.Ok? <==> t <= s
    ensures r.Ok? ==> r.value == t && s == t + r.rest
    ensures r.Fail? ==> r.error == ParseError(s, Tag)
  {
    if t <= s then Ok(t, s[|t|..]) else Fail(ParseError(s, Tag))
  }

  /** `map(tag(t), |_| v)`: reads exactly when the input starts with the
      literal, giving `v` and consuming just the literal. */
  function LiteralAs<T>(t: string, v: T, s: string): (r: Parsed<T>)
    ensures r.Ok? <==> t <= s
    ensures r.Ok? ==> r.value == v && s == t + r.rest
    ensures r.Fail? ==> r.error == ParseError(s, Tag)
  {
    if t <= s then Ok(v, s[|t|..]) else Fail(ParseError(s, Tag))
  }

  /** `LiteralAs` is `tag` mapped to a constant, on every input. */
  lemma LiteralAsIsMap<T>(t: string, v: T, s: string)
    ensures LiteralAs(t, v, s) == Map(Literal(t, s), _ => v)
  {
  }

  predicate IsDigit(c: char) {
    '0' <= c <= '9'
  }

  /** The characters `space0` and `space1` accept. */
  predicate IsSpace(c: char) {
    c == ' ' || c == '\t'
  }

  predicate StartsWithDigit(s: string) {
    |s| > 0 && IsDigit(s[0])
  }

  predicate StartsWithSpace(s: string) {
    |s| > 0 && IsSpace(s[0])
  }

  predicate AllDigits(ds: string) {
    forall i :: 0 <= i < |ds| ==> IsDigit(ds[i])
  }

  /** A possibly empty run of spaces and tabs: what `space0` consumes. */
  predicate IsBlank(gap: string) {
    forall i :: 0 <= i < |gap| ==> IsSpace(gap[i])
  }

  /** A non-empty run of spaces and tabs: what `space1` consumes. */
  predicate IsGap(gap: string) {
    |gap| > 0 && IsBlank(gap)
  }

  predicate IsLetter(c: char) {
    'a' <= c <= 'z' || 'A' <= c <= 'Z'
  }

  predicate StartsWithLetter(s: string) {
    |s| > 0 && IsLetter(s[0])
  }

  /** The length of the longest prefix of `s` whose characters all satisfy `p`. */
  function RunLength(s: string, p: char -> bool): (n: nat)
    ensures n <= |s|
    ensures forall i :: 0 <= i < n ==> p(s[i])
    ensures n < |s| ==> !p(s[n])
  {
    if |s| == 0 || !p(s[0]) then 0 else 1 + RunLength(s[1..], p)
  }

  /** `take_while1(p)`: a maximal non-empty run of `p`-characters; an empty
      run fails with `kind` at the input. */
  function TakeRun(s: string, p: char -> bool, kind: ErrorKind): (r: Parsed<string>)
    ensures r.Ok? <==> |s| > 0 && p(s[0])
    ensures r.Ok? ==> |r.value| > 0 && s == r.value + r.rest
    ensures r.Ok? ==> (forall i :: 0 <= i < |r.value| ==> p(r.value[i])) && (|r.rest| == 0 || !p(r.rest[0]))
    ensures r.Fail? ==> r.error == ParseError(s, kind)
  {
    var n := RunLength(s, p);
    if n == 0 then Fail(ParseError(s, kind)) else Ok(s[..n], s[n..])
  }

  /** `digit1`: a maximal non-empty run of ASCII digits. */
  function Digit1(s: string): (r: Parsed<string>)
    ensures r.Ok? <==> StartsWithDigit(s)
    ensures r.Ok? ==> |r.value| > 0 && AllDigits(r.value) && s == r.value + r.rest && !StartsWithDigit(r.rest)
    ensures r.Fail? ==> r.error == ParseError(s, Digit)
  {
    TakeRun(s, IsDigit, Digit)
  }

  /** `space1`: a maximal non-empty run of spaces and tabs. */
  function Space1(s: string): (r: Parsed<string>)
    ensures r.Ok? <==> StartsWithSpace(s)
    ensures r.Ok? ==> IsGap(r.value) && s == r.value + r.rest && !StartsWithSpace(r.rest)
    ensures r.Fail? ==> r.error == ParseError(s, Space)
  {
    TakeRun(s, IsSpace, Space)
  }

  /** `space0`: a maximal, possibly empty run of spaces and tabs; never fails. */
  function Space0(s: string): (r: Parsed<string>)
    ensures r.Ok? && IsBlank(r.value) && s == r.value + r.rest && !StartsWithSpace(r.rest)
  {
    var n := RunLength(s, IsSpace);
    Ok(s[..n], s[n..])
  }

  /** `eof`: succeeds only on the empty input. */
  function EndOfInput(s: string): (r: Parsed<string>)
    ensures r.Ok? <==> s == ""
    ensures r.Ok? ==> r.rest == ""
    ensures r.Fail? ==> r.error == ParseError(s, Eof)
  {
    if |s| == 0 then Ok(s, s) else Fail(ParseError(s, Eof))
  }

  function DigitValue(c: char): nat
    requires IsDigit(c)
  {
    c as int - '0' as int
  }

  function DigitChar(d: nat): (c: char)
    requires d < 10
    ensures IsDigit(c) && DigitValue(c) == d
  {
    ('0' as int + d) as char
  }

  /** The decimal value of a digit string, leading zeros allowed, as Rust's
      `str::parse` computes it before any overflow check. */
  function Value(ds: string): nat
    requires AllDigits(ds)
  {
    if |ds| == 0 then 0 else 10 * Value(ds[..|ds| - 1]) + DigitValue(ds[|ds| - 1])
  }

  /** The shortest decimal spelling of `n`: the printer the parsers invert. */
  function Decimal(n: nat): (ds: string)
    ensures |ds| > 0 && AllDigits(ds)
    ensures Value(ds) == n
  {
    if n < 10 then
      [DigitChar(n)]
    else
      var init := Decimal(n / 10);
      var ds := init + [DigitChar(n % 10)];
      assert ds[..|ds| - 1] == init;
      ds
  }

  /** `map_res(digit1, |s| s.parse::<u8>())`: a digit run whose value does
      not fit in a `u8` fails with `MapRes` at the input. */
  function U8(s: string): (r: Parsed<u8>)
    ensures r.Ok? ==> Digit1(s).Ok? && r.value == Value(Digit1(s).value) && r.rest == Digit1(s).rest
    ensures r.Fail? ==> r.error.input == s
    ensures Digit1(s).Ok? ==> (r.Fail? <==> Value(Digit1(s).value) > U8_MAX)
    ensures !StartsWithDigit(s) ==> r == Fail(ParseError(s, Digit))
  {
    var (ds, rest) :- Digit1(s);
    if Value(ds) <= U8_MAX then Ok(Value(ds), rest) else Fail(ParseError(s, MapRes))
  }

  /** `map_res(digit1, |s| s.parse::<u32>())`. */
  function U32(s: string): (r: Parsed<u32>)
    ensures r.Ok? ==> Digit1(s).Ok? && r.value == Value(Digit1(s).value) && r.rest == Digit1(s).rest
    ensures r.Fail? ==> r.error.input == s
    ensures Digit1(s).Ok? ==> (r.Fail? <==> Value(Digit1(s).value) > U32_MAX)
    ensures !StartsWithDigit(s) ==> r == Fail(ParseError(s, Digit))
  {
    var (ds, rest) :- Digit1(s);
    if Value(ds) <= U32_MAX then Ok(Value(ds), rest) else Fail(ParseError(s, MapRes))
  }

  /** `verify(map_res(digit1, u8), |v| lo <= v <= hi)`: the range check runs
      only after the `u8` conversion succeeded, and a rejected value fails
      with `Verify` at the start of the digit run. */
  function BoundedU8(s: string, lo: u8, hi: u8): (r: Parsed<u8>)
    ensures r.Ok? ==> lo <= r.value <= hi
    ensures r.Ok? ==> StartsWithDigit(s) && IsSuffix(r.rest, s) && |r.rest| < |s|
    ensures r.Ok? ==> !StartsWithDigit(r.rest)
    ensures r.Fail? ==> r.error.input == s
    ensures !StartsWithDigit(s) ==> r == Fail(ParseError(s, Digit))
  {
    var (v, rest) :- U8(s);
    if lo <= v <= hi then Ok(v, rest) else Fail(ParseError(s, Verify))
  }

  /** A maximal run `p` followed by a character outside `p` is measured exactly. */
  lemma {:induction false} RunLengthOf(u: string, t: string, p: char -> bool)
    requires forall i :: 0 <= i < |u| ==> p(u[i])
    requires |t| == 0 || !p(t[0])
    ensures RunLength(u + t, p) == |u|
    decreases |u|
  {
    if |u| > 0 {
      assert (u + t)[1..] == u[1..] + t;
      RunLengthOf(u[1..], t, p);
    } else {
      assert u + t == t;
    }
  }

  /** `digit1` on digits followed by a non-digit consumes exactly the digits. */
  lemma Digit1Of(ds: string, t: string)
    requires |ds| > 0 && AllDigits(ds) && !StartsWithDigit(t)
    ensures Digit1(ds + t) == Ok(ds, t)
  {
    RunLengthOf(ds, t, IsDigit);
    assert (ds + t)[..|ds|] == ds;
    assert (ds + t)[|ds|..] == t;
  }

  /** `space1` on a gap followed by a non-space consumes exactly the gap. */
  lemma Space1Of(gap: string, t: string)
    requires IsGap(gap) && !StartsWithSpace(t)
    ensures Space1(gap + t) == Ok(gap, t)
  {
    RunLengthOf(gap, t, IsSpace);
    assert (gap + t)[..|gap|] == gap;
    assert (gap + t)[|gap|..] == t;
  }

  /** `space0` consumes a (possibly empty) gap followed by a non-space. */
  lemma Space0Of(gap: string, t: string)
    requires IsBlank(gap)
    requires !StartsWithSpace(t)
    ensures Space0(gap + t) == Ok(gap, t)
  {
    RunLengthOf(gap, t, IsSpace);
    assert (gap + t)[..|gap|] == gap;
    assert (gap + t)[|gap|..] == t;
  }

  /** `space1` fails on input that does not start with a space or tab. */
  lemma Space1Fails(s: string)
    requires !StartsWithSpace(s)
    ensures Space1(s) == Fail(ParseError(s, Space))
  {
  }

  /** Every input splits into its leading digit run and the rest, and the
      bounded `u8` scanner is decided by the run's decimal value alone: too
      large for `u8` is `MapRes`, out of range is `Verify`, both at the start;
      otherwise the value is returned and exactly the run is consumed. */
  lemma {:induction false} BoundedU8Of(ds: string, t: string, lo: u8, hi: u8)
    requires |ds| > 0 && AllDigits(ds) && !StartsWithDigit(t)
    ensures BoundedU8(ds + t, lo, hi) ==
      if Value(ds) > U8_MAX then Fail(ParseError(ds + t, MapRes))
      else if lo <= Value(ds) <= hi then Ok(Value(ds), t)
      else Fail(ParseError(ds + t, Verify))
  {
    Digit1Of(ds, t);
  }

  /** The shortest decimal spelling of an in-range value reads back as that value. */
  lemma DecimalU8(n: u8, t: string, lo: u8, hi: u8)
    requires lo <= n <= hi && !StartsWithDigit(t)
    ensures BoundedU8(Decimal(n) + t, lo, hi) == Ok(n, t)
  {
    BoundedU8Of(Decimal(n), t, lo, hi);
  }

  /** Same for the unbounded `u32` scanner: every `u32` value reads back. */
  lemma {:induction false} DecimalU32(n: u32, t: string)
    requires !StartsWithDigit(t)
    ensures U32(Decimal(n) + t) == Ok(n, t)
  {
    Digit1Of(Decimal(n), t);
  }

  /** `u32` reading of any digit run: its value, or `MapRes` above `u32::MAX`. */
  lemma {:induction false} U32Of(ds: string, t: string)
    requires |ds| > 0 && AllDigits(ds) && !StartsWithDigit(t)
    ensures U32(ds + t) ==
      if Value(ds) > U32_MAX then Fail(ParseError(ds + t, MapRes)) else Ok(Value(ds), t)
  {
    Digit1Of(ds, t);
  }

  /** A literal followed by anything is matched and consumed. */
  lemma LiteralOf(w: string, t: string)
    ensures Literal(w, w + t) == Ok(w, t)
  {
    assert (w + t)[..|w|] == w;
    assert (w + t)[|w|..] == t;
  }

  /** Likewise for a literal standing for a value. */
  lemma LiteralAsOf<T>(w: string, v: T, t: string)
    ensures LiteralAs(w, v, w + t) == Ok(v, t)
  {
    assert (w + t)[..|w|] == w;
    assert (w + t)[|w|..] == t;
  }

  /** Consuming in two steps consumes a suffix of the original input. */
  lemma SuffixTrans(a: string, b: string, c: string)
    requires IsSuffix(b, a) && IsSuffix(c, b)
    ensures IsSuffix(c, a)
  {
    assert a[|a| - |c|..] == a[|a| - |b|..][|b| - |c|..];
  }
}
