/** Text as sequences of UTF-16 code units, and the quoting JSON.stringify applies to a string
    (packages/contracts/src/json.ts canonicalizes with it): section 9 of ECMA-404, with lone
    surrogates escaped as ECMA-262 asks (well-formed JSON.stringify). */
module JsonText {
  type Unit = n: int | 0 <= n < 0x1_0000

  type Text = seq<Unit>

  const QUOTE: Unit := 0x22
  const BACKSLASH: Unit := 0x5c

  predicate High(u: Unit) { 0xd800 <= u < 0xdc00 }

  predicate Low(u: Unit) { 0xdc00 <= u < 0xe000 }

  function HexDigit(n: int): Unit
    requires 0 <= n < 16
  {
    if n < 10 then 0x30 + n else 0x57 + n
  }

  function HexEscape(u: Unit): Text {
    [BACKSLASH, 0x75, HexDigit(u / 0x1000), HexDigit(u / 0x100 % 0x10), HexDigit(u / 0x10 % 0x10), HexDigit(u % 0x10)]
  }

  /** The letter after the backslash in a short escape: b, t, n, f, r, the quote and the backslash. */
  function ShortEscape(u: Unit): (letter: Unit) {
    if u == 0x8 then 0x62
    else if u == 0x9 then 0x74
    else if u == 0xa then 0x6e
    else if u == 0xc then 0x66
    else if u == 0xd then 0x72
    else u
  }

  predicate Short(u: Unit) {
    u == 0x8 || u == 0x9 || u == 0xa || u == 0xc || u == 0xd || u == QUOTE || u == BACKSLASH
  }

  /** What a unit outside any surrogate pair becomes. */
  function Emit(u: Unit): Text {
    if Short(u) then [BACKSLASH, ShortEscape(u)]
    else if u < 0x20 || High(u) || Low(u) then HexEscape(u)
    else [u]
  }

  predicate PairFirst(s: Text) {
    |s| > 1 && High(s[0]) && Low(s[1])
  }

  function Body(s: Text): Text {
    if s == [] then []
    else if PairFirst(s) then [s[0], s[1]] + Body(s[2..])
    else Emit(s[0]) + Body(s[1..])
  }

  function Quote(s: Text): Text {
    [QUOTE] + Body(s) + [QUOTE]
  }

  lemma HexValue(u: Unit)
    ensures u == 0x1000 * (u / 0x1000) + 0x100 * (u / 0x100 % 0x10) + 0x10 * (u / 0x10 % 0x10) + u % 0x10
  {
    var a, b := u / 0x10, u / 0x100;
    assert u == 0x10 * a + u % 0x10;
    assert a / 0x10 == b && a == 0x10 * b + a % 0x10;
    assert b / 0x10 == u / 0x1000 && b == 0x10 * (b / 0x10) + b % 0x10;
  }

  lemma DigitInjective(m: int, n: int)
    requires 0 <= m < 16 && 0 <= n < 16 && HexDigit(m) == HexDigit(n)
    ensures m == n
  {
  }

  lemma HexInjective(u: Unit, v: Unit)
    requires HexEscape(u) == HexEscape(v)
    ensures u == v
  {
    var x, y := HexEscape(u), HexEscape(v);
    assert x[2] == y[2] && x[3] == y[3] && x[4] == y[4] && x[5] == y[5];
    DigitInjective(u / 0x1000, v / 0x1000);
    DigitInjective(u / 0x100 % 0x10, v / 0x100 % 0x10);
    DigitInjective(u / 0x10 % 0x10, v / 0x10 % 0x10);
    DigitInjective(u % 0x10, v % 0x10);
    HexValue(u);
    HexValue(v);
  }

  /** No emitted form is the beginning of another. */
  lemma EmitCut(u: Unit, v: Unit, r: Text, q: Text)
    requires Emit(u) + r == Emit(v) + q
    ensures u == v && r == q
  {
    var x, y := Emit(u) + r, Emit(v) + q;
    assert x[0] == y[0];
    if x[0] == BACKSLASH {
      assert x[1] == y[1];
      assert |Emit(u)| == |Emit(v)|;
    }
    var n := |Emit(u)|;
    assert Emit(u) == x[..n] && Emit(v) == y[..n];
    assert r == x[n..] && q == y[n..];
    if !Short(u) && x[0] == BACKSLASH {
      HexInjective(u, v);
    }
  }

  /** The first emitted form of a string, and how many units of it that form stands for. */
  function Lead(s: Text): (n: nat)
    requires s != []
    ensures 1 <= n <= |s|
  {
    if PairFirst(s) then 2 else 1
  }

  function LeadText(s: Text): Text
    requires s != []
  {
    if PairFirst(s) then [s[0], s[1]] else Emit(s[0])
  }

  lemma LeadCut(s: Text, t: Text, r: Text, q: Text)
    requires s != [] && t != [] && LeadText(s) + r == LeadText(t) + q
    ensures Lead(s) == Lead(t) && s[..Lead(s)] == t[..Lead(t)] && r == q
  {
    var x, y := LeadText(s) + r, LeadText(t) + q;
    assert x[0] == y[0];
    if PairFirst(s) {
      assert x[1] == y[1];
      assert r == x[2..] && q == y[2..];
    } else {
      EmitCut(s[0], t[0], r, q);
    }
  }

  lemma LeadIsNoQuote(s: Text, r: Text)
    requires s != []
    ensures (LeadText(s) + r)[0] != QUOTE
  {
  }

  lemma BodyLead(s: Text, r: Text)
    requires s != []
    ensures Body(s) + [QUOTE] + r == LeadText(s) + (Body(s[Lead(s)..]) + [QUOTE] + r)
  {
  }

  /** A quoted string ends where its quoting says, and determines the string. */
  lemma {:induction false} BodyCut(s: Text, t: Text, r: Text, q: Text)
    requires Body(s) + [QUOTE] + r == Body(t) + [QUOTE] + q
    ensures s == t && r == q
    decreases |s|
  {
    if s == [] && t == [] {
      assert r == ([QUOTE] + r)[1..] && q == ([QUOTE] + q)[1..];
      assert Body(s) + [QUOTE] + r == [QUOTE] + r && Body(t) + [QUOTE] + q == [QUOTE] + q;
    } else if s == [] {
      BodyLead(t, q);
      LeadIsNoQuote(t, Body(t[Lead(t)..]) + [QUOTE] + q);
    } else if t == [] {
      BodyLead(s, r);
      LeadIsNoQuote(s, Body(s[Lead(s)..]) + [QUOTE] + r);
    } else {
      BodyLead(s, r);
      BodyLead(t, q);
      LeadCut(s, t, Body(s[Lead(s)..]) + [QUOTE] + r, Body(t[Lead(t)..]) + [QUOTE] + q);
      BodyCut(s[Lead(s)..], t[Lead(t)..], r, q);
      assert s == s[..Lead(s)] + s[Lead(s)..] && t == t[..Lead(t)] + t[Lead(t)..];
    }
  }

  lemma QuoteCut(s: Text, t: Text, r: Text, q: Text)
    requires Quote(s) + r == Quote(t) + q
    ensures s == t && r == q
  {
    var x, y := Quote(s) + r, Quote(t) + q;
    assert x[1..] == Body(s) + [QUOTE] + r;
    assert y[1..] == Body(t) + [QUOTE] + q;
    BodyCut(s, t, r, q);
  }

  /** Every surrogate is part of a pair, so that UTF-8 can carry the text without replacement. */
  predicate WellFormed(s: Text) {
    s == [] ||
    if PairFirst(s) then WellFormed(s[2..]) else !High(s[0]) && !Low(s[0]) && WellFormed(s[1..])
  }

  lemma {:induction false} WellFormedAppend(s: Text, t: Text)
    requires WellFormed(s) && WellFormed(t)
    ensures WellFormed(s + t)
    decreases |s|
  {
    if s == [] {
      assert s + t == t;
    } else {
      var n := if PairFirst(s) then 2 else 1;
      WellFormedAppend(s[n..], t);
      assert (s + t)[n..] == s[n..] + t;
    }
  }

  lemma EmitWellFormed(u: Unit)
    ensures WellFormed(Emit(u))
  {
    PlainWellFormed(Emit(u));
  }

  lemma {:induction false} PlainWellFormed(s: Text)
    requires forall u :: u in s ==> !High(u) && !Low(u)
    ensures WellFormed(s)
    decreases |s|
  {
    if s != [] {
      assert s[0] in s;
      PlainWellFormed(s[1..]);
    }
  }

  lemma {:induction false} QuoteWellFormed(s: Text)
    ensures WellFormed(Quote(s))
  {
    BodyWellFormed(s);
    PlainWellFormed([QUOTE]);
    WellFormedAppend([QUOTE], Body(s));
    WellFormedAppend([QUOTE] + Body(s), [QUOTE]);
  }

  lemma {:induction false} BodyWellFormed(s: Text)
    ensures WellFormed(Body(s))
    decreases |s|
  {
    if s == [] {
    } else if PairFirst(s) {
      BodyWellFormed(s[2..]);
      WellFormedAppend([s[0], s[1]], Body(s[2..]));
    } else {
      BodyWellFormed(s[1..]);
      EmitWellFormed(s[0]);
      WellFormedAppend(Emit(s[0]), Body(s[1..]));
    }
  }

  /** The bytes UTF-8 takes for a text; a lone surrogate is replaced by U+FFFD, three bytes. */
  function Utf8Length(s: Text): nat {
    if s == [] then 0
    else if PairFirst(s) then 4 + Utf8Length(s[2..])
    else (if s[0] < 0x80 then 1 else if s[0] < 0x800 then 2 else 3) + Utf8Length(s[1..])
  }

  // Keys are ordered by their code units.

  predicate Less(a: Text, b: Text) {
    b != [] && (a == [] || a[0] < b[0] || (a[0] == b[0] && Less(a[1..], b[1..])))
  }

  lemma {:induction false} LessIsStrict(a: Text)
    ensures !Less(a, a)
    decreases |a|
  {
    if a != [] {
      LessIsStrict(a[1..]);
    }
  }

  lemma {:induction false} LessTransitive(a: Text, b: Text, c: Text)
    requires Less(a, b) && Less(b, c)
    ensures Less(a, c)
    decreases |a|
  {
    if a != [] && a[0] == b[0] && b[0] == c[0] {
      LessTransitive(a[1..], b[1..], c[1..]);
    }
  }

  lemma {:induction false} LessTotal(a: Text, b: Text)
    requires a != b
    ensures Less(a, b) || Less(b, a)
    decreases |a|
  {
    if a != [] && b != [] && a[0] == b[0] {
      assert a == [a[0]] + a[1..] && b == [b[0]] + b[1..];
      LessTotal(a[1..], b[1..]);
    }
  }
}
