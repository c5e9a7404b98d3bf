/** The canonical text of an accepted value can be read back in one way only. */
module CanonicalInjective {
  import opened Prelude
  import opened JsonText
  import opened CanonicalJson
  import opened CanonicalForm

  /** A value JSON can carry, with each key once in every object. */
  ghost predicate Carried(v: Json) {
    match v
    case Num(n) => n != NonFinite && IsValue(v)
    case Arr(items) => forall item :: item in items ==> Carried(item)
    case Obj(_, members) => DistinctKeys(members) && forall p :: p in members ==> Carried(p.value)
    case Unserializable => false
    case _ => true
  }

  lemma {:induction false} AcceptableIsCarried(v: Json, maxString: nat)
    requires IsValue(v) && Clean(v, maxString)
    ensures Carried(v)
  {
    match v {
      case Arr(items) =>
        forall item | item in items
          ensures Carried(item)
        {
          AcceptableIsCarried(item, maxString);
        }
      case Obj(_, members) =>
        forall p | p in members
          ensures Carried(p.value)
        {
          assert MemberClean(p, maxString);
          AcceptableIsCarried(p.value, maxString);
        }
      case _ =>
    }
  }

  /** What may follow a value inside a larger text. */
  predicate Ends(r: Text) {
    r == [] || r[0] == COMMA || r[0] == CLOSE_BRACKET || r[0] == CLOSE_BRACE
  }

  /** The first unit of its text tells the kind of a value. */
  predicate HeadOf(v: Json, u: Unit) {
    match v
    case Null => u == 0x6e
    case Bool(b) => u == if b then 0x74 else 0x66
    case Num(_) => 0x30 <= u <= 0x39 || u == 0x2d
    case Str(_) => u == QUOTE
    case Arr(_) => u == OPEN_BRACKET
    case Obj(_, _) => u == OPEN_BRACE
    case Unserializable => false
  }

  lemma Heads(v: Json)
    requires Carried(v)
    ensures Serialize(v) != [] && HeadOf(v, Serialize(v)[0])
  {
  }

  /** How far the units of a number reach. */
  function NumberReach(t: Text): nat {
    if t == [] || !NumberUnit(t[0]) then 0 else 1 + NumberReach(t[1..])
  }

  lemma {:induction false} NumberReaches(x: Text, r: Text)
    requires Ends(r) && forall u :: u in x ==> NumberUnit(u)
    ensures NumberReach(x + r) == |x|
  {
    if x == [] {
      assert x + r == r;
    } else {
      assert (x + r)[1..] == x[1..] + r;
      assert x[0] in x;
      NumberReaches(x[1..], r);
    }
  }

  /** A number's text ends where its units do. */
  lemma NumberCut(x: Text, y: Text, r: Text, q: Text)
    requires forall u :: u in x ==> NumberUnit(u)
    requires forall u :: u in y ==> NumberUnit(u)
    requires Ends(r) && Ends(q) && x + r == y + q
    ensures x == y && r == q
  {
    NumberReaches(x, r);
    NumberReaches(y, q);
    var t := x + r;
    assert x == t[..|x|] && y == t[..|y|];
    assert r == t[|x|..] && q == t[|y|..];
  }

  /** The list's text from its first element on, up to and past its closing unit. */
  function Listed(parts: seq<Text>, close: Unit, r: Text): Text {
    Join(parts) + [close] + r
  }

  function After(parts: seq<Text>, close: Unit, r: Text): Text
    requires parts != []
  {
    if |parts| == 1 then [close] + r else [COMMA] + Listed(parts[1..], close, r)
  }

  lemma ListedFirst(parts: seq<Text>, close: Unit, r: Text)
    requires parts != []
    ensures Listed(parts, close, r) == parts[0] + After(parts, close, r)
  {
  }

  lemma {:induction false} ValueCut(a: Json, b: Json, r: Text, q: Text)
    requires Carried(a) && Carried(b) && Ends(r) && Ends(q)
    requires Serialize(a) + r == Serialize(b) + q
    ensures Equal(a, b) && r == q
    decreases |Serialize(a)| + |r|, 1
  {
    Heads(a);
    Heads(b);
    var x, y := Serialize(a) + r, Serialize(b) + q;
    assert x[0] == Serialize(a)[0] && y[0] == Serialize(b)[0];
    match a {
      case Null => WordCut(NULL_TEXT, r, q);
      case Bool(v) => WordCut(if v then TRUE_TEXT else FALSE_TEXT, r, q);
      case Num(n) => NumberCut(NumberText(n), NumberText(b.number), r, q);
      case Str(t) => QuoteCut(t, b.text, r, q);
      case Arr(items) => ArrayCut(a, b, r, q);
      case Obj(_, members) => ObjectCut(a, b, r, q);
    }
  }

  lemma {:induction false} ArrayCut(a: Json, b: Json, r: Text, q: Text)
    requires Carried(a) && Carried(b) && a.Arr? && b.Arr?
    requires Serialize(a) + r == Serialize(b) + q
    ensures Equal(a, b) && r == q
    decreases |Serialize(a)| + |r|, 0
  {
    ArrayText(a, r);
    ArrayText(b, q);
    WordCut([OPEN_BRACKET], Listed(SerializeItems(a.items), CLOSE_BRACKET, r), Listed(SerializeItems(b.items), CLOSE_BRACKET, q));
    ItemsCut(a.items, b.items, r, q);
  }

  lemma ArrayText(a: Json, r: Text)
    requires a.Arr?
    ensures Serialize(a) + r == [OPEN_BRACKET] + Listed(SerializeItems(a.items), CLOSE_BRACKET, r)
  {
  }

  lemma WordCut(word: Text, r: Text, q: Text)
    requires word + r == word + q
    ensures r == q
  {
    assert r == (word + r)[|word|..] && q == (word + q)[|word|..];
  }

  lemma {:induction false} ItemsCut(xs: seq<Json>, ys: seq<Json>, r: Text, q: Text)
    requires forall x :: x in xs ==> Carried(x)
    requires forall y :: y in ys ==> Carried(y)
    requires Listed(SerializeItems(xs), CLOSE_BRACKET, r) == Listed(SerializeItems(ys), CLOSE_BRACKET, q)
    ensures |xs| == |ys| && r == q
    ensures forall i :: 0 <= i < |xs| ==> Equal(xs[i], ys[i])
    decreases |Listed(SerializeItems(xs), CLOSE_BRACKET, r)|, 2
  {
    var ss, ts := SerializeItems(xs), SerializeItems(ys);
    ItemsHead(xs, r);
    ItemsHead(ys, q);
    if xs != [] && ys != [] {
      ListedFirst(ss, CLOSE_BRACKET, r);
      ListedFirst(ts, CLOSE_BRACKET, q);
      ValueCut(xs[0], ys[0], After(ss, CLOSE_BRACKET, r), After(ts, CLOSE_BRACKET, q));
      AfterCut(ss, ts, CLOSE_BRACKET, r, q);
      if |xs| > 1 {
        ItemsCut(xs[1..], ys[1..], r, q);
        assert forall i :: 1 <= i < |xs| ==> xs[i] == xs[1..][i - 1] && ys[i] == ys[1..][i - 1];
      }
    } else {
      WordCut([CLOSE_BRACKET], r, q);
    }
  }

  lemma ItemsHead(xs: seq<Json>, r: Text)
    requires forall x :: x in xs ==> Carried(x)
    ensures xs == [] <==> Listed(SerializeItems(xs), CLOSE_BRACKET, r)[0] == CLOSE_BRACKET
    ensures xs == [] ==> Listed(SerializeItems(xs), CLOSE_BRACKET, r) == [CLOSE_BRACKET] + r
  {
    if xs != [] {
      Heads(xs[0]);
      ListedFirst(SerializeItems(xs), CLOSE_BRACKET, r);
    }
  }

  lemma AfterCut(ss: seq<Text>, ts: seq<Text>, close: Unit, r: Text, q: Text)
    requires ss != [] && ts != [] && close != COMMA
    requires After(ss, close, r) == After(ts, close, q)
    ensures |ss| == 1 <==> |ts| == 1
    ensures |ss| == 1 ==> r == q
    ensures |ss| > 1 ==> Listed(ss[1..], close, r) == Listed(ts[1..], close, q)
  {
    var x, y := After(ss, close, r), After(ts, close, q);
    assert x[0] == y[0];
    assert x[1..] == if |ss| == 1 then r else Listed(ss[1..], close, r);
    assert y[1..] == if |ts| == 1 then q else Listed(ts[1..], close, q);
  }

  lemma {:induction false} ObjectCut(a: Json, b: Json, r: Text, q: Text)
    requires Carried(a) && Carried(b) && a.Obj? && b.Obj?
    requires Serialize(a) + r == Serialize(b) + q
    ensures Equal(a, b) && r == q
    decreases |Serialize(a)| + |r|, 0
  {
    var ms, ns := SortByKey(a.members), SortByKey(b.members);
    ObjectText(a, r);
    ObjectText(b, q);
    WordCut([OPEN_BRACE], MembersText(ms, r), MembersText(ns, q));
    SortCarries(a.members);
    SortCarries(b.members);
    MembersCut(ms, ns, r, q);
    PairwiseEqual(a, b);
  }

  lemma ObjectText(a: Json, r: Text)
    requires a.Obj?
    ensures Serialize(a) + r == [OPEN_BRACE] + MembersText(SortByKey(a.members), r)
  {
    SortSerialized(a.members);
  }

  lemma SortCarries(members: seq<Pair<Json>>)
    requires forall p :: p in members ==> Carried(p.value)
    ensures forall p :: p in SortByKey(members) ==> Carried(p.value)
  {
    forall p | p in SortByKey(members)
      ensures Carried(p.value)
    {
      SortKeeps(members, p);
    }
  }

  ghost predicate Pairwise(ss: seq<Pair<Json>>, ts: seq<Pair<Json>>) {
    |ss| == |ts| && forall i :: 0 <= i < |ss| ==> EqualMembers(ss[i], ts[i])
  }

  lemma PairwiseHasEqual(ms: seq<Pair<Json>>, ns: seq<Pair<Json>>, p: Pair<Json>)
    requires Pairwise(SortByKey(ms), SortByKey(ns)) && p in ms
    ensures HasEqual(p, ns)
  {
    var ss, ts := SortByKey(ms), SortByKey(ns);
    SortKeeps(ms, p);
    var i :| 0 <= i < |ss| && ss[i] == p;
    SortKeeps(ns, ts[i]);
  }

  lemma PairwiseIsEqualled(ms: seq<Pair<Json>>, ns: seq<Pair<Json>>, q: Pair<Json>)
    requires Pairwise(SortByKey(ms), SortByKey(ns)) && q in ns
    ensures IsEqualled(ms, q)
  {
    var ss, ts := SortByKey(ms), SortByKey(ns);
    SortKeeps(ns, q);
    var i :| 0 <= i < |ts| && ts[i] == q;
    SortKeeps(ms, ss[i]);
  }

  lemma PairwiseEqual(a: Json, b: Json)
    requires a.Obj? && b.Obj? && Pairwise(SortByKey(a.members), SortByKey(b.members))
    ensures Equal(a, b)
  {
    forall p | p in a.members
      ensures HasEqual(p, b.members)
    {
      PairwiseHasEqual(a.members, b.members, p);
    }
    forall q | q in b.members
      ensures IsEqualled(a.members, q)
    {
      PairwiseIsEqualled(a.members, b.members, q);
    }
  }

  /** The text of a list of members, from its first on. */
  function MembersText(xs: seq<Pair<Json>>, r: Text): Text {
    Listed(MemberTexts(SerializeMembers(xs)), CLOSE_BRACE, r)
  }

  function AfterMember(xs: seq<Pair<Json>>, r: Text): Text
    requires xs != []
  {
    if |xs| == 1 then [CLOSE_BRACE] + r else [COMMA] + MembersText(xs[1..], r)
  }

  lemma MembersFirst(xs: seq<Pair<Json>>, r: Text)
    requires xs != []
    ensures MembersText(xs, r) == Quote(xs[0].key) + ([COLON] + (Serialize(xs[0].value) + AfterMember(xs, r)))
  {
    var parts := MemberTexts(SerializeMembers(xs));
    MemberTextsTail(xs);
    ListedFirst(parts, CLOSE_BRACE, r);
    assert parts[0] == Quote(xs[0].key) + [COLON] + Serialize(xs[0].value);
    assert After(parts, CLOSE_BRACE, r) == AfterMember(xs, r);
  }

  lemma MemberTextsTail(xs: seq<Pair<Json>>)
    requires xs != []
    ensures |MemberTexts(SerializeMembers(xs))| == |xs|
    ensures MemberTexts(SerializeMembers(xs))[1..] == MemberTexts(SerializeMembers(xs[1..]))
  {
    MemberCount(SerializeMembers(xs));
  }

  lemma {:induction false} MemberCount(members: seq<Pair<Text>>)
    ensures |MemberTexts(members)| == |members|
  {
    if members != [] {
      MemberCount(members[1..]);
    }
  }

  lemma {:induction false} MembersCut(xs: seq<Pair<Json>>, ys: seq<Pair<Json>>, r: Text, q: Text)
    requires forall x :: x in xs ==> Carried(x.value)
    requires forall y :: y in ys ==> Carried(y.value)
    requires MembersText(xs, r) == MembersText(ys, q)
    ensures Pairwise(xs, ys) && r == q
    decreases |MembersText(xs, r)|, 2
  {
    MembersHead(xs, r);
    MembersHead(ys, q);
    if xs != [] && ys != [] {
      MembersFirst(xs, r);
      MembersFirst(ys, q);
      var x, y := Serialize(xs[0].value) + AfterMember(xs, r), Serialize(ys[0].value) + AfterMember(ys, q);
      QuoteCut(xs[0].key, ys[0].key, [COLON] + x, [COLON] + y);
      WordCut([COLON], x, y);
      ValueCut(xs[0].value, ys[0].value, AfterMember(xs, r), AfterMember(ys, q));
      AfterMemberCut(xs, ys, r, q);
      if |xs| > 1 {
        MembersCut(xs[1..], ys[1..], r, q);
        assert forall i :: 1 <= i < |xs| ==> xs[i] == xs[1..][i - 1] && ys[i] == ys[1..][i - 1];
      }
    } else {
      WordCut([CLOSE_BRACE], r, q);
    }
  }

  lemma MembersHead(xs: seq<Pair<Json>>, r: Text)
    ensures xs == [] <==> MembersText(xs, r)[0] == CLOSE_BRACE
    ensures xs == [] ==> MembersText(xs, r) == [CLOSE_BRACE] + r
  {
    if xs != [] {
      MembersFirst(xs, r);
    }
  }

  lemma AfterMemberCut(xs: seq<Pair<Json>>, ys: seq<Pair<Json>>, r: Text, q: Text)
    requires xs != [] && ys != [] && AfterMember(xs, r) == AfterMember(ys, q)
    ensures |xs| == 1 <==> |ys| == 1
    ensures |xs| == 1 ==> r == q
    ensures |xs| > 1 ==> MembersText(xs[1..], r) == MembersText(ys[1..], q)
  {
    var x, y := AfterMember(xs, r), AfterMember(ys, q);
    assert x[0] == y[0];
    assert x[1..] == if |xs| == 1 then r else MembersText(xs[1..], r);
    assert y[1..] == if |ys| == 1 then q else MembersText(ys[1..], q);
  }

  /** Two accepted values have the same canonical text exactly when they are equal as JSON values:
      objects up to the order of their keys, numbers up to negative zero. */
  lemma CanonicalTextIsIdentity(a: Json, b: Json, limits: Limits)
    requires IsValue(a) && Acceptable(a, limits) && IsValue(b) && Acceptable(b, limits)
    ensures Serialize(a) == Serialize(b) <==> Equal(a, b)
  {
    if Equal(a, b) {
      EqualSerialize(a, b);
    }
    if Serialize(a) == Serialize(b) {
      AcceptableIsCarried(a, limits.maxStringCharacters);
      AcceptableIsCarried(b, limits.maxStringCharacters);
      assert Serialize(a) + [] == Serialize(a) && Serialize(b) + [] == Serialize(b);
      ValueCut(a, b, [], []);
    }
  }

  // The text UTF-8 encodes before hashing has no lone surrogate, so the encoding replaces nothing.

  lemma {:induction false} JoinWellFormed(parts: seq<Text>)
    requires forall part :: part in parts ==> WellFormed(part)
    ensures WellFormed(Join(parts))
  {
    if |parts| > 1 {
      JoinWellFormed(parts[1..]);
      PlainWellFormed([COMMA]);
      WellFormedAppend(parts[0], [COMMA]);
      WellFormedAppend(parts[0] + [COMMA], Join(parts[1..]));
    }
  }

  lemma WrapWellFormed(open: Unit, t: Text, close: Unit)
    requires WellFormed(t) && open < 0x80 && close < 0x80
    ensures WellFormed([open] + t + [close])
  {
    PlainWellFormed([open]);
    PlainWellFormed([close]);
    WellFormedAppend([open], t);
    WellFormedAppend([open] + t, [close]);
  }

  lemma {:induction false} CanonicalTextIsWellFormed(v: Json)
    requires Carried(v)
    ensures WellFormed(Serialize(v))
    decreases v, 1
  {
    match v {
      case Num(n) =>
        forall u | u in NumberText(n)
          ensures !High(u) && !Low(u)
        {
          assert NumberUnit(u);
        }
        PlainWellFormed(NumberText(n));
      case Str(t) => QuoteWellFormed(t);
      case Arr(items) =>
        ItemsWellFormed(v);
        WrapWellFormed(OPEN_BRACKET, Join(SerializeItems(items)), CLOSE_BRACKET);
      case Obj(_, members) =>
        MembersWellFormed(v);
        WrapWellFormed(OPEN_BRACE, Join(MemberTexts(SortByKey(SerializeMembers(members)))), CLOSE_BRACE);
      case _ => PlainWellFormed(Serialize(v));
    }
  }

  lemma {:induction false} ItemsWellFormed(v: Json)
    requires Carried(v) && v.Arr?
    ensures WellFormed(Join(SerializeItems(v.items)))
    decreases v, 0
  {
    var texts := SerializeItems(v.items);
    forall i | 0 <= i < |texts|
      ensures WellFormed(texts[i])
    {
      SerializedItem(v.items, i);
      CanonicalTextIsWellFormed(v.items[i]);
    }
    JoinWellFormed(texts);
  }

  lemma {:induction false} MembersWellFormed(v: Json)
    requires Carried(v) && v.Obj?
    ensures WellFormed(Join(MemberTexts(SortByKey(SerializeMembers(v.members)))))
    decreases v, 0
  {
    var pairs := SerializeMembers(v.members);
    forall p | p in SortByKey(pairs)
      ensures WellFormed(p.value)
    {
      SortKeeps(pairs, p);
      SerializedMembers(v.members, p);
      var m :| m in v.members && SerializedPair(m) == p;
      CanonicalTextIsWellFormed(m.value);
    }
    MemberTextsWellFormed(SortByKey(pairs));
    JoinWellFormed(MemberTexts(SortByKey(pairs)));
  }

  lemma {:induction false} MemberTextsWellFormed(members: seq<Pair<Text>>)
    requires forall p :: p in members ==> WellFormed(p.value)
    ensures forall t :: t in MemberTexts(members) ==> WellFormed(t)
  {
    if members != [] {
      var p := members[0];
      QuoteWellFormed(p.key);
      PlainWellFormed([COLON]);
      WellFormedAppend(Quote(p.key), [COLON]);
      WellFormedAppend(Quote(p.key) + [COLON], p.value);
      MemberTextsWellFormed(members[1..]);
    }
  }
}
