/** Two accepted values serialize equally exactly when they are equal as JSON values. */
module CanonicalForm {
  import opened JsonText
  import opened CanonicalJson

  predicate SameNumber(m: Number, n: Number) {
    m == n || (m in {NegativeZero, Finite(ZERO)} && n in {NegativeZero, Finite(ZERO)})
  }

  /** Equality as JSON values: an object is its set of keys with their values. */
  predicate Equal(a: Json, b: Json) {
    match (a, b)
    case (Num(m), Num(n)) => SameNumber(m, n)
    case (Arr(xs), Arr(ys)) => |xs| == |ys| && forall i :: 0 <= i < |xs| ==> Equal(xs[i], ys[i])
    case (Obj(_, ms), Obj(_, ns)) =>
      && (forall p :: p in ms ==> HasEqual(p, ns))
      && (forall q :: q in ns ==> IsEqualled(ms, q))
    case _ => a == b
  }

  predicate HasEqual(p: Pair<Json>, ns: seq<Pair<Json>>) {
    exists q :: q in ns && EqualMembers(p, q)
  }

  predicate IsEqualled(ms: seq<Pair<Json>>, q: Pair<Json>) {
    exists p :: p in ms && EqualMembers(p, q)
  }

  predicate EqualMembers(p: Pair<Json>, q: Pair<Json>) {
    p.key == q.key && Equal(p.value, q.value)
  }

  // Sorting by key.

  ghost predicate Ascending<T>(members: seq<Pair<T>>) {
    forall i, j :: 0 <= i < j < |members| ==> Less(members[i].key, members[j].key)
  }

  lemma {:induction false} InsertPermutes<T>(p: Pair<T>, sorted: seq<Pair<T>>)
    ensures multiset(Insert(p, sorted)) == multiset([p] + sorted)
  {
    if sorted != [] && Less(sorted[0].key, p.key) {
      InsertPermutes(p, sorted[1..]);
      assert sorted == [sorted[0]] + sorted[1..];
    }
  }

  lemma {:induction false} InsertAscends<T>(p: Pair<T>, sorted: seq<Pair<T>>)
    requires Ascending(sorted) && forall q :: q in sorted ==> q.key != p.key
    ensures Ascending(Insert(p, sorted))
  {
    if sorted != [] {
      assert sorted[0] in sorted;
      if Less(sorted[0].key, p.key) {
        var rest := sorted[1..];
        InsertAscends(p, rest);
        InsertPermutes(p, rest);
        forall q | q in Insert(p, rest)
          ensures Less(sorted[0].key, q.key)
        {
          assert q in multiset(Insert(p, rest));
        }
      } else {
        LessTotal(sorted[0].key, p.key);
        forall i | 0 <= i < |sorted|
          ensures Less(p.key, sorted[i].key)
        {
          if i > 0 {
            LessTransitive(p.key, sorted[0].key, sorted[i].key);
          }
        }
      }
    }
  }

  lemma {:induction false} SortPermutes<T>(members: seq<Pair<T>>)
    ensures multiset(SortByKey(members)) == multiset(members)
  {
    if members != [] {
      SortPermutes(members[1..]);
      assert members == [members[0]] + members[1..];
      InsertPermutes(members[0], SortByKey(members[1..]));
    }
  }

  lemma SortKeeps<T>(members: seq<Pair<T>>, p: Pair<T>)
    ensures p in SortByKey(members) <==> p in members
  {
    SortPermutes(members);
    assert p in SortByKey(members) <==> p in multiset(SortByKey(members));
    assert p in members <==> p in multiset(members);
  }

  /** Sorting puts distinct keys in ascending order of code units (section 3.2.3 of RFC 8785). */
  lemma {:induction false} SortAscends<T>(members: seq<Pair<T>>)
    requires DistinctKeys(members)
    ensures Ascending(SortByKey(members))
  {
    if members != [] {
      var rest := members[1..];
      SortAscends(rest);
      forall q | q in SortByKey(rest)
        ensures q.key != members[0].key
      {
        SortKeeps(rest, q);
        var i :| 0 <= i < |rest| && rest[i] == q;
        assert members[i + 1] == q;
      }
      InsertAscends(members[0], SortByKey(rest));
    }
  }

  /** Ascending sequences with the same members are the same. */
  lemma {:induction false} AscendingUnique<T>(s: seq<Pair<T>>, t: seq<Pair<T>>)
    requires Ascending(s) && Ascending(t)
    requires forall p :: p in s <==> p in t
    ensures s == t
  {
    assert t != [] ==> t[0] in t;
    if s != [] {
      assert s[0] in s;
      var j :| 0 <= j < |t| && t[j] == s[0];
      assert t[0] in t;
      var i :| 0 <= i < |s| && s[i] == t[0];
      LessIsStrict(s[0].key);
      if j > 0 && i > 0 {
        LessTransitive(s[0].key, s[i].key, s[0].key);
      }
      assert s[0] == t[0];
      forall p
        ensures p in s[1..] <==> p in t[1..]
      {
        assert p in s[1..] ==> p in s && p in t && p != s[0] by {
          LessIsStrict(s[0].key);
        }
        assert p in t[1..] ==> p in t && p in s && p != t[0] by {
          LessIsStrict(t[0].key);
        }
      }
      AscendingUnique(s[1..], t[1..]);
    }
  }

  lemma {:induction false} InsertSerialized(p: Pair<Json>, sorted: seq<Pair<Json>>)
    ensures SerializeMembers(Insert(p, sorted)) == Insert(Pair(p.key, Serialize(p.value)), SerializeMembers(sorted))
  {
    if sorted != [] && Less(sorted[0].key, p.key) {
      InsertSerialized(p, sorted[1..]);
    } else {
      assert ([p] + sorted)[1..] == sorted;
    }
  }

  /** Sorting the serialized members is serializing the sorted ones. */
  lemma {:induction false} SortSerialized(members: seq<Pair<Json>>)
    ensures SerializeMembers(SortByKey(members)) == SortByKey(SerializeMembers(members))
  {
    if members != [] {
      SortSerialized(members[1..]);
      InsertSerialized(members[0], SortByKey(members[1..]));
    }
  }

  function SerializedPair(p: Pair<Json>): Pair<Text> {
    Pair(p.key, Serialize(p.value))
  }

  lemma {:induction false} SerializedMember(members: seq<Pair<Json>>, i: nat)
    requires i < |members|
    ensures SerializeMembers(members)[i] == SerializedPair(members[i])
  {
    if i > 0 {
      SerializedMember(members[1..], i - 1);
    }
  }

  lemma SerializedMembers(members: seq<Pair<Json>>, s: Pair<Text>)
    ensures s in SerializeMembers(members) <==> exists p :: p in members && SerializedPair(p) == s
  {
    var texts := SerializeMembers(members);
    if s in texts {
      var i :| 0 <= i < |texts| && texts[i] == s;
      SerializedMember(members, i);
      assert members[i] in members;
    }
    if p :| p in members && SerializedPair(p) == s {
      var i :| 0 <= i < |members| && members[i] == p;
      SerializedMember(members, i);
    }
  }

  lemma {:induction false} SerializedItem(items: seq<Json>, i: nat)
    requires i < |items|
    ensures SerializeItems(items)[i] == Serialize(items[i])
  {
    if i > 0 {
      SerializedItem(items[1..], i - 1);
    }
  }

  // Equal values serialize equally.

  lemma {:induction false} EqualSerialize(a: Json, b: Json)
    requires IsValue(a) && IsValue(b) && Equal(a, b)
    ensures Serialize(a) == Serialize(b)
    decreases a, 1
  {
    if a.Arr? && b.Arr? {
      EqualArraysSerialize(a, b);
    } else if a.Obj? && b.Obj? {
      EqualObjectsSerialize(a, b);
    }
  }

  lemma {:induction false} EqualArraysSerialize(a: Json, b: Json)
    requires IsValue(a) && IsValue(b) && a.Arr? && b.Arr? && Equal(a, b)
    ensures Serialize(a) == Serialize(b)
    decreases a, 0
  {
    forall i | 0 <= i < |a.items|
      ensures Serialize(a.items[i]) == Serialize(b.items[i])
    {
      EqualSerialize(a.items[i], b.items[i]);
    }
    EqualItems(a.items, b.items);
  }

  lemma {:induction false} EqualObjectsSerialize(a: Json, b: Json)
    requires IsValue(a) && IsValue(b) && a.Obj? && b.Obj? && Equal(a, b)
    ensures Serialize(a) == Serialize(b)
    decreases a, 0
  {
    forall p, q | p in a.members && q in b.members && EqualMembers(p, q)
      ensures SerializedPair(p) == SerializedPair(q)
    {
      EqualSerialize(p.value, q.value);
    }
    EqualObjects(a.members, b.members);
  }

  lemma EqualItems(xs: seq<Json>, ys: seq<Json>)
    requires |xs| == |ys| && forall i :: 0 <= i < |xs| ==> Serialize(xs[i]) == Serialize(ys[i])
    ensures SerializeItems(xs) == SerializeItems(ys)
  {
    forall i | 0 <= i < |xs|
      ensures SerializeItems(xs)[i] == SerializeItems(ys)[i]
    {
      SerializedItem(xs, i);
      SerializedItem(ys, i);
    }
  }

  /** Members of equal objects serialize equally, member by member. */
  ghost predicate TextsAgree(ms: seq<Pair<Json>>, ns: seq<Pair<Json>>) {
    forall p, q :: p in ms && q in ns && EqualMembers(p, q) ==> SerializedPair(p) == SerializedPair(q)
  }

  lemma HasEqualText(ms: seq<Pair<Json>>, ns: seq<Pair<Json>>, s: Pair<Text>)
    requires TextsAgree(ms, ns) && s in SerializeMembers(ms) && forall p :: p in ms ==> HasEqual(p, ns)
    ensures s in SerializeMembers(ns)
  {
    SerializedMembers(ms, s);
    SerializedMembers(ns, s);
    var p :| p in ms && SerializedPair(p) == s;
    assert HasEqual(p, ns);
    var q :| q in ns && EqualMembers(p, q);
  }

  lemma IsEqualledText(ms: seq<Pair<Json>>, ns: seq<Pair<Json>>, s: Pair<Text>)
    requires TextsAgree(ms, ns) && s in SerializeMembers(ns) && forall q :: q in ns ==> IsEqualled(ms, q)
    ensures s in SerializeMembers(ms)
  {
    SerializedMembers(ms, s);
    SerializedMembers(ns, s);
    var q :| q in ns && SerializedPair(q) == s;
    assert IsEqualled(ms, q);
    var p :| p in ms && EqualMembers(p, q);
  }

  lemma EqualObjects(ms: seq<Pair<Json>>, ns: seq<Pair<Json>>)
    requires DistinctKeys(ms) && DistinctKeys(ns) && TextsAgree(ms, ns)
    requires (forall p :: p in ms ==> HasEqual(p, ns)) && (forall q :: q in ns ==> IsEqualled(ms, q))
    ensures SortByKey(SerializeMembers(ms)) == SortByKey(SerializeMembers(ns))
  {
    SerializedDistinct(ms);
    SerializedDistinct(ns);
    var ss, ts := SerializeMembers(ms), SerializeMembers(ns);
    forall s
      ensures s in ss <==> s in ts
    {
      if s in ss {
        HasEqualText(ms, ns, s);
      }
      if s in ts {
        IsEqualledText(ms, ns, s);
      }
    }
    SameWhenSorted(ss, ts);
  }

  lemma SameWhenSorted<T>(s: seq<Pair<T>>, t: seq<Pair<T>>)
    requires DistinctKeys(s) && DistinctKeys(t) && forall p :: p in s <==> p in t
    ensures SortByKey(s) == SortByKey(t)
  {
    forall p
      ensures p in SortByKey(s) <==> p in SortByKey(t)
    {
      SortKeeps(s, p);
      SortKeeps(t, p);
    }
    SortAscends(s);
    SortAscends(t);
    AscendingUnique(SortByKey(s), SortByKey(t));
  }

  lemma SerializedDistinct(members: seq<Pair<Json>>)
    requires DistinctKeys(members)
    ensures DistinctKeys(SerializeMembers(members))
  {
    forall i, j | 0 <= i < j < |members|
      ensures SerializeMembers(members)[i].key != SerializeMembers(members)[j].key
    {
      SerializedMember(members, i);
      SerializedMember(members, j);
    }
  }
}
