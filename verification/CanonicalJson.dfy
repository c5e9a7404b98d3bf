/** Canonical JSON (packages/contracts/src/json.ts): the limits a value must keep, and a
    serialization two values share exactly when they are equal as JSON values. */
module CanonicalJson {
  import opened Prelude
  import opened JsonText

  const COMMA: Unit := 0x2c
  const COLON: Unit := 0x3a
  const OPEN_BRACKET: Unit := 0x5b
  const CLOSE_BRACKET: Unit := 0x5d
  const OPEN_BRACE: Unit := 0x7b
  const CLOSE_BRACE: Unit := 0x7d
  const ZERO: Text := [0x30]
  const NULL_TEXT: Text := [0x6e, 0x75, 0x6c, 0x6c]
  const TRUE_TEXT: Text := [0x74, 0x72, 0x75, 0x65]
  const FALSE_TEXT: Text := [0x66, 0x61, 0x6c, 0x73, 0x65]

  /** "__proto__", "constructor" and "prototype". */
  const FORBIDDEN_KEYS: set<Text> := {
    [0x5f, 0x5f, 0x70, 0x72, 0x6f, 0x74, 0x6f, 0x5f, 0x5f],
    [0x63, 0x6f, 0x6e, 0x73, 0x74, 0x72, 0x75, 0x63, 0x74, 0x6f, 0x72],
    [0x70, 0x72, 0x6f, 0x74, 0x6f, 0x74, 0x79, 0x70, 0x65]
  }

  datatype Limits = Limits(maxDepth: nat, maxEntries: nat, maxStringCharacters: nat, maxBytes: nat)

  const DEFAULT_LIMITS := Limits(32, 10_000, 1_048_576, 2_097_152)

  /** A finite number other than negative zero is the text ECMAScript renders it as, which
      determines it (Number::toString of ECMA-262). */
  datatype Number = NegativeZero | Finite(text: Text) | NonFinite

  datatype Pair<T> = Pair(key: Text, value: T)

  /** An input value. An object's members stand in insertion order; `plain` tells whether its
      prototype is Object.prototype or null. */
  datatype Json =
    | Null
    | Bool(value: bool)
    | Num(number: Number)
    | Str(text: Text)
    | Arr(items: seq<Json>)
    | Obj(plain: bool, members: seq<Pair<Json>>)
    | Unserializable

  predicate NumberUnit(u: Unit) {
    0x30 <= u <= 0x39 || u == 0x2d || u == 0x2b || u == 0x2e || u == 0x65
  }

  /** An object has each key once; a number's text starts with a digit or a minus sign. */
  ghost predicate IsValue(v: Json) {
    match v
    case Num(Finite(t)) =>
      t != [] && (0x30 <= t[0] <= 0x39 || t[0] == 0x2d) && forall u :: u in t ==> NumberUnit(u)
    case Arr(items) => forall item :: item in items ==> IsValue(item)
    case Obj(_, members) => DistinctKeys(members) && forall p :: p in members ==> IsValue(p.value)
    case _ => true
  }

  ghost predicate DistinctKeys<T>(members: seq<Pair<T>>) {
    forall i, j :: 0 <= i < j < |members| ==> members[i].key != members[j].key
  }

  // The limits.

  /** No branch of the value is nested deeper than the budget. */
  predicate DepthWithin(v: Json, budget: int) {
    budget >= 0 &&
    match v
    case Arr(items) => forall item :: item in items ==> DepthWithin(item, budget - 1)
    case Obj(_, members) => forall p :: p in members ==> DepthWithin(p.value, budget - 1)
    case _ => true
  }

  /** Every array element and every object member of the value, at any depth. */
  function Entries(v: Json): nat {
    match v
    case Arr(items) => |items| + EntriesOfItems(items)
    case Obj(_, members) => |members| + EntriesOfMembers(members)
    case _ => 0
  }

  function EntriesOfItems(items: seq<Json>): nat {
    if items == [] then 0 else EntriesOfItems(items[..|items| - 1]) + Entries(items[|items| - 1])
  }

  function EntriesOfMembers(members: seq<Pair<Json>>): nat {
    if members == [] then 0 else EntriesOfMembers(members[..|members| - 1]) + Entries(members[|members| - 1].value)
  }

  /** Nothing in the value that JSON cannot carry, no overlong string, no forbidden key. */
  predicate Clean(v: Json, maxString: nat) {
    match v
    case Num(n) => n != NonFinite
    case Str(t) => |t| <= maxString
    case Arr(items) => forall item :: item in items ==> Clean(item, maxString)
    case Obj(plain, members) =>
      plain && forall p :: p in members ==> MemberClean(p, maxString)
    case Unserializable => false
    case _ => true
  }

  predicate MemberClean(p: Pair<Json>, maxString: nat) {
    p.key !in FORBIDDEN_KEYS && |p.key| <= maxString && Clean(p.value, maxString)
  }

  predicate Acceptable(v: Json, limits: Limits) {
    DepthWithin(v, limits.maxDepth) && Entries(v) <= limits.maxEntries && Clean(v, limits.maxStringCharacters)
  }

  lemma {:induction false} EntriesPrefix(items: seq<Json>, k: nat)
    requires k <= |items|
    ensures EntriesOfItems(items[..k]) <= EntriesOfItems(items)
  {
    if k == |items| {
      assert items[..k] == items;
    } else {
      EntriesPrefix(items[..|items| - 1], k);
      assert items[..|items| - 1][..k] == items[..k];
    }
  }

  lemma {:induction false} EntriesMemberPrefix(members: seq<Pair<Json>>, k: nat)
    requires k <= |members|
    ensures EntriesOfMembers(members[..k]) <= EntriesOfMembers(members)
  {
    if k == |members| {
      assert members[..k] == members;
    } else {
      EntriesMemberPrefix(members[..|members| - 1], k);
      assert members[..|members| - 1][..k] == members[..k];
    }
  }

  /** The visitor of assertJsonValue: the entries counted so far, or None where it throws. */
  method Visit(v: Json, depth: nat, counted: nat, limits: Limits) returns (entries: Option<nat>)
    requires counted <= limits.maxEntries
    ensures entries.Some? <==>
            && DepthWithin(v, limits.maxDepth - depth)
            && counted + Entries(v) <= limits.maxEntries
            && Clean(v, limits.maxStringCharacters)
    ensures entries.Some? ==> entries.value == counted + Entries(v)
    decreases v
  {
    if depth > limits.maxDepth {
      return None;
    }
    match v {
      case Null => return Some(counted);
      case Bool(_) => return Some(counted);
      case Str(t) =>
        if |t| > limits.maxStringCharacters {
          return None;
        }
        return Some(counted);
      case Num(n) =>
        if n == NonFinite {
          return None;
        }
        return Some(counted);
      case Unserializable => return None;
      case Arr(items) => entries := VisitItems(items, depth, counted, limits);
      case Obj(plain, members) =>
        if !plain {
          return None;
        }
        entries := VisitMembers(members, depth, counted, limits);
    }
  }

  method VisitItems(items: seq<Json>, depth: nat, counted: nat, limits: Limits) returns (entries: Option<nat>)
    requires counted <= limits.maxEntries
    ensures entries.Some? <==>
            && (forall item :: item in items ==> DepthWithin(item, limits.maxDepth - depth - 1))
            && counted + |items| + EntriesOfItems(items) <= limits.maxEntries
            && (forall item :: item in items ==> Clean(item, limits.maxStringCharacters))
    ensures entries.Some? ==> entries.value == counted + |items| + EntriesOfItems(items)
    decreases items
  {
    var total: nat := counted + |items|;
    if total > limits.maxEntries {
      return None;
    }
    for i := 0 to |items|
      invariant total == counted + |items| + EntriesOfItems(items[..i]) <= limits.maxEntries
      invariant forall item :: item in items[..i] ==> DepthWithin(item, limits.maxDepth - depth - 1)
      invariant forall item :: item in items[..i] ==> Clean(item, limits.maxStringCharacters)
    {
      var extended := items[..i + 1];
      assert extended == items[..i] + [items[i]] && extended[..i] == items[..i];
      EntriesPrefix(items, i + 1);
      var seen := Visit(items[i], depth + 1, total, limits);
      if seen.None? {
        assert items[i] in items;
        return None;
      }
      total := seen.value;
    }
    assert items[..|items|] == items;
    return Some(total);
  }

  ghost predicate MemberFits(p: Pair<Json>, budget: int, maxString: nat) {
    DepthWithin(p.value, budget) && MemberClean(p, maxString)
  }

  ghost predicate MembersFit(members: seq<Pair<Json>>, budget: int, maxString: nat) {
    forall p :: p in members ==> MemberFits(p, budget, maxString)
  }

  /** The first i members fit, and bring the count this far with all the members' own entries. */
  ghost predicate MembersCounted(members: seq<Pair<Json>>, i: nat, count: int, budget: int, maxString: nat) {
    i <= |members| && count == |members| + EntriesOfMembers(members[..i]) && MembersFit(members[..i], budget, maxString)
  }

  /** One member more: what counting it takes, and that nothing less will do. */
  lemma MemberStep(members: seq<Pair<Json>>, i: nat, count: int, budget: int, maxString: nat)
    requires i < |members| && MembersCounted(members, i, count, budget, maxString)
    ensures MemberFits(members[i], budget, maxString) ==>
            MembersCounted(members, i + 1, count + Entries(members[i].value), budget, maxString)
    ensures count + Entries(members[i].value) <= |members| + EntriesOfMembers(members)
    ensures MembersFit(members, budget, maxString) ==> MemberFits(members[i], budget, maxString)
  {
    EntriesStep(members, i);
    FitStep(members, i, budget, maxString);
  }

  lemma EntriesStep(members: seq<Pair<Json>>, i: nat)
    requires i < |members|
    ensures EntriesOfMembers(members[..i + 1]) == EntriesOfMembers(members[..i]) + Entries(members[i].value)
    ensures EntriesOfMembers(members[..i + 1]) <= EntriesOfMembers(members)
  {
    assert members[..i + 1][..i] == members[..i];
    EntriesMemberPrefix(members, i + 1);
  }

  lemma FitStep(members: seq<Pair<Json>>, i: nat, budget: int, maxString: nat)
    requires i < |members|
    ensures MembersFit(members[..i], budget, maxString) && MemberFits(members[i], budget, maxString) ==>
            MembersFit(members[..i + 1], budget, maxString)
    ensures MembersFit(members, budget, maxString) ==> MemberFits(members[i], budget, maxString)
  {
    assert members[..i + 1] == members[..i] + [members[i]];
    assert members[i] in members;
  }

  method VisitMembers(members: seq<Pair<Json>>, depth: nat, counted: nat, limits: Limits) returns (entries: Option<nat>)
    requires counted <= limits.maxEntries
    ensures entries.Some? <==>
            && MembersFit(members, limits.maxDepth - depth - 1, limits.maxStringCharacters)
            && counted + |members| + EntriesOfMembers(members) <= limits.maxEntries
    ensures entries.Some? ==> entries.value == counted + |members| + EntriesOfMembers(members)
    decreases members
  {
    var total: nat := counted + |members|;
    if total > limits.maxEntries {
      return None;
    }
    assert MembersCounted(members, 0, total - counted, limits.maxDepth - depth - 1, limits.maxStringCharacters);
    for i := 0 to |members|
      invariant counted <= total <= limits.maxEntries
      invariant MembersCounted(members, i, total - counted, limits.maxDepth - depth - 1, limits.maxStringCharacters)
    {
      MemberStep(members, i, total - counted, limits.maxDepth - depth - 1, limits.maxStringCharacters);
      if members[i].key in FORBIDDEN_KEYS || |members[i].key| > limits.maxStringCharacters {
        return None;
      }
      var seen := Visit(members[i].value, depth + 1, total, limits);
      if seen.None? {
        return None;
      }
      total := seen.value;
    }
    assert members[..|members|] == members;
    return Some(total);
  }

  // The serialization.

  function Insert<T>(p: Pair<T>, sorted: seq<Pair<T>>): seq<Pair<T>> {
    if sorted == [] || !Less(sorted[0].key, p.key) then [p] + sorted
    else [sorted[0]] + Insert(p, sorted[1..])
  }

  function SortByKey<T>(members: seq<Pair<T>>): seq<Pair<T>> {
    if members == [] then [] else Insert(members[0], SortByKey(members[1..]))
  }

  function Join(parts: seq<Text>): Text {
    if |parts| == 0 then []
    else if |parts| == 1 then parts[0]
    else parts[0] + [COMMA] + Join(parts[1..])
  }

  function MemberText(p: Pair<Text>): Text {
    Quote(p.key) + [COLON] + p.value
  }

  function MemberTexts(members: seq<Pair<Text>>): seq<Text> {
    if members == [] then [] else [MemberText(members[0])] + MemberTexts(members[1..])
  }

  function NumberText(n: Number): Text {
    match n
    case NegativeZero => ZERO
    case Finite(t) => t
    case NonFinite => NULL_TEXT
  }

  function Serialize(v: Json): Text {
    match v
    case Null => NULL_TEXT
    case Bool(b) => if b then TRUE_TEXT else FALSE_TEXT
    case Num(n) => NumberText(n)
    case Str(t) => Quote(t)
    case Arr(items) => [OPEN_BRACKET] + Join(SerializeItems(items)) + [CLOSE_BRACKET]
    case Obj(_, members) => [OPEN_BRACE] + Join(MemberTexts(SortByKey(SerializeMembers(members)))) + [CLOSE_BRACE]
    case Unserializable => []
  }

  function SerializeItems(items: seq<Json>): (texts: seq<Text>)
    ensures |texts| == |items|
  {
    if items == [] then [] else [Serialize(items[0])] + SerializeItems(items[1..])
  }

  function SerializeMembers(members: seq<Pair<Json>>): (texts: seq<Pair<Text>>)
    ensures |texts| == |members|
  {
    if members == [] then []
    else [Pair(members[0].key, Serialize(members[0].value))] + SerializeMembers(members[1..])
  }

  method Canonicalize(v: Json, limits: Limits) returns (r: Option<Text>)
    ensures r.Some? <==> Acceptable(v, limits) && Utf8Length(Serialize(v)) <= limits.maxBytes
    ensures r.Some? ==> r.value == Serialize(v)
  {
    var entries := Visit(v, 0, 0, limits);
    if entries.None? {
      return None;
    }
    var serialized := Serialize(v);
    if Utf8Length(serialized) > limits.maxBytes {
      return None;
    }
    return Some(serialized);
  }
}
