/** What the canonical text says, told by the grammar of JSON (ECMA-404) and not by the serializer: read as
    JSON it denotes the value, with the escapes JSON.stringify chooses and the keys in order. */
module JsonReading {
  import opened Prelude
  import opened JsonText
  import opened CanonicalJson
  import opened CanonicalForm
  import opened CanonicalInjective

  /** The code units of ASCII text. */
  function Ascii(s: string): Text {
    seq(|s|, i requires 0 <= i < |s| => if s[i] < '\U{80}' then s[i] as int else 0)
  }

  // Strings (section 9 of ECMA-404).

  function HexOf(u: Unit): Option<nat> {
    if 0x30 <= u <= 0x39 then Some(u - 0x30)
    else if 0x41 <= u <= 0x46 then Some(u - 0x41 + 10)
    else if 0x61 <= u <= 0x66 then Some(u - 0x61 + 10)
    else None
  }

  function FourHex(t: Text): Option<Unit>
    requires |t| >= 4
  {
    match (HexOf(t[0]), HexOf(t[1]), HexOf(t[2]), HexOf(t[3]))
    case (Some(a), Some(b), Some(c), Some(d)) =>
      var u := ((a * 16 + b) * 16 + c) * 16 + d;
      if u < 0x1_0000 then Some(u) else None
    case _ => None
  }

  /** The unit a two-character escape stands for. */
  function Escaped(letter: Unit): Option<Unit> {
    if letter == 0x22 || letter == 0x5c || letter == 0x2f then Some(letter)
    else if letter == 0x62 then Some(0x8)
    else if letter == 0x66 then Some(0xc)
    else if letter == 0x6e then Some(0xa)
    else if letter == 0x72 then Some(0xd)
    else if letter == 0x74 then Some(0x9)
    else None
  }

  function Prepend(head: Option<Unit>, rest: Option<Text>): Option<Text> {
    if head.Some? && rest.Some? then Some([head.value] + rest.value) else None
  }

  /** The string that stands between two quotes. */
  function Unescape(t: Text): Option<Text> {
    if t == [] then Some([])
    else if t[0] == 0x5c then
      if |t| >= 6 && t[1] == 0x75 then Prepend(FourHex(t[2..]), Unescape(t[6..]))
      else if |t| >= 2 then Prepend(Escaped(t[1]), Unescape(t[2..]))
      else None
    else if t[0] < 0x20 || t[0] == 0x22 then None
    else Prepend(Some(t[0]), Unescape(t[1..]))
  }

  predicate DenotesString(t: Text, s: Text) {
    |t| >= 2 && t[0] == 0x22 && t[|t| - 1] == 0x22 && Unescape(t[1..|t| - 1]) == Some(s)
  }

  // Values.

  function Separated(parts: seq<Text>): Text {
    if parts == [] then []
    else if |parts| == 1 then parts[0]
    else parts[0] + Ascii(",") + Separated(parts[1..])
  }

  /** The text is a JSON text of the value, its keys in ascending order of code units, with no space. */
  ghost predicate Denotes(t: Text, v: Json)
    decreases v, 0
  {
    match v
    case Null => t == Ascii("null")
    case Bool(b) => t == if b then Ascii("true") else Ascii("false")
    case Num(NegativeZero) => t == Ascii("0")
    case Num(Finite(digits)) => t == digits
    case Num(NonFinite) => false
    case Str(s) => DenotesString(t, s)
    case Arr(items) => exists parts :: t == Ascii("[") + Separated(parts) + Ascii("]") && DenoteItems(parts, items)
    case Obj(_, members) =>
      exists order: seq<Pair<Json>>, parts ::
        && multiset(order) == multiset(members) && t == Ascii("{") + Separated(parts) + Ascii("}")
        && DenoteMembers(parts, order, v)
    case Unserializable => false
  }

  ghost predicate DenoteItems(parts: seq<Text>, items: seq<Json>)
    decreases items, 1
  {
    |parts| == |items| && forall i :: 0 <= i < |items| ==> Denotes(parts[i], items[i])
  }

  /** Each part is a key, a colon and a value, key after key. */
  ghost predicate DenoteMembers(parts: seq<Text>, order: seq<Pair<Json>>, v: Json)
    requires v.Obj? && multiset(order) == multiset(v.members)
    decreases v, 0, 1
  {
    && |parts| == |order| && (forall i, j :: 0 <= i < j < |order| ==> Before(order[i].key, order[j].key))
    && forall i :: 0 <= i < |order| ==> DenotesMember(parts[i], order[i], v)
  }

  ghost predicate DenotesMember(t: Text, p: Pair<Json>, v: Json)
    requires v.Obj?
    decreases v, 0, 0
  {
    p in v.members && exists key, value :: t == key + Ascii(":") + value && DenotesString(key, p.key) && Denotes(value, p.value)
  }

  /** The first difference decides, and a beginning comes first. */
  predicate Before(a: Text, b: Text) {
    exists k :: 0 <= k <= |a| && k < |b| && a[..k] == b[..k] && (k == |a| || a[k] < b[k])
  }

  // Quoting is read back.

  lemma FourHexOf(u: Unit, rest: Text)
    ensures FourHex(HexEscape(u)[2..] + rest) == Some(u)
  {
    HexValue(u);
    var a, b, c, d := u / 0x1000, u / 0x100 % 0x10, u / 0x10 % 0x10, u % 0x10;
    assert HexOf(HexDigit(a)) == Some(a) && HexOf(HexDigit(b)) == Some(b) && HexOf(HexDigit(c)) == Some(c) && HexOf(HexDigit(d)) == Some(d);
    var t := HexEscape(u)[2..] + rest;
    assert t[0] == HexDigit(a) && t[1] == HexDigit(b) && t[2] == HexDigit(c) && t[3] == HexDigit(d);
  }

  lemma EmitIsRead(u: Unit, rest: Text)
    ensures Unescape(Emit(u) + rest) == Prepend(Some(u), Unescape(rest))
  {
    var t := Emit(u) + rest;
    if Short(u) {
      assert t[1] == ShortEscape(u) && t[2..] == rest;
      assert Escaped(ShortEscape(u)) == Some(u);
    } else if u < 0x20 || High(u) || Low(u) {
      assert Emit(u) == HexEscape(u);
      assert t[0] == BACKSLASH && t[1] == 0x75 && t[6..] == rest && t[2..] == HexEscape(u)[2..] + rest;
      FourHexOf(u, rest);
    } else {
      assert t[0] == u && t[1..] == rest;
    }
  }

  lemma PlainIsRead(u: Unit, rest: Text)
    requires u >= 0x20 && u != QUOTE && u != BACKSLASH
    ensures Unescape([u] + rest) == Prepend(Some(u), Unescape(rest))
  {
    assert ([u] + rest)[1..] == rest;
  }

  lemma PairIsRead(s: Text, body: Text)
    requires PairFirst(s) && Unescape(body) == Some(s[2..])
    ensures Unescape([s[0], s[1]] + body) == Some(s)
  {
    assert [s[0], s[1]] + body == [s[0]] + ([s[1]] + body);
    PlainIsRead(s[0], [s[1]] + body);
    PlainIsRead(s[1], body);
    assert s == [s[0]] + ([s[1]] + s[2..]);
  }

  lemma UnitIsRead(s: Text, body: Text)
    requires s != [] && Unescape(body) == Some(s[1..])
    ensures Unescape(Emit(s[0]) + body) == Some(s)
  {
    EmitIsRead(s[0], body);
    assert s == [s[0]] + s[1..];
  }

  lemma {:induction false} BodyIsRead(s: Text)
    ensures Unescape(Body(s)) == Some(s)
    decreases |s|
  {
    if s != [] {
      if PairFirst(s) {
        BodyIsRead(s[2..]);
        PairIsRead(s, Body(s[2..]));
        PairIsBare(s);
      } else {
        BodyIsRead(s[1..]);
        UnitIsRead(s, Body(s[1..]));
        UnitIsEmitted(s);
      }
    }
  }

  /** A quoted string, read by the grammar, is the string. */
  lemma QuoteDenotes(s: Text)
    ensures DenotesString(Quote(s), s)
  {
    BodyIsRead(s);
    var t := Quote(s);
    assert t[1..|t| - 1] == Body(s);
  }

  /** Of the spellings the grammar allows, the one JSON.stringify chooses: the short escapes of five
      controls, the quote and the backslash, four lower-case digits for the other controls and for
      surrogates outside a pair, and every other unit as it is. */
  function Spelling(u: Unit): (t: Text)
    ensures t != []
  {
    if u == 0x22 then Ascii("\\\"")
    else if u == 0x5c then Ascii("\\\\")
    else if u == 0x8 then Ascii("\\b")
    else if u == 0x9 then Ascii("\\t")
    else if u == 0xa then Ascii("\\n")
    else if u == 0xc then Ascii("\\f")
    else if u == 0xd then Ascii("\\r")
    else if u < 0x20 || 0xd800 <= u < 0xe000 then
      Ascii("\\u") + [LowerDigit(u / 0x1000), LowerDigit(u / 0x100 % 0x10), LowerDigit(u / 0x10 % 0x10), LowerDigit(u % 0x10)]
    else [u]
  }

  function LowerDigit(n: nat): Unit
    requires n < 16
  {
    Ascii("0123456789abcdef")[n]
  }

  /** Each unit outside a surrogate pair is spelled so. */
  lemma EmitIsSpelling(u: Unit)
    ensures Emit(u) == Spelling(u)
  {
    forall n: nat | n < 16
      ensures HexDigit(n) == LowerDigit(n)
    {
      LowerDigitIs(n);
    }
  }

  lemma LowerDigitIs(n: nat)
    requires n < 16
    ensures LowerDigit(n) == HexDigit(n)
  {
  }

  /** A surrogate pair is left as it is. */
  lemma PairIsBare(s: Text)
    requires |s| > 1 && 0xd800 <= s[0] < 0xdc00 <= s[1] < 0xe000
    ensures Body(s) == [s[0], s[1]] + Body(s[2..])
  {
  }

  /** All else is spelled unit by unit. */
  lemma UnitIsSpelled(s: Text)
    requires s != [] && !(|s| > 1 && 0xd800 <= s[0] < 0xdc00 <= s[1] < 0xe000)
    ensures Body(s) == Spelling(s[0]) + Body(s[1..])
  {
    EmitIsSpelling(s[0]);
    UnitIsEmitted(s);
  }

  lemma UnitIsEmitted(s: Text)
    requires s != [] && !PairFirst(s)
    ensures Body(s) == Emit(s[0]) + Body(s[1..])
  {
  }

  // Keys.

  lemma {:induction false} LessIsBefore(a: Text, b: Text)
    ensures Less(a, b) <==> Before(a, b)
    decreases |a|
  {
    if a == [] || b == [] || a[0] != b[0] {
      if Less(a, b) {
        assert a[..0] == b[..0];
      }
    } else {
      LessIsBefore(a[1..], b[1..]);
      if Before(a[1..], b[1..]) {
        var k :| 0 <= k <= |a[1..]| && k < |b[1..]| && a[1..][..k] == b[1..][..k] && (k == |a[1..]| || a[1..][k] < b[1..][k]);
        assert a[..k + 1] == [a[0]] + a[1..][..k] && b[..k + 1] == [b[0]] + b[1..][..k];
        assert 0 <= k + 1 <= |a|;
      }
      if Before(a, b) {
        var k :| 0 <= k <= |a| && k < |b| && a[..k] == b[..k] && (k == |a| || a[k] < b[k]);
        assert k > 0;
        assert a[1..][..k - 1] == a[..k][1..] && b[1..][..k - 1] == b[..k][1..];
      }
    }
  }

  // The whole value.

  lemma {:induction false} JoinIsSeparated(parts: seq<Text>)
    ensures Join(parts) == Separated(parts)
  {
    if |parts| > 1 {
      JoinIsSeparated(parts[1..]);
      assert Ascii(",") == [COMMA];
    }
  }

  lemma {:induction false} MemberTextAt(members: seq<Pair<Text>>, i: nat)
    requires i < |members|
    ensures |MemberTexts(members)| == |members| && MemberTexts(members)[i] == MemberText(members[i])
  {
    if |members| > 1 {
      MemberTextAt(members[1..], if i > 0 then i - 1 else 0);
    }
  }

  /** Read as JSON, the serialization of a value is that value. */
  lemma {:induction false} SerializationDenotes(v: Json)
    requires Carried(v)
    ensures Denotes(Serialize(v), v)
    decreases v, 1
  {
    match v {
      case Str(s) => QuoteDenotes(s);
      case Arr(items) => ArrayDenotes(items);
      case Obj(_, members) => ObjectDenotes(v);
      case _ =>
    }
  }

  lemma {:induction false} ArrayDenotes(items: seq<Json>)
    requires Carried(Arr(items))
    ensures Denotes(Serialize(Arr(items)), Arr(items))
    decreases Arr(items), 0
  {
    var parts := SerializeItems(items);
    forall i | 0 <= i < |items|
      ensures Denotes(parts[i], items[i])
    {
      SerializedItem(items, i);
      assert items[i] in items;
      SerializationDenotes(items[i]);
    }
    assert DenoteItems(parts, items);
    JoinIsSeparated(parts);
    assert Ascii("[") == [OPEN_BRACKET] && Ascii("]") == [CLOSE_BRACKET];
  }

  lemma {:induction false} ObjectDenotes(v: Json)
    requires v.Obj? && Carried(v)
    ensures Denotes(Serialize(v), v)
    decreases v, 0
  {
    var order := SortByKey(v.members);
    var parts := MemberTexts(SerializeMembers(order));
    SortPermutes(v.members);
    SortAscends(v.members);
    SortSerialized(v.members);
    forall i, j | 0 <= i < j < |order|
      ensures Before(order[i].key, order[j].key)
    {
      LessIsBefore(order[i].key, order[j].key);
    }
    forall i | 0 <= i < |order|
      ensures |parts| == |order| && DenotesMember(parts[i], order[i], v)
    {
      MemberTextAt(SerializeMembers(order), i);
      SerializedMember(order, i);
      SortKeeps(v.members, order[i]);
      MemberDenotes(order[i], v);
    }
    if order == [] {
      assert parts == [];
    }
    assert DenoteMembers(parts, order, v);
    JoinIsSeparated(parts);
    assert Ascii("{") == [OPEN_BRACE] && Ascii("}") == [CLOSE_BRACE];
  }

  lemma {:induction false} MemberDenotes(p: Pair<Json>, v: Json)
    requires v.Obj? && Carried(v) && p in v.members
    ensures DenotesMember(MemberText(SerializedPair(p)), p, v)
    decreases v, 0, 0
  {
    QuoteDenotes(p.key);
    SerializationDenotes(p.value);
    assert Ascii(":") == [COLON];
    assert MemberText(SerializedPair(p)) == Quote(p.key) + Ascii(":") + Serialize(p.value);
  }

  /** The text of an accepted value denotes the value. */
  lemma CanonicalTextDenotes(v: Json, limits: Limits)
    requires IsValue(v) && Acceptable(v, limits)
    ensures Denotes(Serialize(v), v)
  {
    AcceptableIsCarried(v, limits.maxStringCharacters);
    SerializationDenotes(v);
  }

  // Bytes (section 3 of RFC 3629).

  function Utf8(s: Text): seq<nat> {
    if s == [] then []
    else if |s| > 1 && 0xd800 <= s[0] < 0xdc00 <= s[1] < 0xe000 then
      var c: int := 0x1_0000 + (s[0] as int - 0xd800) * 0x400 + (s[1] as int - 0xdc00);
      [0xf0 + c / 0x4_0000, 0x80 + c / 0x1000 % 0x40, 0x80 + c / 0x40 % 0x40, 0x80 + c % 0x40] + Utf8(s[2..])
    else
      (var c := if 0xd800 <= s[0] < 0xe000 then 0xfffd else s[0];
       if c < 0x80 then [c]
       else if c < 0x800 then [0xc0 + c / 0x40, 0x80 + c % 0x40]
       else [0xe0 + c / 0x1000, 0x80 + c / 0x40 % 0x40, 0x80 + c % 0x40]) + Utf8(s[1..])
  }

  /** The length a text is measured by is that of its UTF-8 encoding. */
  lemma {:induction false} Utf8LengthIs(s: Text)
    ensures Utf8Length(s) == |Utf8(s)|
    decreases |s|
  {
    if s != [] {
      Utf8LengthIs(if PairFirst(s) then s[2..] else s[1..]);
    }
  }
}
