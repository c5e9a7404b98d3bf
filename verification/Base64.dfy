/** Base64 (packages/memory/src/encoding.ts:20-52; section 4 of RFC 4648) and the check stored values
    must pass (packages/memory/src/validation.ts:39-49). Shifts and masks of disjoint bit fields are
    written as multiplication, division and remainder. */
module Base64 {
  import opened Prelude

  type Byte = n: int | 0 <= n < 256

  type Sextet = n: int | 0 <= n < 64

  /** The v-th character of the alphabet A-Z, a-z, 0-9, +, /. */
  function CharOf(v: Sextet): char {
    if v < 26 then 'A' + v as char
    else if v < 52 then 'a' + (v - 26) as char
    else if v < 62 then '0' + (v - 52) as char
    else if v == 62 then '+'
    else '/'
  }

  predicate InAlphabet(c: char) {
    'A' <= c <= 'Z' || 'a' <= c <= 'z' || '0' <= c <= '9' || c == '+' || c == '/'
  }

  /** The place of a character in the alphabet; the padding character counts as zero. */
  function ValueOf(c: char): Sextet
    requires InAlphabet(c) || c == '='
  {
    if c == '=' then 0
    else if 'A' <= c <= 'Z' then c as int - 'A' as int
    else if 'a' <= c <= 'z' then c as int - 'a' as int + 26
    else if '0' <= c <= '9' then c as int - '0' as int + 52
    else if c == '+' then 62
    else 63
  }

  lemma AlphabetInverse(v: Sextet)
    ensures InAlphabet(CharOf(v)) && CharOf(v) != '=' && ValueOf(CharOf(v)) == v
  {
  }

  lemma ValueInverse(c: char)
    requires InAlphabet(c)
    ensures CharOf(ValueOf(c)) == c
  {
  }

  /** The alphabet of Table 1 of RFC 4648: its letters, then its digits and signs. */
  lemma AlphabetIs(v: Sextet)
    ensures CharOf(v) as int == if v < 26 then "ABCDEFGHIJKLMNOPQRSTUVWXYZ"[v] as int
                                else if v < 52 then "abcdefghijklmnopqrstuvwxyz"[v - 26] as int
                                else "0123456789+/"[v - 52] as int
  {
    if v < 26 {
      assert "ABCDEFGHIJKLMNOPQRSTUVWXYZ"[v] as int == 65 + v;
    } else if v < 52 {
      assert "abcdefghijklmnopqrstuvwxyz"[v - 26] as int == 71 + v;
    } else if v < 62 {
      assert "0123456789+/"[v - 52] as int == v - 4;
    }
  }

  // One group: up to three bytes, four characters.

  function ByteAt(value: seq<Byte>, i: nat): Byte {
    if i < |value| then value[i] else 0
  }

  /** The first three bytes as one number; missing ones count as zero. */
  function Triple(value: seq<Byte>): (triple: int)
    ensures 0 <= triple < 0x100_0000
  {
    ByteAt(value, 0) * 0x1_0000 + ByteAt(value, 1) * 0x100 + ByteAt(value, 2)
  }

  function FourOf(triple: int, n: nat): (four: string)
    requires 0 <= triple < 0x100_0000
    ensures |four| == 4
  {
    [CharOf(triple / 0x4_0000), CharOf(triple / 0x1000 % 64),
     if n > 1 then CharOf(triple / 64 % 64) else '=', if n > 2 then CharOf(triple % 64) else '=']
  }

  function Four(group: seq<Byte>): string {
    FourOf(Triple(group), |group|)
  }

  predicate Legible(s: string) {
    forall i :: 0 <= i < |s| ==> InAlphabet(s[i]) || s[i] == '='
  }

  function Number(four: string): (triple: int)
    requires |four| == 4 && Legible(four)
    ensures 0 <= triple < 0x100_0000
  {
    ValueOf(four[0]) * 0x4_0000 + ValueOf(four[1]) * 0x1000 + ValueOf(four[2]) * 64 + ValueOf(four[3])
  }

  function ThreeOf(triple: int): (three: seq<Byte>)
    requires 0 <= triple < 0x100_0000
    ensures |three| == 3
  {
    [triple / 0x1_0000, triple / 0x100 % 0x100, triple % 0x100]
  }

  function Three(four: string): (three: seq<Byte>)
    ensures |three| == 3
  {
    if |four| == 4 && Legible(four) then ThreeOf(Number(four)) else [0, 0, 0]
  }

  // Whole values, group by group. What a group is coded as is a parameter, so that the proofs about
  // the grouping do not depend on it.

  type Coder = seq<Byte> -> string

  type Decoder = string -> seq<Byte>

  function Head(value: seq<Byte>): seq<Byte> {
    if |value| <= 3 then value else value[..3]
  }

  function Tail(value: seq<Byte>): seq<Byte> {
    if |value| <= 3 then [] else value[3..]
  }

  function EncodeWith(value: seq<Byte>, four: Coder): string
    decreases |value|
  {
    if value == [] then "" else four(Head(value)) + EncodeWith(Tail(value), four)
  }

  ghost predicate Triples(three: Decoder) {
    forall s :: |three(s)| == 3
  }

  function BytesWith(s: string, three: Decoder): (bytes: seq<Byte>)
    requires Triples(three)
    ensures |bytes| == |s| / 4 * 3
  {
    if |s| < 4 then [] else three(s[..4]) + BytesWith(s[4..], three)
  }

  function Encode(value: seq<Byte>): string {
    EncodeWith(value, Four)
  }

  predicate Decodable(s: string) {
    s != "" && |s| % 4 == 0 && Legible(s)
  }

  function Padding(s: string): nat {
    if |s| >= 2 && s[|s| - 2..] == "==" then 2 else if |s| >= 1 && s[|s| - 1] == '=' then 1 else 0
  }

  function Decode(s: string): Option<seq<Byte>> {
    if !Decodable(s) then None else Some(BytesWith(s, Three)[..|s| / 4 * 3 - Padding(s)])
  }

  // The loops.

  ghost predicate Encoding(value: seq<Byte>, offset: nat, before: string, four: Coder) {
    before + EncodeWith(if offset < |value| then value[offset..] else [], four) == EncodeWith(value, four)
  }

  lemma EncodeStep(value: seq<Byte>, offset: nat, before: string, four: Coder)
    requires offset < |value| && Encoding(value, offset, before, four)
    ensures Encoding(value, offset + 3, before + four(Head(value[offset..])), four)
  {
    var rest := value[offset..];
    assert Tail(rest) == if offset + 3 < |value| then value[offset + 3..] else [];
    Associates(before, four(Head(rest)), EncodeWith(Tail(rest), four));
  }

  lemma Associates(a: string, b: string, c: string)
    ensures a + (b + c) == (a + b) + c
  {
  }

  method EncodeGroups(value: seq<Byte>, four: Coder) returns (result: string)
    ensures result == EncodeWith(value, four)
  {
    result := "";
    var offset := 0;
    assert value == [] || value[0..] == value;
    while offset < |value|
      invariant Encoding(value, offset, result, four)
    {
      EncodeStep(value, offset, result, four);
      result := result + four(Head(value[offset..]));
      offset := offset + 3;
    }
    assert result + "" == result;
  }

  method ToBase64(value: seq<Byte>) returns (result: string)
    ensures result == Encode(value)
  {
    result := EncodeGroups(value, Four);
  }

  lemma {:induction false} BytesAt(s: string, three: Decoder, g: nat)
    requires Triples(three) && 4 * g + 4 <= |s|
    ensures 3 * g + 3 <= |BytesWith(s, three)|
    ensures BytesWith(s, three)[3 * g..3 * g + 3] == three(s[4 * g..4 * g + 4])
    decreases g
  {
    if g == 0 {
      FirstThree(three(s[..4]), BytesWith(s[4..], three));
    } else {
      BytesAt(s[4..], three, g - 1);
      assert s[4..][4 * (g - 1)..4 * (g - 1) + 4] == s[4 * g..4 * g + 4];
      SliceOfTail(three(s[..4]), BytesWith(s[4..], three), 3 * g);
    }
  }

  lemma FirstThree(head: seq<Byte>, tail: seq<Byte>)
    requires |head| == 3
    ensures (head + tail)[0..3] == head
  {
  }

  lemma SliceOfTail(head: seq<Byte>, tail: seq<Byte>, i: nat)
    requires |head| == 3 <= i && i <= |tail|
    ensures (head + tail)[i..i + 3] == tail[i - 3..i]
  {
  }

  lemma Elements(all: seq<Byte>, i: nat, three: seq<Byte>)
    requires i + 3 <= |all| && all[i..i + 3] == three
    ensures all[i] == three[0] && all[i + 1] == three[1] && all[i + 2] == three[2]
  {
    assert all[i..i + 3][0] == all[i] && all[i..i + 3][1] == all[i + 1] && all[i..i + 3][2] == all[i + 2];
  }

  method DecodeGroups(value: string, length: nat, three: Decoder) returns (bytes: seq<Byte>)
    requires Triples(three) && |value| % 4 == 0 && length <= |value| / 4 * 3
    ensures bytes == BytesWith(value, three)[..length]
  {
    ghost var all := BytesWith(value, three);
    var result := new Byte[length];
    var output, offset := 0, 0;
    ghost var g := 0;
    while offset < |value|
      invariant offset == 4 * g <= |value|
      invariant output == if 3 * g < length then 3 * g else length
      invariant forall k :: 0 <= k < output ==> result[k] == all[k]
    {
      BytesAt(value, three, g);
      var triple := three(value[offset..offset + 4]);
      Elements(all, 3 * g, triple);
      if output < length {
        result[output] := triple[0];
        output := output + 1;
      }
      if output < length {
        result[output] := triple[1];
        output := output + 1;
      }
      if output < length {
        result[output] := triple[2];
        output := output + 1;
      }
      offset := offset + 4;
      g := g + 1;
    }
    assert result[..] == all[..length];
    return result[..];
  }

  method FromBase64(value: string) returns (r: Option<seq<Byte>>)
    ensures r == Decode(value)
  {
    if |value| == 0 || |value| % 4 != 0 || !Legible(value) {
      return None;
    }
    var bytes := DecodeGroups(value, |value| / 4 * 3 - Padding(value), Three);
    return Some(bytes);
  }

  // The check.

  function PaddingOf(n: nat): string {
    if n % 3 == 1 then "==" else if n % 3 == 2 then "=" else ""
  }

  predicate AllInAlphabet(s: string) {
    forall i :: 0 <= i < |s| ==> InAlphabet(s[i])
  }

  /** The check a stored value of n bytes must pass: its length, its payload and its padding. */
  predicate CanonicalBase64(value: string, encodedBytes: nat) {
    var expected := (encodedBytes + 2) / 3 * 4;
    var padding := PaddingOf(encodedBytes);
    && |value| == expected && expected > |padding|
    && AllInAlphabet(value[..expected - |padding|])
    && value[expected - |padding|..] == padding
  }

  // One group, read back.

  lemma Sextets(t: int)
    requires 0 <= t < 0x100_0000
    ensures t == t / 0x4_0000 * 0x4_0000 + t / 0x1000 % 64 * 0x1000 + t / 64 % 64 * 64 + t % 64
  {
    var a, b := t / 64, t / 0x1000;
    assert t == 64 * a + t % 64;
    assert a / 64 == b && a == 64 * b + a % 64;
    assert b / 64 == t / 0x4_0000 && b == 64 * (b / 64) + b % 64;
  }

  lemma BytesOf(a: Byte, b: Byte, c: Byte)
    ensures var t := a * 0x1_0000 + b * 0x100 + c;
            t / 0x1_0000 == a && t / 0x100 % 0x100 == b && t % 0x100 == c
  {
    var t := a * 0x1_0000 + b * 0x100 + c;
    assert t / 0x100 == a * 0x100 + b;
  }

  lemma TimesSixtyFour(t: int, k: int)
    requires 0 <= k && t == 64 * k
    ensures t / 64 == k && t % 64 == 0
  {
  }

  lemma HiddenZero(t: int)
    requires 0 <= t
    ensures t % 0x1_0000 == 0 ==> t / 64 % 64 == 0 && t % 64 == 0
    ensures t % 0x100 == 0 ==> t % 64 == 0
  {
    if t % 0x1_0000 == 0 {
      var high := t / 0x1_0000;
      TimesSixtyFour(t, 0x400 * high);
      TimesSixtyFour(0x400 * high, 16 * high);
    }
    if t % 0x100 == 0 {
      TimesSixtyFour(t, 4 * (t / 0x100));
    }
  }

  /** The characters of a group stand for its number when what the padding hides is zero. */
  lemma FourNumber(t: int, n: nat)
    requires 0 <= t < 0x100_0000 && (n <= 1 ==> t % 0x1_0000 == 0) && (n == 2 ==> t % 0x100 == 0)
    ensures Legible(FourOf(t, n)) && Number(FourOf(t, n)) == t
  {
    var four := FourOf(t, n);
    Sextets(t);
    AlphabetInverse(t / 0x4_0000);
    AlphabetInverse(t / 0x1000 % 64);
    AlphabetInverse(t / 64 % 64);
    AlphabetInverse(t % 64);
    HiddenZero(t);
    assert ValueOf(four[0]) == t / 0x4_0000 && ValueOf(four[1]) == t / 0x1000 % 64;
    assert ValueOf(four[2]) == t / 64 % 64;
    assert ValueOf(four[3]) == t % 64;
  }

  lemma GroupRoundTrip(group: seq<Byte>)
    ensures Three(Four(group)) == [ByteAt(group, 0), ByteAt(group, 1), ByteAt(group, 2)]
  {
    BytesOf(ByteAt(group, 0), ByteAt(group, 1), ByteAt(group, 2));
    FourNumber(Triple(group), |group|);
  }

  lemma GroupIsCanonical(group: seq<Byte>)
    requires 1 <= |group| <= 3
    ensures CanonicalBase64(Four(group), |group|)
  {
    var t := Triple(group);
    AlphabetInverse(t / 0x4_0000);
    AlphabetInverse(t / 0x1000 % 64);
    AlphabetInverse(t / 64 % 64);
    AlphabetInverse(t % 64);
  }

  // Whole values.

  /** What the proofs about grouping need of the coder and the decoder of one group. */
  ghost predicate GroupsRead(four: Coder, three: Decoder) {
    && Triples(three)
    && forall g {:trigger four(g)} :: 1 <= |g| <= 3 ==>
         CanonicalBase64(four(g), |g|) && three(four(g)) == [ByteAt(g, 0), ByteAt(g, 1), ByteAt(g, 2)]
  }

  lemma FourAndThreeRead()
    ensures GroupsRead(Four, Three)
  {
    forall g: seq<Byte> | 1 <= |g| <= 3
      ensures CanonicalBase64(Four(g), |g|) && Three(Four(g)) == [ByteAt(g, 0), ByteAt(g, 1), ByteAt(g, 2)]
    {
      GroupRoundTrip(g);
      GroupIsCanonical(g);
    }
  }

  lemma CanonicalAppends(head: string, rest: string, n: nat)
    requires CanonicalBase64(head, 3) && CanonicalBase64(rest, n)
    ensures CanonicalBase64(head + rest, n + 3)
  {
    var s := head + rest;
    var cut := |rest| - |PaddingOf(n)|;
    assert |head| == 4 && |s| == 4 + |rest| && PaddingOf(n + 3) == PaddingOf(n);
    assert head[..4] == head;
    assert s[..4 + cut] == head + rest[..cut];
    assert s[4 + cut..] == rest[cut..];
  }

  lemma {:induction false} EncodedIsCanonical(value: seq<Byte>, four: Coder, three: Decoder)
    requires value != [] && GroupsRead(four, three)
    ensures CanonicalBase64(EncodeWith(value, four), |value|)
    decreases |value|
  {
    var head := Head(value);
    assert CanonicalBase64(four(head), |head|);
    if |value| > 3 {
      EncodedIsCanonical(Tail(value), four, three);
      CanonicalAppends(four(head), EncodeWith(Tail(value), four), |value| - 3);
    } else {
      assert four(head) + "" == four(head);
    }
  }

  /** Decoding the encoded value gives its bytes, followed by what the padding stands for. */
  ghost predicate ReadsBack(value: seq<Byte>, four: Coder, three: Decoder)
    requires Triples(three)
  {
    value <= BytesWith(EncodeWith(value, four), three)
  }

  lemma ShortReadsBack(value: seq<Byte>, four: Coder, three: Decoder)
    requires GroupsRead(four, three) && 1 <= |value| <= 3
    ensures ReadsBack(value, four, three)
  {
    assert CanonicalBase64(four(value), |value|);
    GroupPutOn(four(value), "", three);
  }

  lemma LongReadsBack(value: seq<Byte>, four: Coder, three: Decoder)
    requires GroupsRead(four, three) && |value| > 3 && ReadsBack(Tail(value), four, three)
    ensures ReadsBack(value, four, three)
  {
    var head := value[..3];
    assert CanonicalBase64(four(head), 3) && three(four(head)) == head;
    GroupPutOn(four(head), EncodeWith(Tail(value), four), three);
    PrefixAfter(head, Tail(value), BytesWith(EncodeWith(Tail(value), four), three));
    assert value == head + Tail(value);
  }

  lemma PrefixAfter(head: seq<Byte>, tail: seq<Byte>, bytes: seq<Byte>)
    requires tail <= bytes
    ensures head + tail <= head + bytes
  {
  }

  lemma {:induction false} EncodedReads(value: seq<Byte>, four: Coder, three: Decoder)
    requires GroupsRead(four, three)
    ensures ReadsBack(value, four, three)
    decreases |value|
  {
    if |value| > 3 {
      EncodedReads(Tail(value), four, three);
      LongReadsBack(value, four, three);
    } else if |value| >= 1 {
      ShortReadsBack(value, four, three);
    }
  }

  lemma GroupPutOn(text: string, rest: string, three: Decoder)
    requires Triples(three) && |text| == 4
    ensures BytesWith(text + rest, three) == three(text) + BytesWith(rest, three)
  {
    assert (text + rest)[..4] == text && (text + rest)[4..] == rest;
  }

  /** A text that passes the check for n bytes is decoded, without an error, to exactly n bytes. */
  lemma CanonicalDecodes(s: string, n: nat)
    requires CanonicalBase64(s, n)
    ensures Decode(s).Some? && |Decode(s).value| == n
    ensures n <= |BytesWith(s, Three)| && Decode(s).value == BytesWith(s, Three)[..n]
  {
    CanonicalCharacters(s, n);
    CanonicalPadding(s, n);
    CanonicalLength(n);
  }

  /** The whole groups of n bytes, less what the padding stands for. */
  lemma CanonicalLength(n: nat)
    ensures (n + 2) / 3 * 4 / 4 * 3 - |PaddingOf(n)| == n
  {
  }

  lemma CanonicalCharacters(s: string, n: nat)
    requires CanonicalBase64(s, n)
    ensures forall i :: 0 <= i < |s| - |PaddingOf(n)| ==> InAlphabet(s[i])
    ensures forall i :: |s| - |PaddingOf(n)| <= i < |s| ==> s[i] == '='
    ensures |s| >= 4
  {
    var cut := |s| - |PaddingOf(n)|;
    assert forall i :: 0 <= i < cut ==> s[i] == s[..cut][i];
    assert forall i :: cut <= i < |s| ==> s[i] == s[cut..][i - cut];
  }

  lemma CanonicalPadding(s: string, n: nat)
    requires CanonicalBase64(s, n)
    ensures Padding(s) == |PaddingOf(n)|
  {
    CanonicalCharacters(s, n);
    assert s[|s| - 2..] == [s[|s| - 2], s[|s| - 1]];
  }

  /** Decoding the encoding of any nonempty bytes gives them back, and the encoding passes the check
      for their number. */
  lemma Base64RoundTrip(value: seq<Byte>)
    requires value != []
    ensures Decode(Encode(value)) == Some(value)
    ensures CanonicalBase64(Encode(value), |value|)
  {
    FourAndThreeRead();
    EncodedIsCanonical(value, Four, Three);
    EncodedReads(value, Four, Three);
    CanonicalDecodes(Encode(value), |value|);
    assert BytesWith(Encode(value), Three)[..|value|] == value;
  }

  // Encoding again what was decoded.

  /** The bits of the last character that no byte of the value takes up. */
  function UnusedBits(s: string, n: nat): int
    requires CanonicalBase64(s, n)
  {
    CanonicalCharacters(s, n);
    if n % 3 == 1 then ValueOf(s[|s| - 3]) % 16
    else if n % 3 == 2 then ValueOf(s[|s| - 2]) % 4
    else 0
  }

  lemma FullGroupReencodes(four: string)
    requires CanonicalBase64(four, 3)
    ensures Four(Three(four)) == four
  {
    CanonicalCharacters(four, 3);
    var t := Number(four);
    NumberDigits(ValueOf(four[0]), ValueOf(four[1]), ValueOf(four[2]), ValueOf(four[3]));
    ThreeNumber(t);
    ValueInverse(four[0]);
    ValueInverse(four[1]);
    ValueInverse(four[2]);
    ValueInverse(four[3]);
  }

  lemma NumberDigits(a: Sextet, b: Sextet, c: Sextet, d: Sextet)
    ensures var t := a * 0x4_0000 + b * 0x1000 + c * 64 + d;
            t / 0x4_0000 == a && t / 0x1000 % 64 == b && t / 64 % 64 == c && t % 64 == d
  {
    var t := a * 0x4_0000 + b * 0x1000 + c * 64 + d;
    assert t / 64 == a * 0x1000 + b * 64 + c;
    assert t / 0x1000 == a * 64 + b;
  }

  lemma ThreeNumber(t: int)
    requires 0 <= t < 0x100_0000
    ensures Triple(ThreeOf(t)) == t
  {
    assert t == 0x100 * (t / 0x100) + t % 0x100;
    assert t / 0x100 == 0x100 * (t / 0x1_0000) + t / 0x100 % 0x100;
  }

  lemma CharInjective(v: Sextet, w: Sextet)
    requires CharOf(v) == CharOf(w)
    ensures v == w
  {
    AlphabetInverse(v);
    AlphabetInverse(w);
  }

  lemma OneByte(a: Sextet, b: Sextet)
    ensures var x := (a * 0x4_0000 + b * 0x1000) / 0x1_0000;
            && x == 4 * a + b / 16 && x < 256
            && x * 0x1_0000 / 0x4_0000 == a
            && x * 0x1_0000 / 0x1000 % 64 == b - b % 16
  {
    var x := (a * 0x4_0000 + b * 0x1000) / 0x1_0000;
    assert a * 0x4_0000 + b * 0x1000 == 0x1000 * (64 * a + b);
    assert x == (64 * a + b) / 16;
    assert x * 0x1_0000 / 0x1000 == 16 * x;
    assert x * 0x1_0000 / 0x4_0000 == x / 4;
    assert 16 * x == 64 * a + (b - b % 16);
  }

  lemma SixteenBits(a: Sextet, b: Sextet, e: int)
    requires 0 <= e < 16
    ensures var u := 0x100 * (0x400 * a + 16 * b + e);
            u / 0x4_0000 == a && u / 0x1000 % 64 == b && u / 64 % 64 == 4 * e
  {
    var u := 0x100 * (0x400 * a + 16 * b + e);
    assert u / 64 == 0x1000 * a + 64 * b + 4 * e;
    assert u / 0x1000 == 64 * a + b;
  }

  lemma TopBytes(t: int)
    requires 0 <= t
    ensures t / 0x1_0000 * 0x1_0000 + t / 0x100 % 0x100 * 0x100 == 0x100 * (t / 0x100)
  {
    var q := t / 0x100;
    assert t / 0x1_0000 == q / 0x100 && q == 0x100 * (q / 0x100) + q % 0x100;
  }

  lemma TwoBytes(a: Sextet, b: Sextet, c: Sextet)
    ensures var t := a * 0x4_0000 + b * 0x1000 + c * 64;
            var u := t / 0x1_0000 * 0x1_0000 + t / 0x100 % 0x100 * 0x100;
            && u / 0x4_0000 == a && u / 0x1000 % 64 == b && u / 64 % 64 == c - c % 4
  {
    var t := a * 0x4_0000 + b * 0x1000 + c * 64;
    assert t / 0x100 == 0x400 * a + 16 * b + c / 4;
    TopBytes(t);
    SixteenBits(a, b, c / 4);
  }

  lemma OneByteText(a: Sextet, b: Sextet)
    ensures var four := [CharOf(a), CharOf(b), '=', '='];
            Four(Three(four)[..1]) == [CharOf(a), CharOf(b - b % 16), '=', '=']
  {
    OneByte(a, b);
    NumberOf(a, b, '=', '=');
    var x: Byte := (a as int * 0x4_0000 + b as int * 0x1000) / 0x1_0000;
    assert Triple([x]) == x as int * 0x1_0000;
  }

  lemma TwoBytesText(a: Sextet, b: Sextet, c: Sextet)
    ensures var four := [CharOf(a), CharOf(b), CharOf(c), '='];
            Four(Three(four)[..2]) == [CharOf(a), CharOf(b), CharOf(c - c % 4), '=']
  {
    AlphabetInverse(c);
    NumberOf(a, b, CharOf(c), '=');
    var t := a as int * 0x4_0000 + b as int * 0x1000 + c as int * 64;
    var x: Byte, y: Byte := t / 0x1_0000, t / 0x100 % 0x100;
    FirstTwo([CharOf(a), CharOf(b), CharOf(c), '='], t);
    TwoBytes(a, b, c);
    FourOfTwo(x, y, a, b, c - c % 4);
  }

  lemma FirstTwo(four: string, t: int)
    requires |four| == 4 && Legible(four) && Number(four) == t
    ensures Three(four)[..2] == [t / 0x1_0000, t / 0x100 % 0x100]
  {
    var three := ThreeOf(t);
    assert three[..2] == [three[0], three[1]];
  }

  lemma FourOfTwo(x: Byte, y: Byte, a: Sextet, b: Sextet, c: Sextet)
    requires var u := x as int * 0x1_0000 + y as int * 0x100; u / 0x4_0000 == a && u / 0x1000 % 64 == b && u / 64 % 64 == c
    ensures Four([x, y]) == [CharOf(a), CharOf(b), CharOf(c), '=']
  {
    assert Triple([x, y]) == x as int * 0x1_0000 + y as int * 0x100;
  }

  lemma NumberOf(a: Sextet, b: Sextet, c: char, d: char)
    requires (InAlphabet(c) || c == '=') && (InAlphabet(d) || d == '=')
    ensures var four := [CharOf(a), CharOf(b), c, d];
            && Legible(four)
            && Number(four) == a as int * 0x4_0000 + b as int * 0x1000 + ValueOf(c) as int * 64 + ValueOf(d)
  {
    AlphabetInverse(a);
    AlphabetInverse(b);
  }

  lemma SameCharacter(v: Sextet, w: Sextet)
    ensures CharOf(v) == CharOf(w) <==> v == w
  {
    if CharOf(v) == CharOf(w) {
      CharInjective(v, w);
    }
  }

  lemma LastOfOne(four: string)
    requires CanonicalBase64(four, 1)
    ensures Four(Three(four)[..1]) == four <==> UnusedBits(four, 1) == 0
  {
    CanonicalCharacters(four, 1);
    var a, b := ValueOf(four[0]), ValueOf(four[1]);
    OneByteText(a, b);
    ValueInverse(four[0]);
    ValueInverse(four[1]);
    SameCharacter(b, b - b % 16);
    assert four == [CharOf(a), CharOf(b), '=', '='];
  }

  lemma LastOfTwo(four: string)
    requires CanonicalBase64(four, 2)
    ensures Four(Three(four)[..2]) == four <==> UnusedBits(four, 2) == 0
  {
    CanonicalCharacters(four, 2);
    var a, b, c := ValueOf(four[0]), ValueOf(four[1]), ValueOf(four[2]);
    ValueInverse(four[0]);
    ValueInverse(four[1]);
    ValueInverse(four[2]);
    assert four == [CharOf(a), CharOf(b), CharOf(c), '='];
    TwoBytesText(a, b, c);
    SameCharacter(c, c - c % 4);
    OneDiffers(CharOf(a), CharOf(b), CharOf(c), CharOf(c - c % 4));
  }

  lemma OneDiffers(a: char, b: char, c: char, d: char)
    ensures [a, b, c, '='] == [a, b, d, '='] <==> c == d
  {
    assert [a, b, c, '='][2] == c && [a, b, d, '='][2] == d;
  }

  lemma LastGroup(four: string, n: nat)
    requires 1 <= n <= 3 && CanonicalBase64(four, n)
    ensures Four(Three(four)[..n]) == four <==> UnusedBits(four, n) == 0
  {
    if n == 1 {
      LastOfOne(four);
    } else if n == 2 {
      LastOfTwo(four);
    } else {
      assert Three(four)[..3] == Three(four);
      FullGroupReencodes(four);
    }
  }

  lemma CanonicalSplits(s: string, n: nat)
    requires CanonicalBase64(s, n) && n > 3
    ensures CanonicalBase64(s[..4], 3) && CanonicalBase64(s[4..], n - 3)
  {
    GroupLengths(n);
    var cut := |s| - |PaddingOf(n)|;
    AlphabetParts(s, cut);
    PaddingAfter(s, cut);
    FullGroupIsCanonical(s[..4]);
  }

  /** Three more bytes are one more group, and the padding stays. */
  lemma GroupLengths(n: nat)
    requires n > 3
    ensures (n + 2) / 3 * 4 == (n - 3 + 2) / 3 * 4 + 4 >= 8
    ensures PaddingOf(n) == PaddingOf(n - 3) && |PaddingOf(n)| <= 2
  {
  }

  lemma PaddingAfter(s: string, cut: nat)
    requires 4 <= cut <= |s|
    ensures s[4..][cut - 4..] == s[cut..]
  {
  }

  lemma FullGroupIsCanonical(four: string)
    requires |four| == 4 && AllInAlphabet(four)
    ensures CanonicalBase64(four, 3)
  {
    assert four[..4] == four && four[4..] == "";
  }

  lemma AlphabetParts(s: string, cut: nat)
    requires 4 <= cut <= |s| && AllInAlphabet(s[..cut])
    ensures AllInAlphabet(s[..4]) && AllInAlphabet(s[4..][..cut - 4])
  {
    assert forall i :: 0 <= i < cut ==> s[..cut][i] == s[i];
  }

  /** How many bytes the last group of n bytes holds. */
  function LastCount(n: nat): (m: nat)
    requires n > 0
    ensures 1 <= m <= 3
  {
    if n % 3 == 0 then 3 else n % 3
  }

  function LastFour(s: string): string
    requires |s| >= 4
  {
    s[|s| - 4..]
  }

  lemma UnusedBitsOfLast(s: string, n: nat)
    requires CanonicalBase64(s, n)
    ensures n > 0 && |s| >= 4 && CanonicalBase64(LastFour(s), LastCount(n))
    ensures UnusedBits(s, n) == UnusedBits(LastFour(s), LastCount(n))
  {
    CanonicalCharacters(s, n);
    var last, padding := LastFour(s), |PaddingOf(n)|;
    assert PaddingOf(LastCount(n)) == PaddingOf(n);
    assert last[4 - padding..] == s[|s| - padding..];
    assert forall i :: 0 <= i < 4 ==> last[i] == s[|s| - 4 + i];
  }

  lemma JoinedEqually(head: string, a: string, b: string)
    ensures head + a == head + b <==> a == b
  {
    assert (head + a)[|head|..] == a && (head + b)[|head|..] == b;
  }

  lemma GroupTakenOff(s: string, g: nat, n: nat, three: Decoder)
    requires Triples(three) && 3 < n <= 3 * g && |s| == 4 * g
    ensures n <= |BytesWith(s, three)|
    ensures Head(BytesWith(s, three)[..n]) == three(s[..4])
    ensures Tail(BytesWith(s, three)[..n]) == BytesWith(s[4..], three)[..n - 3]
  {
    var head, rest := three(s[..4]), BytesWith(s[4..], three);
    assert BytesWith(s, three) == head + rest;
    assert (head + rest)[..n] == head + rest[..n - 3];
  }

  /** Encoding the first n decoded bytes gives the text back. */
  ghost predicate Returns(s: string, n: nat, four: Coder, three: Decoder)
    requires Triples(three)
  {
    n <= |BytesWith(s, three)| && EncodeWith(BytesWith(s, three)[..n], four) == s
  }

  lemma ShortReturns(s: string, n: nat, four: Coder, three: Decoder)
    requires Triples(three) && 1 <= n <= 3 && |s| == 4
    ensures Returns(s, n, four, three) <==> four(three(s)[..n]) == s
  {
    var g := three(s)[..n];
    assert s[..4] == s && s[4..] == "" && BytesWith(s, three)[..n] == g;
    assert EncodeWith(g, four) == four(Head(g)) + EncodeWith([], four);
    assert four(g) + "" == four(g);
  }

  lemma LongReturns(s: string, g: nat, n: nat, four: Coder, three: Decoder)
    requires Triples(three) && 3 < n <= 3 * g && |s| == 4 * g && four(three(s[..4])) == s[..4]
    ensures Returns(s, n, four, three) <==> Returns(s[4..], n - 3, four, three)
  {
    GroupTakenOff(s, g, n, three);
    assert s == s[..4] + s[4..];
    JoinedEqually(s[..4], EncodeWith(BytesWith(s[4..], three)[..n - 3], four), s[4..]);
  }

  /** Every group but the last is what encoding its bytes gives. */
  ghost predicate FullGroupsReturn(s: string, four: Coder, three: Decoder)
    decreases |s|
  {
    |s| > 4 ==> four(three(s[..4])) == s[..4] && FullGroupsReturn(s[4..], four, three)
  }

  /** The induction over the groups needs of `Returns` only what LongReturns says, so it is a parameter. */
  ghost predicate IsReturns(holds: (string, nat) -> bool, four: Coder, three: Decoder) {
    Triples(three) &&
    forall s, n {:trigger Returns(s, n, four, three)} :: holds(s, n) == Returns(s, n, four, three)
  }

  lemma LongReturnsAs(holds: (string, nat) -> bool, s: string, g: nat, n: nat, four: Coder, three: Decoder)
    requires IsReturns(holds, four, three)
    requires 3 < n <= 3 * g && |s| == 4 * g && four(three(s[..4])) == s[..4]
    ensures holds(s, n) == holds(s[4..], n - 3)
  {
    LongReturns(s, g, n, four, three);
  }

  lemma {:induction false} Reencodes(holds: (string, nat) -> bool, s: string, g: nat, n: nat, m: nat,
                                     four: Coder, three: Decoder)
    requires IsReturns(holds, four, three) && FullGroupsReturn(s, four, three)
    requires 1 <= m <= 3 && g > 0 && |s| == 4 * g && n == 3 * (g - 1) + m
    ensures holds(s, n) == holds(LastFour(s), m)
    decreases g
  {
    if g == 1 {
      assert LastFour(s) == s;
    } else {
      LongReturnsAs(holds, s, g, n, four, three);
      Reencodes(holds, s[4..], g - 1, n - 3, m, four, three);
      assert LastFour(s[4..]) == LastFour(s);
    }
  }

  ghost predicate GroupsReencode(four: Coder, three: Decoder) {
    forall s {:trigger three(s)} :: CanonicalBase64(s, 3) ==> four(three(s)) == s
  }

  lemma FourAndThreeReencode()
    ensures GroupsReencode(Four, Three)
  {
    forall t | CanonicalBase64(t, 3)
      ensures Four(Three(t)) == t
    {
      FullGroupReencodes(t);
    }
  }

  lemma {:induction false} CanonicalGroupsReturn(s: string, n: nat, four: Coder, three: Decoder)
    requires CanonicalBase64(s, n) && GroupsReencode(four, three)
    ensures FullGroupsReturn(s, four, three)
    decreases n
  {
    if n > 3 {
      CanonicalSplits(s, n);
      assert four(three(s[..4])) == s[..4];
      CanonicalGroupsReturn(s[4..], n - 3, four, three);
    }
  }

  /** The check does not make the text unique: what passes it is what encoding would give back
      exactly when the bits no byte takes up are zero. */
  lemma CanonicalIsUniqueWhenUnusedBitsAreZero(s: string, n: nat)
    requires CanonicalBase64(s, n)
    ensures Decode(s).Some?
    ensures Encode(Decode(s).value) == s <==> UnusedBits(s, n) == 0
  {
    CanonicalDecodes(s, n);
    ReturnsWhenUnusedBitsAreZero(s, n);
  }

  lemma ReturnsWhenUnusedBitsAreZero(s: string, n: nat)
    requires CanonicalBase64(s, n)
    ensures Returns(s, n, Four, Three) <==> UnusedBits(s, n) == 0
  {
    UnusedBitsOfLast(s, n);
    LastReturns(LastFour(s), LastCount(n));
    FourAndThreeReencode();
    CanonicalGroupsReturn(s, n, Four, Three);
    AllButLastReturn(s, n, Four, Three);
  }

  lemma LastReturns(four: string, m: nat)
    requires 1 <= m <= 3 && CanonicalBase64(four, m)
    ensures Returns(four, m, Four, Three) <==> UnusedBits(four, m) == 0
  {
    LastGroup(four, m);
    ShortReturns(four, m, Four, Three);
  }

  lemma AllButLastReturn(s: string, n: nat, four: Coder, three: Decoder)
    requires Triples(three) && n > 0 && |s| == (n + 2) / 3 * 4 && FullGroupsReturn(s, four, three)
    ensures Returns(s, n, four, three) <==> Returns(LastFour(s), LastCount(n), four, three)
  {
    var holds := (t: string, k: nat) => Returns(t, k, four, three);
    Reencodes(holds, s, (n + 2) / 3, n, LastCount(n), four, three);
  }
}
