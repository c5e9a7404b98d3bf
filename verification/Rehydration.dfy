/** Placeholders, the text they are put into, and the way back
    (packages/privacy/src/redaction.ts:27, 78-125). */
module Rehydration {
  import opened Prelude
  import opened Redaction

  const OPEN: string := "[[BCX_"
  const CLOSE: string := "]]"

  predicate IsDigit(c: char) { '0' <= c <= '9' }

  predicate IsHex(c: char) { '0' <= c <= '9' || 'a' <= c <= 'f' }

  predicate AllHex(s: string) { forall c :: c in s ==> IsHex(c) }

  predicate AllDigits(s: string) { forall c :: c in s ==> IsDigit(c) }

  predicate Occurs(pattern: string, text: string) {
    exists i :: 0 <= i <= |text| - |pattern| && text[i..][..|pattern|] == pattern
  }

  function Digit(n: nat): char
    requires n < 10
  {
    "0123456789"[n]
  }

  function Decimal(n: nat): string {
    if n < 10 then [Digit(n)] else Decimal(n / 10) + [Digit(n % 10)]
  }

  function Prefix(token: string): string {
    OPEN + token + "_"
  }

  function Placeholder(token: string, index: nat, suffix: string): string {
    Prefix(token) + Decimal(index) + "_" + suffix + CLOSE
  }

  /** The random draws of one redaction: 32 hexadecimal digits the text does not already use in a
      placeholder, and 16 for every span. */
  ghost predicate Draws(text: string, token: string, suffixes: nat -> string) {
    && |token| == 32 && AllHex(token) && !Occurs(Prefix(token), text)
    && (forall i: nat :: |suffixes(i)| == 16 && AllHex(suffixes(i)))
  }

  // The pattern.

  /** The text starts with a placeholder whose index has d digits. */
  predicate Form(s: string, d: nat) {
    && |s| >= 58 + d
    && s[..6] == OPEN && AllHex(s[6..38]) && s[38] == '_'
    && AllDigits(s[39..39 + d]) && s[39 + d] == '_'
    && AllHex(s[40 + d..56 + d]) && s[56 + d..58 + d] == CLOSE
  }

  /** How much the pattern matches at the start of the text; 0 where it does not. */
  function MatchLength(s: string): (m: nat)
    ensures m <= |s|
    ensures m > 0 ==> 59 <= m <= 62 && Form(s, m - 58)
  {
    if Form(s, 4) then 62 else if Form(s, 3) then 61 else if Form(s, 2) then 60 else if Form(s, 1) then 59 else 0
  }

  /** The pattern of the placeholders, written out. */
  ghost predicate IsPlaceholder(p: string, token: string, digits: string, suffix: string) {
    && p == "[[BCX_" + token + "_" + digits + "_" + suffix + "]]"
    && |token| == 32 && (forall c :: c in token ==> c in "0123456789abcdef")
    && 1 <= |digits| <= 4 && (forall c :: c in digits ==> c in "0123456789")
    && |suffix| == 16 && (forall c :: c in suffix ==> c in "0123456789abcdef")
  }

  lemma HexIs(c: char)
    ensures IsHex(c) <==> c in "0123456789abcdef"
    ensures IsDigit(c) <==> c in "0123456789"
  {
    if IsDigit(c) {
      assert c == "0123456789"[c as int - '0' as int] == "0123456789abcdef"[c as int - '0' as int];
    } else if IsHex(c) {
      assert c == "0123456789abcdef"[c as int - 'a' as int + 10];
    }
  }

  lemma AllHexIs(s: string)
    ensures AllHex(s) <==> forall c :: c in s ==> c in "0123456789abcdef"
    ensures AllDigits(s) <==> forall c :: c in s ==> c in "0123456789"
  {
    forall c: char
      ensures IsHex(c) <==> c in "0123456789abcdef"
      ensures IsDigit(c) <==> c in "0123456789"
    {
      HexIs(c);
    }
  }

  lemma FormIsPlaceholder(s: string, d: nat)
    requires 1 <= d <= 4 && Form(s, d)
    ensures |s| >= 58 + d && IsPlaceholder(s[..58 + d], s[6..38], s[39..39 + d], s[40 + d..56 + d])
  {
    AllHexIs(s[6..38]);
    AllHexIs(s[39..39 + d]);
    AllHexIs(s[40 + d..56 + d]);
    assert s[..58 + d] == s[..6] + s[6..38] + [s[38]] + s[39..39 + d] + [s[39 + d]] + s[40 + d..56 + d] + s[56 + d..58 + d];
  }

  lemma PlaceholderIsForm(s: string, m: nat, token: string, digits: string, suffix: string)
    requires m <= |s| && IsPlaceholder(s[..m], token, digits, suffix)
    ensures m == 58 + |digits| && Form(s, |digits|)
  {
    var p, d := s[..m], |digits|;
    AllHexIs(token);
    AllHexIs(digits);
    AllHexIs(suffix);
    PartsOfPlaceholder(p, token, digits, suffix);
    PrefixSlices(s, m, d);
  }

  lemma PartsOfPlaceholder(p: string, token: string, digits: string, suffix: string)
    requires p == "[[BCX_" + token + "_" + digits + "_" + suffix + "]]" && |token| == 32 && |suffix| == 16
    ensures var d := |digits|;
            && |p| == 58 + d && p[..6] == "[[BCX_" && p[6..38] == token && p[38] == '_' && p[39..39 + d] == digits
            && p[39 + d] == '_' && p[40 + d..56 + d] == suffix && p[56 + d..58 + d] == "]]"
  {
    var head, tail := "[[BCX_" + token + "_", "_" + suffix + "]]";
    assert p == head + digits + tail && |head| == 39 && |tail| == 19;
    assert head[..6] == "[[BCX_" && head[6..38] == token && head[38] == '_';
    assert tail[0] == '_' && tail[1..17] == suffix && tail[17..19] == "]]";
    InThree(head, digits, tail);
  }

  lemma InThree(head: string, digits: string, tail: string)
    requires |head| == 39 && |tail| == 19
    ensures var (p, d) := (head + digits + tail, |digits|);
            && |p| == 58 + d && p[..6] == head[..6] && p[6..38] == head[6..38] && p[38] == head[38] && p[39..39 + d] == digits
            && p[39 + d] == tail[0] && p[40 + d..56 + d] == tail[1..17] && p[56 + d..58 + d] == tail[17..19]
  {
  }

  lemma PrefixSlices(s: string, m: nat, d: nat)
    requires m <= |s| && m == 58 + d
    ensures var p := s[..m];
            && s[..6] == p[..6] && s[6..38] == p[6..38] && s[38] == p[38] && s[39..39 + d] == p[39..39 + d] && s[39 + d] == p[39 + d]
            && s[40 + d..56 + d] == p[40 + d..56 + d] && s[56 + d..58 + d] == p[56 + d..58 + d]
  {
  }

  /** The pattern matches at the start of a text exactly when the text begins with a placeholder, and then
      it matches that. */
  lemma MatchesExactly(s: string, m: nat)
    ensures MatchLength(s) == m && m > 0 <==>
            m <= |s| && exists token, digits, suffix :: IsPlaceholder(s[..m], token, digits, suffix)
  {
    if MatchLength(s) == m && m > 0 {
      FormIsPlaceholder(s, m - 58);
    }
    if m <= |s| && exists token, digits, suffix :: IsPlaceholder(s[..m], token, digits, suffix) {
      var token, digits, suffix :| IsPlaceholder(s[..m], token, digits, suffix);
      PlaceholderIsForm(s, m, token, digits, suffix);
      FormMatches(s, |digits|);
    }
  }

  lemma FormMatches(s: string, d: nat)
    requires 1 <= d <= 4 && Form(s, d)
    ensures MatchLength(s) == 58 + d
  {
    forall e | Form(s, e)
      ensures e == d
    {
      OneForm(s, d, e);
    }
  }

  function Resolved(placeholder: string, replacements: map<string, string>): string {
    if placeholder in replacements then replacements[placeholder] else placeholder
  }

  // Replacing every match of a pattern, given by how much it matches at the start of a text.

  /** The first match of the text if it starts with one, else its first character. */
  function Width(s: string, matching: string -> nat): (n: nat)
    requires s != []
    ensures 1 <= n <= |s|
  {
    if 0 < matching(s) <= |s| then matching(s) else 1
  }

  function Piece(s: string, matching: string -> nat, replacements: map<string, string>): string
    requires s != []
  {
    var first := s[..Width(s, matching)];
    if matching(s) > 0 then Resolved(first, replacements) else first
  }

  function Missing(s: string, matching: string -> nat, replacements: map<string, string>): set<string>
    requires s != []
  {
    var first := s[..Width(s, matching)];
    if matching(s) > 0 && first !in replacements then {first} else {}
  }

  /** Every match, leftmost first, replaced by what the map has for it. */
  function Replaced(s: string, matching: string -> nat, replacements: map<string, string>): string {
    if s == [] then []
    else Piece(s, matching, replacements) + Replaced(s[Width(s, matching)..], matching, replacements)
  }

  function Unresolved(s: string, matching: string -> nat, replacements: map<string, string>): set<string> {
    if s == [] then {}
    else Missing(s, matching, replacements) + Unresolved(s[Width(s, matching)..], matching, replacements)
  }

  /** Replacing in the whole text never changes the part t of it: no match starting there leaves it
      or stands for anything. */
  ghost predicate Clear(t: string, q: string, matching: string -> nat, replacements: map<string, string>) {
    forall k :: 0 <= k < |t| ==> ClearAt(t[k..], q, matching, replacements)
  }

  ghost predicate ClearAt(t: string, q: string, matching: string -> nat, replacements: map<string, string>) {
    var m := matching(t + q);
    m <= |t| && (m > 0 ==> t[..m] !in replacements)
  }

  lemma ClearTail(t: string, q: string, matching: string -> nat, replacements: map<string, string>, n: nat)
    requires Clear(t, q, matching, replacements) && n <= |t|
    ensures Clear(t[n..], q, matching, replacements)
  {
    var tail := t[n..];
    forall k | 0 <= k < |tail|
      ensures ClearAt(tail[k..], q, matching, replacements)
    {
      assert tail[k..] == t[n + k..];
    }
  }

  lemma ClearPiece(t: string, q: string, matching: string -> nat, replacements: map<string, string>)
    requires t != [] && Clear(t, q, matching, replacements)
    ensures var n := Width(t + q, matching);
            n <= |t| && Piece(t + q, matching, replacements) == t[..n] && (t + q)[n..] == t[n..] + q
  {
    assert t[0..] == t && ClearAt(t[0..], q, matching, replacements);
    var n := Width(t + q, matching);
    assert (t + q)[..n] == t[..n];
  }

  ghost predicate Kept(t: string, q: string, matching: string -> nat, replacements: map<string, string>) {
    Replaced(t + q, matching, replacements) == t + Replaced(q, matching, replacements)
  }

  lemma Unfolded(s: string, matching: string -> nat, replacements: map<string, string>, piece: string, rest: string)
    requires s != [] && piece == Piece(s, matching, replacements) && rest == s[Width(s, matching)..]
    ensures Replaced(s, matching, replacements) == piece + Replaced(rest, matching, replacements)
  {
  }

  lemma KeptStep(head: string, tail: string, q: string, matching: string -> nat, replacements: map<string, string>)
    requires Kept(tail, q, matching, replacements)
    requires Replaced(head + tail + q, matching, replacements) == head + Replaced(tail + q, matching, replacements)
    ensures Kept(head + tail, q, matching, replacements)
  {
    var end := Replaced(q, matching, replacements);
    assert head + (tail + end) == (head + tail) + end;
  }

  lemma {:induction false} ClearIsKept(t: string, q: string, matching: string -> nat, replacements: map<string, string>)
    requires Clear(t, q, matching, replacements)
    ensures Kept(t, q, matching, replacements)
    decreases |t|
  {
    if t == [] {
      assert t + q == q;
    } else {
      ClearPiece(t, q, matching, replacements);
      var n := Width(t + q, matching);
      ClearTail(t, q, matching, replacements, n);
      ClearIsKept(t[n..], q, matching, replacements);
      Unfolded(t + q, matching, replacements, t[..n], t[n..] + q);
      assert t[..n] + t[n..] == t;
      KeptStep(t[..n], t[n..], q, matching, replacements);
    }
  }

  /** A match that stands for something gives way to it. */
  lemma MatchIsReplaced(p: string, rest: string, matching: string -> nat, replacements: map<string, string>)
    requires p != [] && matching(p + rest) == |p| && p in replacements
    ensures Replaced(p + rest, matching, replacements) == replacements[p] + Replaced(rest, matching, replacements)
  {
    var s := p + rest;
    assert s[..|p|] == p && s[|p|..] == rest;
  }

  datatype Rehydrated = Rehydrated(text: string, unresolved: set<string>)

  ghost predicate Yields(s: string, matching: string -> nat, replacements: map<string, string>,
                         text: string, unresolved: set<string>)
  {
    text == Replaced(s, matching, replacements) && unresolved == Unresolved(s, matching, replacements)
  }

  /** What has been put out so far, with whatever the rest of the text yields, is what all of it yields. */
  ghost predicate Progress(s: string, position: nat, matching: string -> nat, replacements: map<string, string>,
                           text: string, unresolved: set<string>)
  {
    && position <= |s|
    && forall end, others :: Yields(s[position..], matching, replacements, end, others) ==>
         Yields(s, matching, replacements, text + end, unresolved + others)
  }

  lemma ProgressStep(s: string, position: nat, matching: string -> nat, replacements: map<string, string>,
                     text: string, unresolved: set<string>)
    requires position < |s| && Progress(s, position, matching, replacements, text, unresolved)
    ensures var rest := s[position..];
            Progress(s, position + Width(rest, matching), matching, replacements,
                     text + Piece(rest, matching, replacements), unresolved + Missing(rest, matching, replacements))
  {
    var rest := s[position..];
    var next := position + Width(rest, matching);
    var piece, missing := Piece(rest, matching, replacements), Missing(rest, matching, replacements);
    assert rest[Width(rest, matching)..] == s[next..];
    forall end, others | Yields(s[next..], matching, replacements, end, others)
      ensures Yields(s, matching, replacements, text + piece + end, unresolved + missing + others)
    {
      Unfolded(rest, matching, replacements, piece, s[next..]);
      assert Yields(rest, matching, replacements, piece + end, missing + others);
      assert text + (piece + end) == text + piece + end;
      assert unresolved + (missing + others) == unresolved + missing + others;
    }
  }

  lemma ProgressStarts(s: string, matching: string -> nat, replacements: map<string, string>)
    ensures Progress(s, 0, matching, replacements, "", {})
  {
    assert s[0..] == s;
    forall end, others | Yields(s, matching, replacements, end, others)
      ensures Yields(s, matching, replacements, "" + end, {} + others)
    {
      assert "" + end == end && {} + others == others;
    }
  }

  lemma ProgressEnds(s: string, matching: string -> nat, replacements: map<string, string>,
                     text: string, unresolved: set<string>)
    requires Progress(s, |s|, matching, replacements, text, unresolved)
    ensures text == Replaced(s, matching, replacements) && unresolved == Unresolved(s, matching, replacements)
  {
    assert s[|s|..] == [];
    assert Yields(s[|s|..], matching, replacements, "", {});
    assert text + [] == text && unresolved + {} == unresolved;
  }

  method ReplaceAll(s: string, matching: string -> nat, replacements: map<string, string>)
    returns (text: string, unresolved: set<string>)
    ensures text == Replaced(s, matching, replacements)
    ensures unresolved == Unresolved(s, matching, replacements)
  {
    text, unresolved := "", {};
    var position := 0;
    ProgressStarts(s, matching, replacements);
    while position < |s|
      invariant position <= |s| && Progress(s, position, matching, replacements, text, unresolved)
    {
      var rest := s[position..];
      ProgressStep(s, position, matching, replacements, text, unresolved);
      text := text + Piece(rest, matching, replacements);
      unresolved := unresolved + Missing(rest, matching, replacements);
      position := position + Width(rest, matching);
    }
    ProgressEnds(s, matching, replacements, text, unresolved);
  }

  /** What rehydrating a response comes to. */
  function Rehydrate(response: string, replacements: map<string, string>): Result<Rehydrated, Error> {
    if |response| > MAX_RESPONSE then Err(PayloadTooLarge)
    else Ok(Rehydrated(Replaced(response, MatchLength, replacements), Unresolved(response, MatchLength, replacements)))
  }

  method RehydrateText(response: string, replacements: map<string, string>) returns (r: Result<Rehydrated, Error>)
    ensures r == Rehydrate(response, replacements)
  {
    if |response| > MAX_RESPONSE {
      return Err(PayloadTooLarge);
    }
    var text, unresolved := ReplaceAll(response, MatchLength, replacements);
    return Ok(Rehydrated(text, unresolved));
  }

  /** The placeholders of a text, leftmost first and without overlap. */
  function Placeholders(s: string): set<string> {
    if s == [] then {}
    else
      var m := MatchLength(s);
      if m > 0 then {s[..m]} + Placeholders(s[m..]) else Placeholders(s[1..])
  }

  /** The text with each of them filled in that the map knows. */
  function FilledIn(s: string, replacements: map<string, string>): string {
    if s == [] then []
    else
      var m := MatchLength(s);
      if m == 0 then [s[0]] + FilledIn(s[1..], replacements)
      else if s[..m] in replacements then replacements[s[..m]] + FilledIn(s[m..], replacements)
      else s[..m] + FilledIn(s[m..], replacements)
  }

  lemma {:induction false} FillsIn(s: string, replacements: map<string, string>)
    ensures Replaced(s, MatchLength, replacements) == FilledIn(s, replacements)
    ensures Unresolved(s, MatchLength, replacements) == Placeholders(s) - replacements.Keys
    decreases |s|
  {
    if s != [] {
      var m := MatchLength(s);
      FillsIn(if m > 0 then s[m..] else s[1..], replacements);
      if m == 0 {
        assert s[..1] == [s[0]];
      }
    }
  }

  /** Rehydration fills in exactly the placeholders the map knows, and reports exactly the others. */
  lemma RehydratesExactly(response: string, replacements: map<string, string>)
    ensures Rehydrate(response, replacements) ==
            if |response| > MAX_RESPONSE then Err(PayloadTooLarge)
            else Ok(Rehydrated(FilledIn(response, replacements), Placeholders(response) - replacements.Keys))
  {
    FillsIn(response, replacements);
  }

  // Redaction.

  datatype Entry = Entry(span: Merged, placeholder: string)

  datatype Redacted = Redacted(sanitizedText: string, entries: seq<Entry>, replacementMap: map<string, string>)

  /** Where the text not yet copied starts when the i-th merged span is reached. */
  function Cursor(text: string, merged: seq<Merged>, i: nat): (cursor: nat)
    requires Separated(text, merged) && i <= |merged|
    ensures cursor <= |text| && (i < |merged| ==> cursor <= merged[i].start)
  {
    if i == 0 then 0 else merged[i - 1].end
  }

  function Between(text: string, merged: seq<Merged>, i: nat): string
    requires Separated(text, merged) && i < |merged|
  {
    text[Cursor(text, merged, i)..merged[i].start]
  }

  function Hidden(text: string, merged: seq<Merged>, i: nat): string
    requires Separated(text, merged) && i < |merged|
  {
    text[merged[i].start..merged[i].end]
  }

  /** The text from the end of the span before the i-th on, with the spans from there on replaced. */
  function Sanitized(text: string, merged: seq<Merged>, token: string, suffixes: nat -> string, i: nat): string
    requires Separated(text, merged) && i <= |merged|
    decreases |merged| - i
  {
    if i == |merged| then text[Cursor(text, merged, i)..]
    else
      Between(text, merged, i) + (Placeholder(token, i, suffixes(i)) + Sanitized(text, merged, token, suffixes, i + 1))
  }

  /** What the first n placeholders stand for. */
  function Replacements(text: string, merged: seq<Merged>, token: string, suffixes: nat -> string, n: nat): map<string, string>
    requires Separated(text, merged) && n <= |merged|
  {
    if n == 0 then map[]
    else
      Replacements(text, merged, token, suffixes, n - 1)
        [Placeholder(token, n - 1, suffixes(n - 1)) := Hidden(text, merged, n - 1)]
  }

  function SpansOf(entries: seq<Entry>): (spans: seq<Merged>)
    ensures |spans| == |entries|
  {
    seq(|entries|, i requires 0 <= i < |entries| => entries[i].span)
  }

  ghost predicate IsRedaction(text: string, spans: seq<Span>, token: string, suffixes: nat -> string, r: Redacted) {
    var merged := SpansOf(r.entries);
    && IsMerge(text, spans, merged)
    && (forall i :: 0 <= i < |r.entries| ==> r.entries[i].placeholder == Placeholder(token, i, suffixes(i)))
    && r.sanitizedText == Sanitized(text, merged, token, suffixes, 0)
    && r.replacementMap == Replacements(text, merged, token, suffixes, |merged|)
  }

  lemma Associates(a: string, b: string, c: string, d: string)
    ensures a + (b + (c + d)) == a + b + c + d
  {
  }

  lemma SanitizedStep(text: string, merged: seq<Merged>, token: string, suffixes: nat -> string, i: nat, before: string)
    requires Separated(text, merged) && i < |merged|
    ensures before + Sanitized(text, merged, token, suffixes, i) ==
            before + Between(text, merged, i) + Placeholder(token, i, suffixes(i)) +
            Sanitized(text, merged, token, suffixes, i + 1)
  {
    Associates(before, Between(text, merged, i), Placeholder(token, i, suffixes(i)),
               Sanitized(text, merged, token, suffixes, i + 1));
  }

  method RedactMerged(text: string, merged: seq<Merged>, token: string, suffixes: nat -> string) returns (r: Redacted)
    requires Separated(text, merged)
    ensures SpansOf(r.entries) == merged
    ensures forall i :: 0 <= i < |r.entries| ==> r.entries[i].placeholder == Placeholder(token, i, suffixes(i))
    ensures r.sanitizedText == Sanitized(text, merged, token, suffixes, 0)
    ensures r.replacementMap == Replacements(text, merged, token, suffixes, |merged|)
  {
    var replacementMap: map<string, string> := map[];
    var entries: seq<Entry> := [];
    var cursor, sanitizedText := 0, "";
    for index := 0 to |merged|
      invariant cursor == Cursor(text, merged, index)
      invariant sanitizedText + Sanitized(text, merged, token, suffixes, index) ==
                Sanitized(text, merged, token, suffixes, 0)
      invariant replacementMap == Replacements(text, merged, token, suffixes, index)
      invariant |entries| == index
      invariant forall k :: 0 <= k < index ==> entries[k] == Entry(merged[k], Placeholder(token, k, suffixes(k)))
    {
      SanitizedStep(text, merged, token, suffixes, index, sanitizedText);
      var span, placeholder := merged[index], Placeholder(token, index, suffixes(index));
      sanitizedText := sanitizedText + text[cursor..span.start];
      sanitizedText := sanitizedText + placeholder;
      replacementMap := replacementMap[placeholder := text[span.start..span.end]];
      entries := entries + [Entry(span, placeholder)];
      cursor := span.end;
    }
    sanitizedText := sanitizedText + text[cursor..];
    return Redacted(sanitizedText, entries, replacementMap);
  }

  method RedactSensitiveData(text: string, spans: seq<Span>, token: string, suffixes: nat -> string)
    returns (r: Result<Redacted, Error>)
    requires Draws(text, token, suffixes)
    ensures r.Ok? <==> |text| <= MAX_TEXT && AllOk(text, spans)
    ensures r.Err? ==> r.error == if |text| > MAX_TEXT then PayloadTooLarge else InvalidInput
    ensures r.Ok? ==> IsRedaction(text, spans, token, suffixes, r.value)
  {
    if |text| > MAX_TEXT {
      return Err(PayloadTooLarge);
    }
    var merging := MergeSensitiveSpans(text, spans);
    if merging.Err? {
      return Err(merging.error);
    }
    var redacted := RedactMerged(text, merging.value, token, suffixes);
    return Ok(redacted);
  }

  // Placeholders.

  lemma {:induction false} DecimalDigits(n: nat)
    ensures AllDigits(Decimal(n)) && |Decimal(n)| >= 1
    ensures |Decimal(n)| <= 4 <==> n < 10_000
    ensures |Decimal(n)| == 1 <==> n < 10
    ensures |Decimal(n)| <= 2 <==> n < 100
    ensures |Decimal(n)| <= 3 <==> n < 1_000
  {
    if n >= 10 {
      DecimalDigits(n / 10);
    }
  }

  lemma DigitInjective(m: nat, n: nat)
    requires m < 10 && n < 10 && Digit(m) == Digit(n)
    ensures m == n
  {
  }

  lemma DecimalEnd(n: nat)
    ensures Decimal(n) != [] && Decimal(n)[|Decimal(n)| - 1] == Digit(n % 10)
    ensures |Decimal(n)| > 1 <==> n >= 10
    ensures n >= 10 ==> Decimal(n)[..|Decimal(n)| - 1] == Decimal(n / 10)
  {
    DecimalDigits(n);
  }

  lemma {:induction false} DecimalInjective(m: nat, n: nat)
    requires Decimal(m) == Decimal(n)
    ensures m == n
    decreases m
  {
    DecimalEnd(m);
    DecimalEnd(n);
    DigitInjective(m % 10, n % 10);
    if m >= 10 {
      DecimalInjective(m / 10, n / 10);
    }
    assert m == 10 * (m / 10) + m % 10 && n == 10 * (n / 10) + n % 10;
  }

  lemma DigitsThen(s: string, t: string, r: string, q: string)
    requires AllDigits(s) && AllDigits(t) && s + "_" + r == t + "_" + q
    ensures s == t
  {
    var x := s + "_" + r;
    DigitReaches(s, "_" + r);
    DigitReaches(t, "_" + q);
    assert x == s + ("_" + r) && x == t + ("_" + q);
    assert s == x[..|s|] && t == x[..|t|];
  }

  function DigitReach(s: string): nat {
    if s == [] || !IsDigit(s[0]) then 0 else 1 + DigitReach(s[1..])
  }

  lemma {:induction false} DigitReaches(s: string, r: string)
    requires AllDigits(s) && r != [] && !IsDigit(r[0])
    ensures DigitReach(s + r) == |s|
  {
    if s == [] {
      assert s + r == r;
    } else {
      assert (s + r)[1..] == s[1..] + r && s[0] in s;
      DigitReaches(s[1..], r);
    }
  }

  /** Placeholders of different spans differ. */
  lemma PlaceholderInjective(token: string, i: nat, j: nat, s: string, t: string)
    requires Placeholder(token, i, s) == Placeholder(token, j, t)
    ensures i == j
  {
    var p, q := Placeholder(token, i, s), Placeholder(token, j, t);
    var n := |Prefix(token)|;
    assert p[n..] == Decimal(i) + "_" + (s + CLOSE);
    assert q[n..] == Decimal(j) + "_" + (t + CLOSE);
    DecimalDigits(i);
    DecimalDigits(j);
    DigitsThen(Decimal(i), Decimal(j), s + CLOSE, t + CLOSE);
    DecimalInjective(i, j);
  }

  lemma {:induction false} ReplacementOf(text: string, merged: seq<Merged>, token: string, suffixes: nat -> string, n: nat, i: nat)
    requires Separated(text, merged) && i < n <= |merged|
    ensures var p := Placeholder(token, i, suffixes(i));
            var replacements := Replacements(text, merged, token, suffixes, n);
            p in replacements && replacements[p] == Hidden(text, merged, i)
    decreases n
  {
    if i < n - 1 {
      ReplacementOf(text, merged, token, suffixes, n - 1, i);
      if Placeholder(token, i, suffixes(i)) == Placeholder(token, n - 1, suffixes(n - 1)) {
        PlaceholderInjective(token, i, n - 1, suffixes(i), suffixes(n - 1));
      }
    }
  }

  ghost predicate KeysCarry(token: string, replacements: map<string, string>) {
    forall key :: key in replacements ==> Prefix(token) <= key
  }

  lemma {:induction false} ReplacementKeys(text: string, merged: seq<Merged>, token: string, suffixes: nat -> string, n: nat)
    requires Separated(text, merged) && n <= |merged|
    ensures KeysCarry(token, Replacements(text, merged, token, suffixes, n))
  {
    if n > 0 {
      ReplacementKeys(text, merged, token, suffixes, n - 1);
    }
  }

  /** A placeholder with an index of up to four digits is matched exactly; a longer one is not matched. */
  lemma PlaceholderMatches(token: string, index: nat, suffix: string, rest: string)
    requires |token| == 32 && AllHex(token) && |suffix| == 16 && AllHex(suffix)
    ensures var p := Placeholder(token, index, suffix);
            MatchLength(p + rest) == if index < 10_000 then |p| else 0
  {
    var p, digits := Placeholder(token, index, suffix), Decimal(index);
    var s, d := p + rest, |Decimal(index)|;
    DecimalDigits(index);
    assert s[..6] == OPEN && s[6..38] == token && s[38] == '_';
    assert s[39..39 + d] == digits && s[39 + d] == '_';
    assert s[40 + d..56 + d] == suffix && s[56 + d..58 + d] == CLOSE;
    assert forall k :: 0 <= k < d ==> s[39 + k] == digits[k] && digits[k] in digits;
    assert Form(s, d);
    OneForm(s, d, 1);
    OneForm(s, d, 2);
    OneForm(s, d, 3);
    OneForm(s, d, 4);
  }

  lemma OneForm(s: string, d: nat, e: nat)
    requires Form(s, d)
    ensures Form(s, e) <==> d == e
  {
    if e < d {
      assert s[39 + e] in s[39..39 + d];
    } else if d < e && |s| >= 58 + e {
      assert s[39 + d] in s[39..39 + e];
    }
  }

  // Rehydrating what redaction produced.

  /** Only the first two characters of a match can be opening brackets. */
  lemma FormInner(s: string, d: nat, k: nat)
    requires Form(s, d) && d <= 4 && 2 <= k < 58 + d
    ensures s[k] != '['
  {
    if 6 <= k < 38 {
      assert s[k] in s[6..38];
    } else if 39 <= k < 39 + d {
      assert s[k] in s[39..39 + d];
    } else if 40 + d <= k < 56 + d {
      assert s[k] in s[40 + d..56 + d];
    } else if k < 6 {
      assert s[k] == s[..6][k];
    } else if 56 + d <= k {
      assert s[k] == s[56 + d..58 + d][k - 56 - d];
    }
  }

  /** A match that starts in the text before a placeholder ends before it. */
  lemma NoStraddle(t: string, q: string)
    requires t != [] && (q == [] || "[[" <= q)
    ensures MatchLength(t + q) <= |t|
  {
    var s := t + q;
    var m := MatchLength(s);
    if m > |t| {
      assert s[|t|] == q[0] && s[|t| + 1] == q[1];
      if |t| == 1 {
        FormInner(s, m - 58, 2);
      } else {
        FormInner(s, m - 58, |t|);
      }
    }
  }

  lemma FormStart(s: string)
    ensures MatchLength(s) > 0 ==> OPEN <= s && Prefix(s[6..38]) <= s
  {
    if MatchLength(s) > 0 {
      assert s[..39] == OPEN + s[6..38] + "_";
    }
  }

  lemma OccursLater(pattern: string, s: string, k: nat)
    requires k <= |s| && Occurs(pattern, s[k..])
    ensures Occurs(pattern, s)
  {
    var i :| 0 <= i <= |s[k..]| - |pattern| && s[k..][i..][..|pattern|] == pattern;
    assert s[k..][i..] == s[k + i..];
  }

  lemma OccursNowhereLater(pattern: string, s: string, k: nat)
    requires k <= |s| && !Occurs(pattern, s)
    ensures !Occurs(pattern, s[k..])
  {
    if Occurs(pattern, s[k..]) {
      OccursLater(pattern, s, k);
    }
  }

  lemma OccursNowhereEarlier(pattern: string, s: string, k: nat)
    requires k <= |s| && !Occurs(pattern, s)
    ensures !Occurs(pattern, s[..k])
  {
    forall i | 0 <= i <= k - |pattern|
      ensures s[..k][i..][..|pattern|] != pattern
    {
      assert s[i..][..|pattern|] == s[..k][i..][..|pattern|];
    }
  }

  lemma OccursAtStart(pattern: string, s: string)
    requires pattern <= s
    ensures Occurs(pattern, s)
  {
    assert s[0..][..|pattern|] == pattern;
  }

  /** Text without the token comes through unchanged, look-alikes of placeholders included. */
  lemma TextIsClear(t: string, q: string, token: string, replacements: map<string, string>)
    requires q == [] || "[[" <= q
    requires KeysCarry(token, replacements) && !Occurs(Prefix(token), t)
    ensures Clear(t, q, MatchLength, replacements)
  {
    forall k | 0 <= k < |t|
      ensures ClearAt(t[k..], q, MatchLength, replacements)
    {
      var u := t[k..];
      NoStraddle(u, q);
      OccursNowhereLater(Prefix(token), t, k);
      var m := MatchLength(u + q);
      if m > 0 && u[..m] in replacements {
        OccursAtStart(Prefix(token), u);
      }
    }
  }

  /** A placeholder the pattern does not match stays in the text. */
  lemma UnmatchedIsClear(p: string, rest: string, replacements: map<string, string>)
    requires OPEN <= p && MatchLength(p + rest) == 0
    requires forall k :: 2 <= k < |p| ==> p[k] != '['
    ensures Clear(p, rest, MatchLength, replacements)
  {
    forall k | 0 <= k < |p|
      ensures ClearAt(p[k..], rest, MatchLength, replacements)
    {
      var s := p[k..] + rest;
      if k == 0 {
        assert s == p + rest;
      } else {
        FormStart(s);
        assert k == 1 ==> s[1] == p[2];
        assert k >= 2 ==> s[0] == p[k];
      }
    }
  }

  lemma PlaceholderInside(token: string, index: nat, suffix: string)
    requires AllHex(token) && AllHex(suffix)
    ensures OPEN <= Placeholder(token, index, suffix) && "[[" <= Placeholder(token, index, suffix)
    ensures var p := Placeholder(token, index, suffix); forall k :: 2 <= k < |p| ==> p[k] != '['
  {
    DecimalDigits(index);
    var p := Placeholder(token, index, suffix);
    var inner := token + "_" + Decimal(index) + "_" + suffix;
    forall c | c in inner
      ensures c != '['
    {
      assert c in token || c in Decimal(index) || c in suffix || c == '_';
    }
    assert p == OPEN + inner + CLOSE;
    forall k | 2 <= k < |p|
      ensures p[k] != '['
    {
      if 6 <= k < 6 + |inner| {
        assert p[k] == inner[k - 6] && inner[k - 6] in inner;
      }
    }
  }

  lemma BetweenHasNoToken(text: string, merged: seq<Merged>, token: string, i: nat)
    requires Separated(text, merged) && i < |merged| && !Occurs(Prefix(token), text)
    ensures !Occurs(Prefix(token), Between(text, merged, i))
  {
    var c, e := Cursor(text, merged, i), merged[i].start;
    assert text[c..e] == text[..e][c..];
    OccursNowhereEarlier(Prefix(token), text, e);
    OccursNowhereLater(Prefix(token), text[..e], c);
  }

  /** The sanitized text, rehydrated, up to its next placeholder. */
  lemma BetweenIsKept(text: string, merged: seq<Merged>, token: string, suffixes: nat -> string, i: nat,
                      replacements: map<string, string>)
    requires Separated(text, merged) && i < |merged| && Draws(text, token, suffixes) && KeysCarry(token, replacements)
    ensures Replaced(Sanitized(text, merged, token, suffixes, i), MatchLength, replacements) ==
            Between(text, merged, i) +
            Replaced(Placeholder(token, i, suffixes(i)) + Sanitized(text, merged, token, suffixes, i + 1), MatchLength, replacements)
  {
    PlaceholderInside(token, i, suffixes(i));
    BetweenHasNoToken(text, merged, token, i);
    var t, q := Between(text, merged, i), Placeholder(token, i, suffixes(i)) + Sanitized(text, merged, token, suffixes, i + 1);
    TextIsClear(t, q, token, replacements);
    ClearIsKept(t, q, MatchLength, replacements);
  }

  lemma RestIsKept(text: string, c: nat, token: string, replacements: map<string, string>)
    requires c <= |text| && !Occurs(Prefix(token), text) && KeysCarry(token, replacements)
    ensures Replaced(text[c..], MatchLength, replacements) == text[c..]
  {
    OccursNowhereLater(Prefix(token), text, c);
    assert text[c..] + [] == text[c..];
    TextIsClear(text[c..], [], token, replacements);
    ClearIsKept(text[c..], [], MatchLength, replacements);
  }

  /** One placeholder gives way to the text it hides. */
  lemma SpanResolves(text: string, merged: seq<Merged>, token: string, suffixes: nat -> string, i: nat, rest: string,
                     replacements: map<string, string>)
    requires Separated(text, merged) && i < |merged| && i < 10_000 && Draws(text, token, suffixes)
    requires replacements == Replacements(text, merged, token, suffixes, |merged|)
    ensures Replaced(Placeholder(token, i, suffixes(i)) + rest, MatchLength, replacements) ==
            Hidden(text, merged, i) + Replaced(rest, MatchLength, replacements)
  {
    PlaceholderMatches(token, i, suffixes(i), rest);
    ReplacementOf(text, merged, token, suffixes, |merged|, i);
    MatchIsReplaced(Placeholder(token, i, suffixes(i)), rest, MatchLength, replacements);
  }

  /** One placeholder and the text before it, restored. */
  lemma SpanRestores(text: string, merged: seq<Merged>, token: string, suffixes: nat -> string, i: nat,
                     replacements: map<string, string>)
    requires Separated(text, merged) && i < |merged| && i < 10_000 && Draws(text, token, suffixes)
    requires replacements == Replacements(text, merged, token, suffixes, |merged|)
    ensures Replaced(Sanitized(text, merged, token, suffixes, i), MatchLength, replacements) ==
            Between(text, merged, i) +
            (Hidden(text, merged, i) + Replaced(Sanitized(text, merged, token, suffixes, i + 1), MatchLength, replacements))
  {
    ReplacementKeys(text, merged, token, suffixes, |merged|);
    BetweenIsKept(text, merged, token, suffixes, i, replacements);
    SpanResolves(text, merged, token, suffixes, i, Sanitized(text, merged, token, suffixes, i + 1), replacements);
  }

  lemma Reassembles(text: string, merged: seq<Merged>, i: nat)
    requires Separated(text, merged) && i < |merged|
    ensures text[Cursor(text, merged, i)..] ==
            Between(text, merged, i) + (Hidden(text, merged, i) + text[Cursor(text, merged, i + 1)..])
  {
  }

  lemma {:induction false} Restores(text: string, merged: seq<Merged>, token: string, suffixes: nat -> string, i: nat)
    requires Separated(text, merged) && i <= |merged| <= 10_000 && Draws(text, token, suffixes)
    ensures Replaced(Sanitized(text, merged, token, suffixes, i), MatchLength, Replacements(text, merged, token, suffixes, |merged|))
            == text[Cursor(text, merged, i)..]
    decreases |merged| - i
  {
    var replacements := Replacements(text, merged, token, suffixes, |merged|);
    ReplacementKeys(text, merged, token, suffixes, |merged|);
    var c := Cursor(text, merged, i);
    if i == |merged| {
      RestIsKept(text, c, token, replacements);
    } else {
      SpanRestores(text, merged, token, suffixes, i, replacements);
      Restores(text, merged, token, suffixes, i + 1);
      Reassembles(text, merged, i);
    }
  }

  /** With more spans than the pattern's four index digits can number, a placeholder stays behind. */
  lemma {:induction false} Leaves(text: string, merged: seq<Merged>, token: string, suffixes: nat -> string, i: nat)
    requires Separated(text, merged) && i <= 10_000 < |merged| && Draws(text, token, suffixes)
    ensures Occurs(Prefix(token),
                   Replaced(Sanitized(text, merged, token, suffixes, i), MatchLength, Replacements(text, merged, token, suffixes, |merged|)))
    decreases 10_000 - i
  {
    var replacements := Replacements(text, merged, token, suffixes, |merged|);
    ReplacementKeys(text, merged, token, suffixes, |merged|);
    var p, rest := Placeholder(token, i, suffixes(i)), Sanitized(text, merged, token, suffixes, i + 1);
    BetweenIsKept(text, merged, token, suffixes, i, replacements);
    var before, tail := Between(text, merged, i), Replaced(p + rest, MatchLength, replacements);
    if i < 10_000 {
      SpanResolves(text, merged, token, suffixes, i, rest, replacements);
      Leaves(text, merged, token, suffixes, i + 1);
      var hidden := Hidden(text, merged, i);
      assert tail[|hidden|..] == Replaced(rest, MatchLength, replacements);
      OccursLater(Prefix(token), tail, |hidden|);
    } else {
      PlaceholderMatches(token, i, suffixes(i), rest);
      PlaceholderInside(token, i, suffixes(i));
      UnmatchedIsClear(p, rest, replacements);
      ClearIsKept(p, rest, MatchLength, replacements);
      OccursAtStart(Prefix(token), tail);
    }
    assert (before + tail)[|before|..] == tail;
    OccursLater(Prefix(token), before + tail, |before|);
  }

  /** The text the redaction replaced comes back. */
  ghost predicate ComesBack(text: string, r: Redacted) {
    var rehydrated := Rehydrate(r.sanitizedText, r.replacementMap);
    rehydrated.Ok? && rehydrated.value.text == text
  }

  /** Rehydrating a redacted text with its own replacement map gives back the original exactly when
      no more than 10,000 spans were replaced and the sanitized text, which may be the longer of the
      two, is not too long to rehydrate, whatever look-alikes of placeholders it holds. */
  lemma RedactionRoundTrip(text: string, spans: seq<Span>, token: string, suffixes: nat -> string, r: Redacted)
    requires Draws(text, token, suffixes) && IsRedaction(text, spans, token, suffixes, r)
    ensures ComesBack(text, r) <==> |r.entries| <= 10_000 && |r.sanitizedText| <= MAX_RESPONSE
  {
    var merged := SpansOf(r.entries);
    if |r.entries| <= 10_000 {
      Restores(text, merged, token, suffixes, 0);
      assert text[0..] == text;
    } else {
      Leaves(text, merged, token, suffixes, 0);
    }
  }

  // How long the sanitized text is.

  /** What replacing the spans from the i-th on adds to the length; less than nothing where they are long. */
  function Growth(merged: seq<Merged>, i: nat): int
    requires i <= |merged|
    decreases |merged| - i
  {
    if i == |merged| then 0
    else 58 + |Decimal(i)| - (merged[i].end - merged[i].start) + Growth(merged, i + 1)
  }

  lemma {:induction false} SanitizedLength(text: string, merged: seq<Merged>, token: string, suffixes: nat -> string, i: nat)
    requires Separated(text, merged) && i <= |merged| && Draws(text, token, suffixes)
    ensures |Sanitized(text, merged, token, suffixes, i)| == |text| - Cursor(text, merged, i) + Growth(merged, i)
    decreases |merged| - i
  {
    if i < |merged| {
      SanitizedLength(text, merged, token, suffixes, i + 1);
      assert |Placeholder(token, i, suffixes(i))| == 58 + |Decimal(i)|;
    }
  }

  /** The length of what is rehydrated, from the spans alone. */
  lemma RedactedLength(text: string, spans: seq<Span>, token: string, suffixes: nat -> string, r: Redacted)
    requires Draws(text, token, suffixes) && IsRedaction(text, spans, token, suffixes, r)
    ensures |r.sanitizedText| == |text| + Growth(SpansOf(r.entries), 0)
  {
    SanitizedLength(text, SpansOf(r.entries), token, suffixes, 0);
  }

  /** A single span is its own merge. */
  lemma OneSpanMerges(text: string, s: Span, merged: seq<Merged>)
    requires SpanOk(text, s) && IsMerge(text, [s], merged)
    ensures |merged| == 1 && merged[0].start == s.start && merged[0].end == s.end
  {
    assert s in [s];
    var m :| m in merged && Inside(s, m);
    var k :| 0 <= k < |merged| && merged[k] == m;
    MergedWithin(text, s, merged, k);
    if |merged| > 1 {
      MergedWithin(text, s, merged, if k == 0 then 1 else 0);
    }
  }

  lemma MergedWithin(text: string, s: Span, merged: seq<Merged>, i: nat)
    requires SpanOk(text, s) && Separated(text, merged) && SameCover([s], merged) && i < |merged|
    ensures s.start <= merged[i].start && merged[i].end <= s.end
  {
    var n := merged[i];
    assert n in merged;
    assert CoveredByMerged(merged, n.start) && CoveredByMerged(merged, n.end - 1);
    assert Covered([s], n.start) && Covered([s], n.end - 1);
  }

  /** One short span in a text that is nearly full: the redaction takes it, and rehydrating what it
      gives back is refused. */
  lemma NearlyFullTextIsRefused(s: Span, token: string, suffixes: nat -> string, r: Redacted)
    requires var text := seq(1_048_570, _ => 'a');
             s.start == 0 && s.end == 1 && Draws(text, token, suffixes) && IsRedaction(text, [s], token, suffixes, r)
    ensures |seq(1_048_570, _ => 'a')| <= MAX_TEXT && AllOk(seq(1_048_570, _ => 'a'), [s]) && |r.entries| == 1
    ensures Rehydrate(r.sanitizedText, r.replacementMap) == Err(PayloadTooLarge)
  {
    var text := seq(1_048_570, _ => 'a');
    var merged := SpansOf(r.entries);
    OneSpanMerges(text, s, merged);
    RedactedLength(text, [s], token, suffixes, r);
    assert Growth(merged, 1) == 0 && Growth(merged, 0) == 58;
  }
}
