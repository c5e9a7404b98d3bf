/** Redaction of sensitive spans and its reversal (packages/privacy/src/redaction.ts). A `char`
    stands for a UTF-16 code unit; only ASCII ones are ever compared with anything. */
module Redaction {
  import opened Prelude

  const MAX_TEXT: nat := 1_048_576
  const MAX_RESPONSE: nat := 1_048_576

  datatype Severity = Sensitive | Restricted

  /** Categories are values of an enumeration; a sorted array of distinct ones is their set. */
  datatype Span = Span(start: int, end: int, category: nat, severity: Severity)

  datatype Merged = Merged(start: nat, end: nat, categories: set<nat>, severity: Severity)

  datatype Error = InvalidInput | PayloadTooLarge

  predicate SpanOk(text: string, s: Span) {
    0 <= s.start < s.end <= |text|
  }

  // Sorting by start, longer spans first; equal ones stay in their order.

  predicate Before(s: Span, t: Span) {
    s.start < t.start || (s.start == t.start && s.end >= t.end)
  }

  function Insert(s: Span, sorted: seq<Span>): seq<Span> {
    if sorted == [] || Before(s, sorted[0]) then [s] + sorted
    else [sorted[0]] + Insert(s, sorted[1..])
  }

  function Sort(spans: seq<Span>): seq<Span> {
    if spans == [] then [] else Insert(spans[0], Sort(spans[1..]))
  }

  ghost predicate StartsAscend(spans: seq<Span>) {
    forall i, j :: 0 <= i < j < |spans| ==> spans[i].start <= spans[j].start
  }

  lemma {:induction false} InsertPermutes(s: Span, sorted: seq<Span>)
    ensures multiset(Insert(s, sorted)) == multiset([s] + sorted)
  {
    if sorted != [] && !Before(s, sorted[0]) {
      InsertPermutes(s, sorted[1..]);
      assert sorted == [sorted[0]] + sorted[1..];
    }
  }

  lemma {:induction false} InsertSorts(s: Span, sorted: seq<Span>)
    requires StartsAscend(sorted)
    ensures StartsAscend(Insert(s, sorted))
  {
    if sorted != [] && !Before(s, sorted[0]) {
      var rest := sorted[1..];
      InsertSorts(s, rest);
      forall t | t in Insert(s, rest)
        ensures sorted[0].start <= t.start
      {
        InsertPermutes(s, rest);
        assert t in multiset(Insert(s, rest));
      }
    }
  }

  lemma {:induction false} SortSorts(spans: seq<Span>)
    ensures StartsAscend(Sort(spans)) && multiset(Sort(spans)) == multiset(spans)
  {
    if spans != [] {
      SortSorts(spans[1..]);
      InsertSorts(spans[0], Sort(spans[1..]));
      InsertPermutes(spans[0], Sort(spans[1..]));
      assert spans == [spans[0]] + spans[1..];
    }
  }

  lemma SortKeeps(spans: seq<Span>, s: Span)
    ensures s in Sort(spans) <==> s in spans
  {
    SortSorts(spans);
    assert s in Sort(spans) <==> s in multiset(Sort(spans));
    assert s in spans <==> s in multiset(spans);
  }

  // What merging promises.

  predicate Inside(s: Span, m: Merged) {
    m.start <= s.start && s.end <= m.end
  }

  /** Merged spans lie within the text, in order, with at least one character between two of them. */
  ghost predicate Separated(text: string, merged: seq<Merged>) {
    && (forall i :: 0 <= i < |merged| ==> merged[i].start < merged[i].end <= |text|)
    && (forall i, j :: 0 <= i < j < |merged| ==> merged[i].end < merged[j].start)
  }

  ghost predicate Covered(spans: seq<Span>, p: int) {
    exists s :: s in spans && s.start <= p < s.end
  }

  ghost predicate CoveredByMerged(merged: seq<Merged>, p: int) {
    exists m :: m in merged && m.start <= p < m.end
  }

  ghost predicate SameCover(spans: seq<Span>, merged: seq<Merged>) {
    forall p :: Covered(spans, p) <==> CoveredByMerged(merged, p)
  }

  /** A merged span has just the categories of the spans inside it, and the worst severity of them. */
  ghost predicate Sums(spans: seq<Span>, m: Merged) {
    && (forall c :: c in m.categories <==> HasCategory(spans, m, c))
    && (m.severity == Restricted <==> HasRestricted(spans, m))
  }

  ghost predicate HasCategory(spans: seq<Span>, m: Merged, c: nat) {
    exists s :: s in spans && Inside(s, m) && s.category == c
  }

  ghost predicate HasRestricted(spans: seq<Span>, m: Merged) {
    exists s :: s in spans && Inside(s, m) && s.severity == Restricted
  }

  ghost predicate IsMerge(text: string, spans: seq<Span>, merged: seq<Merged>) {
    && Separated(text, merged)
    && SameCover(spans, merged)
    && (forall s :: s in spans ==> exists m :: m in merged && Inside(s, m))
    && (forall m :: m in merged ==> Sums(spans, m))
  }

  // One iteration of the merging loop.

  function Opened(s: Span): Merged
    requires 0 <= s.start < s.end
  {
    Merged(s.start, s.end, {s.category}, s.severity)
  }

  function Widened(m: Merged, s: Span): Merged
    requires 0 <= s.start < s.end
  {
    Merged(m.start, if s.end > m.end then s.end else m.end, m.categories + {s.category},
           if s.severity == Restricted then Restricted else m.severity)
  }

  ghost predicate AllOk(text: string, spans: seq<Span>) {
    forall s :: s in spans ==> SpanOk(text, s)
  }

  lemma CoverGrows(spans: seq<Span>, s: Span, p: int)
    ensures Covered(spans + [s], p) <==> Covered(spans, p) || s.start <= p < s.end
  {
    if t :| t in spans && t.start <= p < t.end {
      assert t in spans + [s];
    }
    if s.start <= p < s.end {
      assert s in spans + [s];
    }
  }

  lemma MergedCoverGrows(merged: seq<Merged>, m: Merged, p: int)
    ensures CoveredByMerged(merged + [m], p) <==> CoveredByMerged(merged, p) || m.start <= p < m.end
  {
    if n :| n in merged && n.start <= p < n.end {
      assert n in merged + [m];
    }
    if m.start <= p < m.end {
      assert m in merged + [m];
    }
  }

  /** A span beyond a merged one adds nothing to it. */
  lemma SumsStay(spans: seq<Span>, s: Span, m: Merged)
    requires Sums(spans, m) && !Inside(s, m)
    ensures Sums(spans + [s], m)
  {
    var longer := spans + [s];
    forall c: nat
      ensures HasCategory(spans, m, c) <==> HasCategory(longer, m, c)
    {
      if t :| t in spans && Inside(t, m) && t.category == c {
        assert t in longer;
      }
    }
    if t :| t in spans && Inside(t, m) && t.severity == Restricted {
      assert t in longer;
    }
  }

  /** The situation in which the loop opens a new merged span. */
  ghost predicate Opens(text: string, spans: seq<Span>, merged: seq<Merged>, s: Span) {
    && IsMerge(text, spans, merged) && AllOk(text, spans) && SpanOk(text, s)
    && (merged != [] ==> s.start > merged[|merged| - 1].end)
  }

  lemma OpensMerge(text: string, spans: seq<Span>, merged: seq<Merged>, s: Span)
    requires Opens(text, spans, merged, s)
    ensures IsMerge(text, spans + [s], merged + [Opened(s)])
  {
    OpensCover(text, spans, merged, s);
    OpensContains(text, spans, merged, s);
    OpensSums(text, spans, merged, s);
    OpensSeparated(text, spans, merged, s);
  }

  lemma OpensCover(text: string, spans: seq<Span>, merged: seq<Merged>, s: Span)
    requires Opens(text, spans, merged, s)
    ensures SameCover(spans + [s], merged + [Opened(s)])
  {
    forall p
      ensures Covered(spans + [s], p) <==> CoveredByMerged(merged + [Opened(s)], p)
    {
      CoverGrows(spans, s, p);
      MergedCoverGrows(merged, Opened(s), p);
    }
  }

  lemma OpensContains(text: string, spans: seq<Span>, merged: seq<Merged>, s: Span)
    requires Opens(text, spans, merged, s)
    ensures forall t :: t in spans + [s] ==> exists n :: n in merged + [Opened(s)] && Inside(t, n)
  {
    var m := Opened(s);
    assert m in merged + [m];
    forall t | t in spans + [s]
      ensures exists n :: n in merged + [m] && Inside(t, n)
    {
      if t in spans {
        var n :| n in merged && Inside(t, n);
        assert n in merged + [m];
      } else {
        assert Inside(t, m);
      }
    }
  }

  lemma OpensSeparated(text: string, spans: seq<Span>, merged: seq<Merged>, s: Span)
    requires Opens(text, spans, merged, s)
    ensures Separated(text, merged + [Opened(s)])
    ensures forall n :: n in merged ==> n.end < s.start
  {
  }

  lemma OpensSums(text: string, spans: seq<Span>, merged: seq<Merged>, s: Span)
    requires Opens(text, spans, merged, s)
    ensures forall n :: n in merged + [Opened(s)] ==> Sums(spans + [s], n)
  {
    OpensSeparated(text, spans, merged, s);
    forall n | n in merged
      ensures Sums(spans + [s], n)
    {
      SumsStay(spans, s, n);
    }
    forall t | t in spans
      ensures !Inside(t, Opened(s))
    {
      assert SpanOk(text, t);
      var n :| n in merged && Inside(t, n);
    }
    OnlySums(spans, s);
  }

  lemma OnlySums(spans: seq<Span>, s: Span)
    requires 0 <= s.start < s.end && forall t :: t in spans ==> !Inside(t, Opened(s))
    ensures Sums(spans + [s], Opened(s))
  {
    var longer := spans + [s];
    assert s in longer && Inside(s, Opened(s));
    assert forall t :: t in longer && Inside(t, Opened(s)) ==> t == s;
  }

  /** The situation in which the loop widens its last merged span. */
  ghost predicate Widens(text: string, spans: seq<Span>, merged: seq<Merged>, s: Span) {
    && IsMerge(text, spans, merged) && AllOk(text, spans) && SpanOk(text, s)
    && merged != [] && merged[|merged| - 1].start <= s.start <= merged[|merged| - 1].end
  }

  function WidenedLast(merged: seq<Merged>, s: Span): seq<Merged>
    requires merged != [] && 0 <= s.start < s.end
  {
    merged[..|merged| - 1] + [Widened(merged[|merged| - 1], s)]
  }

  lemma WidensCover(text: string, spans: seq<Span>, merged: seq<Merged>, s: Span)
    requires Widens(text, spans, merged, s)
    ensures SameCover(spans + [s], WidenedLast(merged, s))
  {
    var others, last := merged[..|merged| - 1], merged[|merged| - 1];
    var m := Widened(last, s);
    assert merged == others + [last];
    forall p
      ensures Covered(spans + [s], p) <==> CoveredByMerged(others + [m], p)
    {
      CoverGrows(spans, s, p);
      MergedCoverGrows(others, last, p);
      MergedCoverGrows(others, m, p);
    }
  }

  lemma WidensContains(text: string, spans: seq<Span>, merged: seq<Merged>, s: Span)
    requires Widens(text, spans, merged, s)
    ensures forall t :: t in spans + [s] ==> exists n :: n in WidenedLast(merged, s) && Inside(t, n)
  {
    var wider, last := WidenedLast(merged, s), merged[|merged| - 1];
    var m := Widened(last, s);
    assert wider[|merged| - 1] == m && Inside(s, m);
    forall t | t in spans
      ensures exists n :: n in wider && Inside(t, n)
    {
      var n :| n in merged && Inside(t, n);
      var k :| 0 <= k < |merged| && merged[k] == n;
      assert wider[k] == if k == |merged| - 1 then m else n;
      assert Inside(t, wider[k]);
    }
  }

  lemma WidensSums(text: string, spans: seq<Span>, merged: seq<Merged>, s: Span)
    requires Widens(text, spans, merged, s)
    ensures forall n :: n in WidenedLast(merged, s) ==> Sums(spans + [s], n)
  {
    var others, last := merged[..|merged| - 1], merged[|merged| - 1];
    forall n | n in others
      ensures Sums(spans + [s], n)
    {
      assert n in merged;
      SumsStay(spans, s, n);
    }
    forall t | t in spans
      ensures Inside(t, Widened(last, s)) <==> Inside(t, last)
    {
      assert SpanOk(text, t);
      var n :| n in merged && Inside(t, n);
    }
    assert last in merged;
    SumsWiden(spans, s, last);
  }

  lemma WidensMerge(text: string, spans: seq<Span>, merged: seq<Merged>, s: Span)
    requires Widens(text, spans, merged, s)
    ensures IsMerge(text, spans + [s], WidenedLast(merged, s))
  {
    WidensCover(text, spans, merged, s);
    WidensContains(text, spans, merged, s);
    WidensSums(text, spans, merged, s);
  }

  lemma SumsWiden(spans: seq<Span>, s: Span, last: Merged)
    requires 0 <= s.start < s.end && Sums(spans, last) && Inside(s, Widened(last, s))
    requires forall t :: t in spans ==> (Inside(t, Widened(last, s)) <==> Inside(t, last))
    ensures Sums(spans + [s], Widened(last, s))
  {
    var longer, m := spans + [s], Widened(last, s);
    assert s in longer;
    forall c: nat
      ensures c in m.categories <==> HasCategory(longer, m, c)
    {
      if t :| t in spans && Inside(t, last) && t.category == c {
        assert t in longer && Inside(t, m);
      }
      if t :| t in longer && Inside(t, m) && t.category == c {
        assert t == s || t in spans;
      }
    }
    if t :| t in spans && Inside(t, last) && t.severity == Restricted {
      assert t in longer && Inside(t, m);
    }
    if t :| t in longer && Inside(t, m) && t.severity == Restricted {
      assert t == s || t in spans;
    }
  }

  /** The loop over the sorted spans, widening the last merged one or opening another. */
  method MergeSorted(text: string, sorted: seq<Span>) returns (merged: seq<Merged>)
    requires StartsAscend(sorted) && AllOk(text, sorted)
    ensures IsMerge(text, sorted, merged)
  {
    merged := [];
    for i := 0 to |sorted|
      invariant IsMerge(text, sorted[..i], merged)
      invariant merged != [] ==> i > 0 && merged[|merged| - 1].start <= sorted[i - 1].start
    {
      var span := sorted[i];
      assert span in sorted;
      assert sorted[..i + 1] == sorted[..i] + [span];
      assert AllOk(text, sorted[..i]);
      if merged == [] || span.start > merged[|merged| - 1].end {
        OpensMerge(text, sorted[..i], merged, span);
        merged := merged + [Opened(span)];
      } else {
        WidensMerge(text, sorted[..i], merged, span);
        merged := merged[..|merged| - 1] + [Widened(merged[|merged| - 1], span)];
      }
    }
    assert sorted[..|sorted|] == sorted;
  }

  lemma SameSpansSameMerge(text: string, spans: seq<Span>, others: seq<Span>, merged: seq<Merged>)
    requires IsMerge(text, spans, merged) && forall s :: s in spans <==> s in others
    ensures IsMerge(text, others, merged)
  {
    forall p
      ensures Covered(others, p) <==> CoveredByMerged(merged, p)
    {
      assert Covered(spans, p) <==> Covered(others, p);
    }
    forall m | m in merged
      ensures Sums(others, m)
    {
      assert Sums(spans, m);
    }
  }

  method MergeSensitiveSpans(text: string, input: seq<Span>) returns (r: Result<seq<Merged>, Error>)
    ensures r.Ok? <==> AllOk(text, input)
    ensures r.Ok? ==> IsMerge(text, input, r.value)
    ensures r.Err? ==> r.error == InvalidInput
  {
    for i := 0 to |input|
      invariant AllOk(text, input[..i])
    {
      if !(0 <= input[i].start < input[i].end <= |text|) {
        assert input[i] in input && !SpanOk(text, input[i]);
        return Err(InvalidInput);
      }
    }
    assert input[..|input|] == input;
    SortSorts(input);
    forall s
      ensures s in Sort(input) <==> s in input
    {
      SortKeeps(input, s);
    }
    var merged := MergeSorted(text, Sort(input));
    SameSpansSameMerge(text, Sort(input), input, merged);
    return Ok(merged);
  }
}
