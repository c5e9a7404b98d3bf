/** Overlapping chunks of a document (packages/memory/src/ingest.ts:91-135). A `char` is a UTF-16
    code unit. */
module Chunking {
  import opened Prelude

  const CHUNK_CHARACTERS: nat := 1_800
  const CHUNK_OVERLAP: nat := 160
  /** 55 percent of a chunk. */
  const MINIMUM: nat := 990

  predicate At(text: string, pattern: string, i: int) {
    0 <= i <= |text| - |pattern| && text[i..i + |pattern|] == pattern
  }

  /** The last occurrence that starts at or before the position, or -1. */
  function LastIndexOf(text: string, pattern: string, from: int): (i: int)
    ensures -1 <= i && (i >= 0 ==> i <= from && i + |pattern| <= |text|)
    decreases from + 1
  {
    if from < 0 then -1
    else if At(text, pattern, from) then from
    else LastIndexOf(text, pattern, from - 1)
  }

  lemma {:induction false} LastIndexOfIsLast(text: string, pattern: string, from: int)
    ensures var i := LastIndexOf(text, pattern, from);
            (i >= 0 ==> At(text, pattern, i)) && forall j :: 0 <= j && i < j <= from ==> !At(text, pattern, j)
    decreases from + 1
  {
    if from >= 0 && !At(text, pattern, from) {
      LastIndexOfIsLast(text, pattern, from - 1);
    }
  }

  /** Where a chunk that starts at `start` ends: at the last heading, else the last blank line, else
      just after the last full stop, of those no earlier than 990 characters on; else at the hard end. */
  function Boundary(input: string, start: nat): (end: nat)
    requires start < |input|
    ensures end <= |input| && start < end <= start + CHUNK_CHARACTERS + 1
    ensures end < |input| ==> start + MINIMUM <= end
  {
    var hardEnd := start + CHUNK_CHARACTERS;
    if hardEnd >= |input| then |input|
    else
      var heading, blank, stop := LastIndexOf(input, "\n#", hardEnd), LastIndexOf(input, "\n\n", hardEnd),
                                  LastIndexOf(input, ". ", hardEnd) + 1;
      if heading >= start + MINIMUM then heading
      else if blank >= start + MINIMUM then blank
      else if stop >= start + MINIMUM then stop
      else hardEnd
  }

  /** A cut of the window a chunk may end in, made at one of the pattern's occurrences. */
  ghost predicate InWindow(input: string, start: nat, pattern: string, shift: nat, end: int) {
    start + MINIMUM <= end <= start + CHUNK_CHARACTERS + shift && At(input, pattern, end - shift)
  }

  ghost predicate HasCut(input: string, start: nat, pattern: string, shift: nat) {
    exists end :: InWindow(input, start, pattern, shift, end)
  }

  ghost predicate LastCut(input: string, start: nat, pattern: string, shift: nat, end: int) {
    InWindow(input, start, pattern, shift, end) &&
    forall later :: InWindow(input, start, pattern, shift, later) ==> later <= end
  }

  lemma LastIndexIsLastCut(input: string, start: nat, pattern: string, shift: nat)
    requires shift <= MINIMUM
    ensures var end := LastIndexOf(input, pattern, start + CHUNK_CHARACTERS) + shift;
            && (HasCut(input, start, pattern, shift) <==> end >= start + MINIMUM)
            && (end >= start + MINIMUM ==> LastCut(input, start, pattern, shift, end))
  {
    var last := LastIndexOf(input, pattern, start + CHUNK_CHARACTERS);
    LastIndexOfIsLast(input, pattern, start + CHUNK_CHARACTERS);
    if last + shift >= start + MINIMUM {
      assert InWindow(input, start, pattern, shift, last + shift);
    }
  }

  /** Headings come before blank lines, blank lines before full stops; of each kind, the last cut in
      the window is taken; without any, the chunk has its full length. */
  lemma BoundaryIsPreferred(input: string, start: nat)
    requires start + CHUNK_CHARACTERS < |input|
    ensures var end := Boundary(input, start);
            if HasCut(input, start, "\n#", 0) then LastCut(input, start, "\n#", 0, end)
            else if HasCut(input, start, "\n\n", 0) then LastCut(input, start, "\n\n", 0, end)
            else if HasCut(input, start, ". ", 1) then LastCut(input, start, ". ", 1, end)
            else end == start + CHUNK_CHARACTERS
  {
    LastIndexIsLastCut(input, start, "\n#", 0);
    if !HasCut(input, start, "\n#", 0) {
      LastIndexIsLastCut(input, start, "\n\n", 0);
      if !HasCut(input, start, "\n\n", 0) {
        LastIndexIsLastCut(input, start, ". ", 1);
      }
    }
  }

  datatype Chunk = Chunk(id: nat, index: nat, text: string, startOffset: nat, endOffset: nat)

  function Later(a: nat, b: int): nat {
    if b > a then b else a
  }

  datatype Cut = Cut(start: nat, end: nat)

  /** The cuts from an offset on: the loop as a recursion. */
  function Cuts(text: string, start: nat): (cuts: seq<Cut>)
    requires start < |text|
    decreases |text| - start
  {
    var end := Boundary(text, start);
    if end >= |text| then [Cut(start, end)]
    else [Cut(start, end)] + Cuts(text, Later(start + 1, end - CHUNK_OVERLAP))
  }

  function AllCuts(text: string): seq<Cut> {
    if text == "" then [] else Cuts(text, 0)
  }

  predicate CutOk(text: string, c: Cut) {
    c.start < c.end <= |text| && c.end - c.start <= CHUNK_CHARACTERS + 1
  }

  /** The next cut starts 160 characters before the end of this one, and at least 830 on. */
  predicate Follows(text: string, c: Cut, d: Cut) {
    c.end < |text| && c.end >= c.start + MINIMUM && d.start == c.end - CHUNK_OVERLAP && d.end > c.end
  }

  ghost predicate Chain(text: string, cuts: seq<Cut>) {
    && cuts != [] && cuts[|cuts| - 1].end == |text|
    && (forall k :: 0 <= k < |cuts| ==> CutOk(text, cuts[k]))
    && (forall k, m :: 0 <= k < |cuts| - 1 && m == k + 1 ==> Follows(text, cuts[k], cuts[m]))
  }

  lemma ChainExtends(text: string, c: Cut, cuts: seq<Cut>)
    requires Chain(text, cuts) && CutOk(text, c) && Follows(text, c, cuts[0])
    ensures Chain(text, [c] + cuts)
  {
    var longer := [c] + cuts;
    assert forall k :: 0 < k < |longer| ==> longer[k] == cuts[k - 1];
  }

  lemma NextCut(text: string, start: nat)
    requires start < |text| && Boundary(text, start) < |text|
    ensures var end := Boundary(text, start);
            var next := Later(start + 1, end - CHUNK_OVERLAP);
            && next == end - CHUNK_OVERLAP
            && CutOk(text, Cut(start, end)) && Follows(text, Cut(start, end), Cut(next, Boundary(text, next)))
  {
  }

  /** The cuts still to make. */
  function Remaining(text: string, start: nat): seq<Cut> {
    if start < |text| then Cuts(text, start) else []
  }

  function NextStart(text: string, start: nat, end: nat): nat {
    if end >= |text| then |text| else Later(start + 1, end - CHUNK_OVERLAP)
  }

  lemma CutsSplit(text: string, start: nat)
    requires start < |text|
    ensures var end := Boundary(text, start);
            && start < NextStart(text, start, end) <= |text|
            && (end < |text| ==> NextStart(text, start, end) < |text|)
            && Cuts(text, start) == [Cut(start, end)] + Remaining(text, NextStart(text, start, end))
  {
    if Boundary(text, start) < |text| {
      NextCut(text, start);
    }
  }

  lemma ChainEnds(text: string, c: Cut)
    requires CutOk(text, c) && c.end == |text|
    ensures Chain(text, [c])
  {
  }

  lemma ChainStep(text: string, start: nat, rest: seq<Cut>)
    requires start < |text| && Boundary(text, start) < |text| && Chain(text, rest)
    requires var next := NextStart(text, start, Boundary(text, start));
             next < |text| && rest[0] == Cut(next, Boundary(text, next))
    ensures Chain(text, [Cut(start, Boundary(text, start))] + rest)
  {
    NextCut(text, start);
    ChainExtends(text, Cut(start, Boundary(text, start)), rest);
  }

  lemma {:induction false} CutsChain(text: string, start: nat)
    requires start < |text|
    ensures Chain(text, Cuts(text, start))
    ensures Cuts(text, start)[0] == Cut(start, Boundary(text, start))
    decreases |text| - start
  {
    var end := Boundary(text, start);
    CutsSplit(text, start);
    var rest := Remaining(text, NextStart(text, start, end));
    if end < |text| {
      CutsChain(text, NextStart(text, start, end));
      ChainStep(text, start, rest);
    } else {
      ChainEnds(text, Cut(start, end));
    }
    assert ([Cut(start, end)] + rest)[0] == Cut(start, end);
  }

  function ChunkOf(text: string, id: nat, index: nat, c: Cut): Chunk
    requires c.start <= c.end <= |text|
  {
    Chunk(id, index, text[c.start..c.end], c.start, c.end)
  }

  ghost predicate ChunksOf(text: string, ids: nat -> nat, cuts: seq<Cut>, chunks: seq<Chunk>) {
    && |chunks| == |cuts|
    && forall k :: 0 <= k < |cuts| ==> cuts[k].start <= cuts[k].end <= |text| && chunks[k] == ChunkOf(text, ids(k), k, cuts[k])
  }

  /** The chunks the document is cut into. */
  ghost predicate Chunked(text: string, ids: nat -> nat, chunks: seq<Chunk>) {
    ChunksOf(text, ids, AllCuts(text), chunks)
  }

  lemma CutsStep(text: string, start: nat, done: seq<Cut>)
    requires start < |text|
    ensures var end := Boundary(text, start);
            && done + Cuts(text, start) == done + [Cut(start, end)] + Remaining(text, NextStart(text, start, end))
            && |done + Cuts(text, start)| > |done|
  {
    CutsSplit(text, start);
  }

  lemma ChunksSnoc(text: string, ids: nat -> nat, cuts: seq<Cut>, chunks: seq<Chunk>, c: Cut)
    requires ChunksOf(text, ids, cuts, chunks) && c.start <= c.end <= |text|
    ensures ChunksOf(text, ids, cuts + [c], chunks + [ChunkOf(text, ids(|chunks|), |chunks|, c)])
  {
  }

  /** The chunks made so far are the first ones of the document; the rest starts at `start`. */
  ghost predicate Progress(text: string, ids: nat -> nat, start: nat, done: seq<Cut>, chunks: seq<Chunk>) {
    AllCuts(text) == done + Remaining(text, start) && ChunksOf(text, ids, done, chunks)
  }

  lemma ProgressStep(text: string, ids: nat -> nat, start: nat, done: seq<Cut>, chunks: seq<Chunk>)
    requires start < |text| && Progress(text, ids, start, done, chunks)
    ensures var end := Boundary(text, start);
            var c := Cut(start, end);
            && start < NextStart(text, start, end) <= |text|
            && Progress(text, ids, NextStart(text, start, end), done + [c],
                        chunks + [ChunkOf(text, ids(|chunks|), |chunks|, c)])
    ensures |AllCuts(text)| > |chunks|
  {
    CutsSplit(text, start);
    CutsStep(text, start, done);
    ChunksSnoc(text, ids, done, chunks, Cut(start, Boundary(text, start)));
  }

  lemma ProgressEnds(text: string, ids: nat -> nat, done: seq<Cut>, chunks: seq<Chunk>)
    requires Progress(text, ids, |text|, done, chunks)
    ensures Chunked(text, ids, chunks) && |chunks| == |AllCuts(text)|
  {
    assert done + [] == done;
  }

  lemma ProgressStarts(text: string, ids: nat -> nat)
    ensures Progress(text, ids, 0, [], [])
  {
    assert [] + Remaining(text, 0) == AllCuts(text);
  }

  method CreateChunks(text: string, ids: nat -> nat, maxChunks: nat) returns (r: Option<seq<Chunk>>)
    ensures r.Some? <==> |AllCuts(text)| <= maxChunks
    ensures r.Some? ==> Chunked(text, ids, r.value)
  {
    var chunks: seq<Chunk> := [];
    var start := 0;
    ghost var done: seq<Cut> := [];
    ProgressStarts(text, ids);
    while start < |text|
      invariant start <= |text| && |chunks| <= maxChunks
      invariant Progress(text, ids, start, done, chunks)
      decreases |text| - start
    {
      ProgressStep(text, ids, start, done, chunks);
      if |chunks| >= maxChunks {
        return None;
      }
      var end := Boundary(text, start);
      chunks := chunks + [ChunkOf(text, ids(|chunks|), |chunks|, Cut(start, end))];
      done := done + [Cut(start, end)];
      start := NextStart(text, start, end);
    }
    ProgressEnds(text, ids, done, chunks);
    return Some(chunks);
  }

  // What the chunks of a document are.

  /** A chunk without the characters it shares with the one before. */
  function Fresh(c: Chunk): string {
    if |c.text| >= CHUNK_OVERLAP then c.text[CHUNK_OVERLAP..] else ""
  }

  function Rebuilt(chunks: seq<Chunk>): string {
    if chunks == [] then ""
    else if |chunks| == 1 then chunks[0].text
    else Rebuilt(chunks[..|chunks| - 1]) + Fresh(chunks[|chunks| - 1])
  }

  lemma CutAt(text: string, k: nat)
    requires k < |AllCuts(text)|
    ensures CutOk(text, AllCuts(text)[k])
    ensures k == 0 ==> AllCuts(text)[k].start == 0
    ensures k == |AllCuts(text)| - 1 ==> AllCuts(text)[k].end == |text|
  {
    CutsChain(text, 0);
  }

  lemma ChunkIsSlice(text: string, ids: nat -> nat, chunks: seq<Chunk>, k: nat)
    requires Chunked(text, ids, chunks) && k < |chunks|
    ensures var c := chunks[k];
            && c.index == k && c.startOffset < c.endOffset <= |text| && c.text == text[c.startOffset..c.endOffset]
            && 1 <= |c.text| <= CHUNK_CHARACTERS + 1
    ensures k == 0 ==> chunks[k].startOffset == 0
    ensures k == |chunks| - 1 ==> chunks[k].endOffset == |text|
  {
    CutAt(text, k);
    assert chunks[k] == ChunkOf(text, ids(k), k, AllCuts(text)[k]);
  }

  lemma NeighbourOffsets(text: string, ids: nat -> nat, chunks: seq<Chunk>, k: nat)
    requires Chunked(text, ids, chunks) && k + 1 < |chunks|
    ensures chunks[k + 1].startOffset == chunks[k].endOffset - CHUNK_OVERLAP
    ensures chunks[k + 1].startOffset >= chunks[k].startOffset + 830
    ensures chunks[k + 1].endOffset > chunks[k].endOffset
  {
    CutsChain(text, 0);
    assert Follows(text, AllCuts(text)[k], AllCuts(text)[k + 1]);
  }

  /** Neighbouring chunks share exactly 160 characters. */
  lemma ChunksOverlap(text: string, ids: nat -> nat, chunks: seq<Chunk>, k: nat)
    requires Chunked(text, ids, chunks) && k + 1 < |chunks|
    ensures chunks[k + 1].startOffset == chunks[k].endOffset - CHUNK_OVERLAP
    ensures chunks[k + 1].startOffset >= chunks[k].startOffset + 830
    ensures |chunks[k].text| >= CHUNK_OVERLAP && |chunks[k + 1].text| > CHUNK_OVERLAP
    ensures chunks[k].text[|chunks[k].text| - CHUNK_OVERLAP..] == chunks[k + 1].text[..CHUNK_OVERLAP]
  {
    NeighbourOffsets(text, ids, chunks, k);
    ChunkIsSlice(text, ids, chunks, k);
    ChunkIsSlice(text, ids, chunks, k + 1);
    SlicesMeet(text, chunks[k].startOffset, chunks[k].endOffset, chunks[k + 1].startOffset, chunks[k + 1].endOffset);
  }

  lemma SlicesMeet(text: string, a: nat, b: nat, c: nat, d: nat)
    requires a <= c <= b <= d <= |text|
    ensures text[a..b][c - a..] == text[c..d][..b - c]
  {
  }

  lemma FreshIsNew(text: string, ids: nat -> nat, chunks: seq<Chunk>, k: nat)
    requires Chunked(text, ids, chunks) && k + 1 < |chunks|
    ensures chunks[k].endOffset <= chunks[k + 1].endOffset <= |text|
    ensures Fresh(chunks[k + 1]) == text[chunks[k].endOffset..chunks[k + 1].endOffset]
  {
    ChunksOverlap(text, ids, chunks, k);
    NeighbourOffsets(text, ids, chunks, k);
    ChunkIsSlice(text, ids, chunks, k + 1);
  }

  lemma PrefixGrows(text: string, e: nat, f: nat)
    requires e <= f <= |text|
    ensures text[..f] == text[..e] + text[e..f]
  {
  }

  lemma {:induction false} RebuiltUpTo(text: string, ids: nat -> nat, chunks: seq<Chunk>, n: nat)
    requires Chunked(text, ids, chunks) && 0 < n <= |chunks|
    ensures chunks[n - 1].endOffset <= |text| && Rebuilt(chunks[..n]) == text[..chunks[n - 1].endOffset]
  {
    var prefix := chunks[..n];
    if n == 1 {
      ChunkIsSlice(text, ids, chunks, 0);
    } else {
      RebuiltUpTo(text, ids, chunks, n - 1);
      FreshIsNew(text, ids, chunks, n - 2);
      assert prefix[..n - 1] == chunks[..n - 1];
      PrefixGrows(text, chunks[n - 2].endOffset, chunks[n - 1].endOffset);
    }
  }

  /** The first chunk and every later one without its first 160 characters make up the document. */
  lemma ChunksRebuild(text: string, ids: nat -> nat, chunks: seq<Chunk>)
    requires Chunked(text, ids, chunks)
    ensures Rebuilt(chunks) == text
  {
    if text != "" {
      CutsChain(text, 0);
      RebuiltUpTo(text, ids, chunks, |chunks|);
      ChunkIsSlice(text, ids, chunks, |chunks| - 1);
      assert chunks[..|chunks|] == chunks && text[..|text|] == text;
    }
  }

  lemma {:induction false} StartsAdvance(text: string, ids: nat -> nat, chunks: seq<Chunk>, k: nat)
    requires Chunked(text, ids, chunks) && k < |chunks|
    ensures chunks[k].startOffset >= 830 * k
  {
    if k > 0 {
      StartsAdvance(text, ids, chunks, k - 1);
      ChunksOverlap(text, ids, chunks, k - 1);
    }
  }

  /** How many chunks a document can have. */
  lemma ChunkCount(text: string, ids: nat -> nat, chunks: seq<Chunk>)
    requires Chunked(text, ids, chunks)
    ensures chunks == [] <==> text == ""
    ensures chunks != [] ==> 830 * (|chunks| - 1) < |text|
  {
    if text != "" {
      CutsChain(text, 0);
      StartsAdvance(text, ids, chunks, |chunks| - 1);
      ChunkIsSlice(text, ids, chunks, |chunks| - 1);
    }
  }
}
