/** What the scores of a search are: which chunks have one, its formula, and how a result's combined score
    comes from the places of its chunk (packages/memory/src/retrieval.ts). */
module RetrievalScores {
  import opened Prelude
  import opened Retrieval
  import opened RetrievalResults

  // Which chunks are scored.

  lemma {:induction false} PutMembers(scores: Scores, id: Id, score: real, other: Id)
    ensures other in Ids(Put(scores, id, score)) <==> other in Ids(scores) || other == id
  {
    if scores == [] {
      assert Scored(id, score) in Put(scores, id, score);
    } else {
      IdsOfFirst(scores, other);
      IdsOfFirst(Put(scores, id, score), other);
      if scores[0].id == id {
        assert Put(scores, id, score)[1..] == scores[1..];
      } else {
        PutMembers(scores[1..], id, score, other);
        assert Put(scores, id, score)[1..] == Put(scores[1..], id, score);
      }
    }
  }

  lemma IdsOfFirst(scores: Scores, other: Id)
    requires scores != []
    ensures other in Ids(scores) <==> other == scores[0].id || other in Ids(scores[1..])
  {
    assert scores == [scores[0]] + scores[1..];
    assert scores[0] in scores;
    forall x | x in scores
      ensures x == scores[0] || x in scores[1..]
    {
    }
  }

  lemma {:induction false} ScoreAfterPut(scores: Scores, id: Id, score: real, other: Id)
    ensures ScoreOf(Put(scores, id, score), other) == if other == id then Some(score) else ScoreOf(scores, other)
  {
    if scores != [] && scores[0].id != id {
      ScoreAfterPut(scores[1..], id, score, other);
    }
  }

  lemma {:induction false} LexicalUpToScores(terms: seq<string>, chunks: seq<Chunk>, k: nat, log: real -> real, id: Id)
    requires k <= |chunks|
    ensures id in Ids(LexicalUpTo(terms, chunks, k, log)) <==>
            exists i :: 0 <= i < k && chunks[i].id == id && LexicalScore(terms, chunks[i], chunks, log) > 0.0
  {
    if k > 0 {
      var before := LexicalUpTo(terms, chunks, k - 1, log);
      LexicalUpToScores(terms, chunks, k - 1, log, id);
      PutMembers(before, chunks[k - 1].id, LexicalScore(terms, chunks[k - 1], chunks, log), id);
    }
  }

  /** A chunk has a lexical score exactly when the formula gives it a positive one. */
  lemma LexicallyScored(terms: seq<string>, chunks: seq<Chunk>, log: real -> real, id: Id)
    ensures id in Ids(Lexical(terms, chunks, log)) <==>
            terms != [] && exists i :: 0 <= i < |chunks| && chunks[i].id == id && LexicalScore(terms, chunks[i], chunks, log) > 0.0
  {
    LexicalUpToScores(terms, chunks, |chunks|, log, id);
  }

  /** The embedding is the chunk's, by the query's own model and revision, and comparable with it. */
  predicate Compares(e: Embedding, q: QueryVector, id: Id, sqrt: real -> real) {
    && e.chunkId == id && e.modelId == q.modelId && e.modelRevision == q.modelRevision
    && e.dimensions == |q.vector| && CosineOf(q.vector, e.vector, sqrt).Some?
  }

  /** A chunk has a vector score exactly when it is allowed and has an embedding by the query's own model
      and revision, of its dimensions, with a defined similarity. */
  lemma {:induction false} VectorScored(q: QueryVector, allowed: set<Id>, embeddings: seq<Embedding>, sqrt: real -> real, id: Id)
    ensures id in Ids(Vector(q, allowed, embeddings, sqrt)) <==>
            id in allowed && exists i :: 0 <= i < |embeddings| && Compares(embeddings[i], q, id, sqrt)
    decreases |embeddings|
  {
    if embeddings != [] {
      var n := |embeddings| - 1;
      var e := embeddings[n];
      VectorScored(q, allowed, embeddings[..n], sqrt, id);
      var cosine := CosineOf(q.vector, e.vector, sqrt);
      if cosine.Some? {
        PutMembers(Vector(q, allowed, embeddings[..n], sqrt), e.chunkId, cosine.value, id);
      }
      assert forall i :: 0 <= i < n ==> embeddings[..n][i] == embeddings[i];
    }
  }

  // The formula.

  const K1: real := 1.2
  const B: real := 0.75

  function Sum(chunks: seq<Chunk>): nat {
    if chunks == [] then 0 else Sum(chunks[..|chunks| - 1]) + |chunks[|chunks| - 1].terms|
  }

  /** The mean length of the chunks, or one where that would be nothing. */
  function MeanLength(chunks: seq<Chunk>): (mean: real)
    requires chunks != []
    ensures mean > 0.0
  {
    if Sum(chunks) == 0 then 1.0 else Sum(chunks) as real / |chunks| as real
  }

  /** One term's part of the Okapi BM25 score, for f occurrences in a text of a length and n of N texts
      with the term. */
  function Okapi(f: nat, n: nat, N: nat, length: nat, mean: real, log: real -> real): real
    requires mean > 0.0
  {
    log(1.0 + (N as real - n as real + 0.5) / (n as real + 0.5)) *
    (f as real * (K1 + 1.0) / (f as real + K1 * (1.0 - B + B * (length as real / mean))))
  }

  function Okapis(terms: seq<string>, c: Chunk, chunks: seq<Chunk>, log: real -> real): real
    requires chunks != []
  {
    if terms == [] then 0.0
    else
      var last := terms[|terms| - 1];
      Okapis(terms[..|terms| - 1], c, chunks, log) +
      if last in c.terms
      then Okapi(|set i | 0 <= i < |c.terms| && c.terms[i] == last|, |set i | 0 <= i < |chunks| && last in chunks[i].terms|,
                 |chunks|, |c.terms|, MeanLength(chunks), log)
      else 0.0
  }

  lemma {:induction false} OccurrencesCount(term: string, terms: seq<string>)
    ensures Occurrences(term, terms) == |set i | 0 <= i < |terms| && terms[i] == term|
    decreases |terms|
  {
    if terms != [] {
      var n := |terms| - 1;
      var fewer := set i | 0 <= i < n && terms[..n][i] == term;
      OccurrencesCount(term, terms[..n]);
      assert (set i | 0 <= i < |terms| && terms[i] == term) == fewer + if terms[n] == term then {n} else {};
    }
  }

  lemma {:induction false} ContainingCount(term: string, chunks: seq<Chunk>)
    ensures Containing(term, chunks) == |set i | 0 <= i < |chunks| && term in chunks[i].terms|
    decreases |chunks|
  {
    if chunks != [] {
      var n := |chunks| - 1;
      var fewer := set i | 0 <= i < n && term in chunks[..n][i].terms;
      ContainingCount(term, chunks[..n]);
      assert (set i | 0 <= i < |chunks| && term in chunks[i].terms) == fewer + if term in chunks[n].terms then {n} else {};
    }
  }

  lemma {:induction false} SumIsTotal(chunks: seq<Chunk>)
    ensures TotalLength(chunks) == Sum(chunks)
    decreases |chunks|
  {
    if chunks != [] {
      SumIsTotal(chunks[..|chunks| - 1]);
    }
  }

  lemma OccursExactly(term: string, terms: seq<string>)
    ensures Occurrences(term, terms) > 0 <==> term in terms
  {
    OccurrencesCount(term, terms);
    var places := set i | 0 <= i < |terms| && terms[i] == term;
    if term in terms {
      var i :| 0 <= i < |terms| && terms[i] == term;
      assert i in places;
    } else {
      assert places == {};
    }
  }

  lemma WeightIsOkapi(f: nat, n: nat, N: nat, length: nat, mean: real, log: real -> real)
    requires mean > 0.0
    ensures Weight(f, n, N, length, mean, log) == if f > 0 then Okapi(f, n, N, length, mean, log) else 0.0
  {
    var part := length as real / mean;
    assert 1.2 * (0.25 + 0.75 * part) == K1 * (1.0 - B + B * part);
  }

  /** The lexical score is Okapi BM25 with k1 = 1.2 and b = 0.75 over the chunks searched. */
  lemma {:induction false} LexicalIsOkapi(terms: seq<string>, c: Chunk, chunks: seq<Chunk>, log: real -> real)
    requires chunks != []
    ensures LexicalScore(terms, c, chunks, log) == Okapis(terms, c, chunks, log)
    decreases |terms|
  {
    if terms != [] {
      var last := terms[|terms| - 1];
      LexicalIsOkapi(terms[..|terms| - 1], c, chunks, log);
      OccurrencesCount(last, c.terms);
      OccursExactly(last, c.terms);
      ContainingCount(last, chunks);
      SumIsTotal(chunks);
      assert AverageLength(chunks) == MeanLength(chunks);
      WeightIsOkapi(Occurrences(last, c.terms), Containing(last, chunks), |chunks|, |c.terms|, MeanLength(chunks), log);
    }
  }

  // Places.

  /** How many of the first n scores come before the j-th: the higher ones, and the earlier equal ones. */
  function Ahead(scores: Scores, j: nat, n: nat): nat
    requires j < |scores| && n <= |scores|
  {
    if n == 0 then 0
    else
      Ahead(scores, j, n - 1) +
      if scores[n - 1].score > scores[j].score || (scores[n - 1].score == scores[j].score && n - 1 < j) then 1 else 0
  }

  function AtLeast(scores: Scores, score: real): nat {
    if scores == [] then 0 else (if scores[0].score >= score then 1 else 0) + AtLeast(scores[1..], score)
  }

  lemma {:induction false} AtLeastInsert(s: Scored, sorted: Scores, score: real)
    ensures AtLeast(Insert(s, sorted), score) == AtLeast(sorted, score) + if s.score >= score then 1 else 0
  {
    if sorted == [] || sorted[0].score < s.score {
      assert ([s] + sorted)[1..] == sorted;
    } else {
      AtLeastInsert(s, sorted[1..], score);
      assert Insert(s, sorted)[1..] == Insert(s, sorted[1..]);
    }
  }

  /** A new score stands behind all that are as high. */
  lemma {:induction false} InsertedPlace(s: Scored, sorted: Scores)
    requires Descending(sorted) && forall i :: 0 <= i < |sorted| ==> sorted[i].id != s.id
    ensures Place(Insert(s, sorted), s.id) == Some(1 + AtLeast(sorted, s.score))
  {
    if sorted == [] {
    } else if sorted[0].score < s.score {
      LowerAreNone(sorted, s.score);
    } else {
      InsertedPlace(s, sorted[1..]);
      assert Insert(s, sorted)[1..] == Insert(s, sorted[1..]);
    }
  }

  lemma {:induction false} LowerAreNone(sorted: Scores, score: real)
    requires Descending(sorted) && (sorted != [] ==> sorted[0].score < score)
    ensures AtLeast(sorted, score) == 0
  {
    if |sorted| > 1 {
      LowerAreNone(sorted[1..], score);
    }
  }

  /** It moves exactly the lower ones one place back. */
  lemma {:induction false} OtherPlace(s: Scored, sorted: Scores, k: nat)
    requires Descending(sorted) && k < |sorted| && sorted[k].id != s.id
    requires Place(sorted, sorted[k].id) == Some(k + 1)
    ensures Place(Insert(s, sorted), sorted[k].id) == Some(k + 1 + if s.score > sorted[k].score then 1 else 0)
  {
    var id := sorted[k].id;
    if sorted[0].score < s.score {
      assert ([s] + sorted)[1..] == sorted;
    } else {
      assert Insert(s, sorted)[1..] == Insert(s, sorted[1..]);
      if k > 0 {
        assert sorted[1..][k - 1] == sorted[k];
        OtherPlace(s, sorted[1..], k - 1);
      }
    }
  }

  lemma {:induction false} AheadOfPrefix(scores: Scores, j: nat, n: nat, m: nat)
    requires j < m <= |scores| && n <= m
    ensures Ahead(scores, j, n) == Ahead(scores[..m], j, n)
  {
    if n > 0 {
      AheadOfPrefix(scores, j, n - 1, m);
    }
  }

  lemma {:induction false} AheadOfLast(scores: Scores, n: nat)
    requires scores != [] && n < |scores|
    ensures Ahead(scores, |scores| - 1, n) == AtLeast(Ordered(scores[..n]), scores[|scores| - 1].score)
  {
    if n > 0 {
      AheadOfLast(scores, n - 1);
      assert scores[..n][..n - 1] == scores[..n - 1];
      AtLeastInsert(scores[n - 1], Ordered(scores[..n - 1]), scores[|scores| - 1].score);
    }
  }

  /** The place of a score is one more than the number of higher, or earlier and equal, scores. */
  lemma {:induction false} PlaceExactly(scores: Scores, j: nat)
    requires DistinctIds(scores) && j < |scores|
    ensures Rank(scores, scores[j].id) == Some(1 + Ahead(scores, j, |scores|))
    decreases |scores|
  {
    var n := |scores| - 1;
    var before, x := scores[..n], scores[n];
    OrderedDescends(before);
    OrderedIds(before, x);
    if j == n {
      InsertedPlace(x, Ordered(before));
      AheadOfLast(scores, n);
    } else {
      PlaceExactly(before, j);
      AheadOfPrefix(scores, j, n, n);
      EarlierPlace(before, x, j);
    }
  }

  /** One more score moves an earlier one back exactly when it is higher. */
  lemma EarlierPlace(before: Scores, x: Scored, j: nat)
    requires DistinctIds(before) && j < |before| && forall i :: 0 <= i < |before| ==> before[i].id != x.id
    ensures Rank(before, before[j].id).Some?
    ensures Place(Insert(x, Ordered(before)), before[j].id) ==
            Some(Rank(before, before[j].id).value + if x.score > before[j].score then 1 else 0)
  {
    DistinctIsOnce(before);
    RankIs(before, before[j]);
    OrderedDescends(before);
    OtherPlace(x, Ordered(before), Rank(before, before[j].id).value - 1);
  }

  lemma OrderedIds(before: Scores, x: Scored)
    requires forall i :: 0 <= i < |before| ==> before[i].id != x.id
    ensures forall i :: 0 <= i < |Ordered(before)| ==> Ordered(before)[i].id != x.id
  {
    forall i | 0 <= i < |Ordered(before)|
      ensures Ordered(before)[i].id != x.id
    {
      OrderedKeeps(before, Ordered(before)[i]);
    }
  }

  // What a search comes to.

  /** One ranking's part of a combined score: the reciprocal of 60 plus the place, or nothing. */
  ghost predicate PartOf(scores: Scores, id: Id, part: real) {
    || (exists j :: 0 <= j < |scores| && scores[j].id == id && part * (61.0 + Ahead(scores, j, |scores|) as real) == 1.0)
    || ((forall j :: 0 <= j < |scores| ==> scores[j].id != id) && part == 0.0)
  }

  lemma ShareIsPart(scores: Scores, id: Id)
    requires DistinctIds(scores)
    ensures PartOf(scores, id, Share(Rank(scores, id)))
  {
    if j :| 0 <= j < |scores| && scores[j].id == id {
      PlaceExactly(scores, j);
    } else {
      PlaceIs(Ordered(scores), id);
      if Rank(scores, id).Some? {
        var k := Rank(scores, id).value;
        OrderedKeeps(scores, Ordered(scores)[k - 1]);
        assert false;
      }
    }
  }

  /** The rankings of a request over the chunks it may see. */
  function LexicalRanking(s: Snapshot, r: Request, tokenize: string -> seq<string>, numerics: Numerics): Scores {
    Lexical(tokenize(r.query), VisibleChunks(s.chunks, r, s.grants), numerics.log)
  }

  function VectorRanking(s: Snapshot, r: Request, numerics: Numerics): Scores {
    VectorsOf(r, VisibleChunks(s.chunks, r, s.grants), s.embeddings, numerics.sqrt)
  }

  lemma RankingsAreDistinct(s: Snapshot, r: Request, tokenize: string -> seq<string>, numerics: Numerics)
    ensures DistinctIds(LexicalRanking(s, r, tokenize, numerics)) && DistinctIds(VectorRanking(s, r, numerics))
  {
    var chunks := VisibleChunks(s.chunks, r, s.grants);
    LexicalIsDistinct(tokenize(r.query), chunks, |chunks|, numerics.log);
    if r.embedded.Some? {
      VectorIsDistinct(r.embedded.value, ChunkIds(chunks), s.embeddings, numerics.sqrt);
    }
  }

  /** The combined score of a result is the sum of its chunk's parts of the two rankings. */
  lemma CombinedScoreExactly(s: Snapshot, r: Request, tokenize: string -> seq<string>, numerics: Numerics, f: Found)
    requires Search(s, r, tokenize, numerics).Ok? && f in Search(s, r, tokenize, numerics).value
    ensures exists lexicalPart, vectorPart ::
              && PartOf(LexicalRanking(s, r, tokenize, numerics), f.chunkId, lexicalPart)
              && PartOf(VectorRanking(s, r, numerics), f.chunkId, vectorPart)
              && f.combinedScore == lexicalPart + vectorPart > 0.0
  {
    var lexical, vectors := LexicalRanking(s, r, tokenize, numerics), VectorRanking(s, r, numerics);
    var chunks := VisibleChunks(s.chunks, r, s.grants);
    TopIsBest(s, r, tokenize, numerics);
    assert f in multiset(AllMatches(s, r, tokenize, numerics));
    MatchesAre(chunks, s.documents, lexical, vectors, f);
    RankingsAreDistinct(s, r, tokenize, numerics);
    ShareIsPart(lexical, f.chunkId);
    ShareIsPart(vectors, f.chunkId);
    CandidateHasPart(lexical, f.chunkId);
    CandidateHasPart(vectors, f.chunkId);
  }

  lemma CandidateHasPart(scores: Scores, id: Id)
    requires DistinctIds(scores)
    ensures Share(Rank(scores, id)) >= 0.0
    ensures id in Ids(scores) ==> Share(Rank(scores, id)) > 0.0
  {
    if id in Ids(scores) {
      var a :| a in scores && a.id == id;
      DistinctIsOnce(scores);
      RankIs(scores, a);
    }
  }

  /** The chunk has a positive BM25 score for the query, or an embedding the query compares with. */
  ghost predicate HasScore(c: Chunk, s: Snapshot, r: Request, tokenize: string -> seq<string>, numerics: Numerics) {
    var terms, chunks := tokenize(r.query), VisibleChunks(s.chunks, r, s.grants);
    || (terms != [] && chunks != [] && Okapis(terms, c, chunks, numerics.log) > 0.0)
    || (r.embedded.Some? && !r.aborted && r.embedded.value.vector != []
        && exists i :: 0 <= i < |s.embeddings| && Compares(s.embeddings[i], r.embedded.value, c.id, numerics.sqrt))
  }

  /** Every permitted chunk of a current revision that has a score is among the matches. */
  lemma PermittedAreFound(s: Snapshot, r: Request, tokenize: string -> seq<string>, numerics: Numerics, c: Chunk)
    requires c in s.chunks && Permitted(c, r, s.grants) && IsCurrent(c, s.documents) && HasScore(c, s, r, tokenize, numerics)
    ensures exists f :: f in AllMatches(s, r, tokenize, numerics) && Shows(f, c, s.documents)
  {
    var terms, chunks := tokenize(r.query), VisibleChunks(s.chunks, r, s.grants);
    var lexical, vectors := LexicalRanking(s, r, tokenize, numerics), VectorRanking(s, r, numerics);
    PermittedIsVisible(c, r, s.grants);
    var k :| 0 <= k < |chunks| && chunks[k] == c;
    LexicallyScored(terms, chunks, numerics.log, c.id);
    LexicalIsOkapi(terms, c, chunks, numerics.log);
    if r.embedded.Some? {
      VectorScored(r.embedded.value, ChunkIds(chunks), s.embeddings, numerics.sqrt, c.id);
    }
    assert c.id in ChunkIds(chunks);
    assert Candidate(c, lexical, vectors);
    var f := FoundOf(c, s.documents[c.documentId], lexical, vectors);
    MatchesAre(chunks, s.documents, lexical, vectors, f);
    assert Shows(f, c, s.documents);
  }

  // The scores a result reports.

  ghost predicate OncePerChunk(chunks: seq<Chunk>) {
    forall i, j :: 0 <= i < j < |chunks| ==> chunks[i].id != chunks[j].id
  }

  lemma {:induction false} LexicalScoreOf(terms: seq<string>, chunks: seq<Chunk>, k: nat, log: real -> real, i: nat)
    requires i < |chunks| && k <= |chunks| && OncePerChunk(chunks)
    ensures ScoreOf(LexicalUpTo(terms, chunks, k, log), chunks[i].id) ==
            if i < k && LexicalScore(terms, chunks[i], chunks, log) > 0.0
            then Some(LexicalScore(terms, chunks[i], chunks, log)) else None
  {
    if k > 0 {
      LexicalScoreOf(terms, chunks, k - 1, log, i);
      ScoreAfterPut(LexicalUpTo(terms, chunks, k - 1, log), chunks[k - 1].id,
                    LexicalScore(terms, chunks[k - 1], chunks, log), chunks[i].id);
    }
  }

  /** A result reports the BM25 score of its chunk where that is positive, and zero otherwise. */
  lemma LexicalScoreExactly(s: Snapshot, r: Request, tokenize: string -> seq<string>, numerics: Numerics, f: Found)
    requires OncePerChunk(VisibleChunks(s.chunks, r, s.grants)) && tokenize(r.query) != []
    requires Search(s, r, tokenize, numerics).Ok? && f in Search(s, r, tokenize, numerics).value
    ensures var chunks := VisibleChunks(s.chunks, r, s.grants);
            exists c :: c in chunks && Shows(f, c, s.documents)
              && var score := Okapis(tokenize(r.query), c, chunks, numerics.log);
                 f.lexicalScore == if score > 0.0 then score else 0.0
  {
    var terms, chunks := tokenize(r.query), VisibleChunks(s.chunks, r, s.grants);
    var lexical, vectors := LexicalRanking(s, r, tokenize, numerics), VectorRanking(s, r, numerics);
    TopIsBest(s, r, tokenize, numerics);
    assert f in multiset(AllMatches(s, r, tokenize, numerics));
    MatchesAre(chunks, s.documents, lexical, vectors, f);
    var c :| c in chunks && Candidate(c, lexical, vectors) && Current(c, s.documents) && f == FoundOf(c, s.documents[c.documentId], lexical, vectors);
    var i :| 0 <= i < |chunks| && chunks[i] == c;
    LexicalScoreOf(terms, chunks, |chunks|, numerics.log, i);
    LexicalIsOkapi(terms, c, chunks, numerics.log);
    assert Shows(f, c, s.documents);
  }

  /** The similarity of a chunk is that of its one comparable embedding. */
  lemma {:induction false} VectorScoreOf(q: QueryVector, allowed: set<Id>, embeddings: seq<Embedding>, sqrt: real -> real, i: nat)
    requires i < |embeddings| && embeddings[i].chunkId in allowed && Compares(embeddings[i], q, embeddings[i].chunkId, sqrt)
    requires forall j :: i < j < |embeddings| ==> !Compares(embeddings[j], q, embeddings[i].chunkId, sqrt)
    ensures ScoreOf(Vector(q, allowed, embeddings, sqrt), embeddings[i].chunkId) == CosineOf(q.vector, embeddings[i].vector, sqrt)
    decreases |embeddings|
  {
    var n := |embeddings| - 1;
    var e := embeddings[n];
    var cosine := CosineOf(q.vector, e.vector, sqrt);
    var before := Vector(q, allowed, embeddings[..n], sqrt);
    if i < n {
      VectorScoreOf(q, allowed, embeddings[..n], sqrt, i);
    }
    if cosine.Some? {
      ScoreAfterPut(before, e.chunkId, cosine.value, embeddings[i].chunkId);
    }
  }
}
