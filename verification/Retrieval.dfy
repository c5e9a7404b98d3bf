/** Authorized hybrid retrieval by reciprocal rank fusion (packages/memory/src/retrieval.ts). Scores
    are real numbers; the logarithm, the square root and the tokenizer are parameters. Ids are
    natural numbers whose order stands for the locale's. */
module Retrieval {
  import opened Prelude

  const RRF_K: real := 60.0
  const MAX_QUERY: nat := 24_000

  type Id = nat

  datatype Chunk = Chunk(id: Id, workspaceId: Id, documentId: Id, revisionId: Id, text: string, terms: seq<string>,
                         startOffset: nat, endOffset: nat, sensitivity: string, sourceOrigin: Option<string>,
                         retentionUntil: Option<int>)

  datatype Document = Document(title: string, currentRevisionId: Id, deleted: bool)

  datatype Embedding = Embedding(chunkId: Id, modelId: string, modelRevision: string, dimensions: nat, vector: seq<real>)

  datatype Grant = Grant(workspaceId: Id, recipient: string, sourceIds: seq<Id>, revoked: bool, expiresAt: int,
                         origin: Option<string>)

  datatype Authorization = Authorization(allowedSourceIds: Option<seq<Id>>, deniedSourceIds: seq<Id>,
                                         allowedSensitivities: Option<seq<string>>, origin: Option<string>,
                                         recipient: Option<string>)

  datatype Snapshot = Snapshot(chunks: seq<Chunk>, documents: map<Id, Document>, embeddings: seq<Embedding>,
                               grants: seq<Grant>)

  /** The provider's embedding of the query, when there is a provider and it gives one. */
  datatype QueryVector = QueryVector(modelId: string, modelRevision: string, vector: seq<real>)

  datatype Request = Request(workspaceId: Id, query: string, limit: int, authorization: Authorization, now: int,
                             embedded: Option<QueryVector>, aborted: bool)

  datatype Numerics = Numerics(log: real -> real, sqrt: real -> real)

  ghost predicate SquareRoot(sqrt: real -> real) {
    forall x :: x > 0.0 ==> sqrt(x) > 0.0
  }

  // Authorization.

  /** An optional string that is present and not empty. */
  predicate Given(o: Option<string>) {
    o.Some? && o.value != ""
  }

  predicate GrantCovers(g: Grant, c: Chunk, recipient: string, a: Authorization, now: int) {
    && g.workspaceId == c.workspaceId && g.recipient == recipient && c.documentId in g.sourceIds
    && !g.revoked && g.expiresAt > now && (!Given(g.origin) || g.origin == a.origin)
  }

  predicate IsAuthorized(c: Chunk, a: Authorization, now: int, grants: seq<Grant>) {
    && !(c.retentionUntil.Some? && c.retentionUntil.value <= now)
    && (a.allowedSourceIds.Some? ==> c.documentId in a.allowedSourceIds.value)
    && c.documentId !in a.deniedSourceIds
    && (a.allowedSensitivities.Some? ==> c.sensitivity in a.allowedSensitivities.value)
    && (Given(a.origin) && Given(c.sourceOrigin) ==> a.origin == c.sourceOrigin)
    && (Given(a.recipient) ==> exists g :: g in grants && GrantCovers(g, c, a.recipient.value, a, now))
  }

  predicate Visible(c: Chunk, r: Request, grants: seq<Grant>) {
    c.workspaceId == r.workspaceId && IsAuthorized(c, r.authorization, r.now, grants)
  }

  function VisibleChunks(chunks: seq<Chunk>, r: Request, grants: seq<Grant>): (visible: seq<Chunk>)
    ensures forall c :: c in visible <==> c in chunks && Visible(c, r, grants)
  {
    if chunks == [] then []
    else
      var n := |chunks| - 1;
      VisibleChunks(chunks[..n], r, grants) + if Visible(chunks[n], r, grants) then [chunks[n]] else []
  }

  // Scores, in the insertion order of the source's maps.

  datatype Scored = Scored(id: Id, score: real)

  type Scores = seq<Scored>

  function Ids(scores: Scores): set<Id> {
    set s | s in scores :: s.id
  }

  function Put(scores: Scores, id: Id, score: real): Scores {
    if scores == [] then [Scored(id, score)]
    else if scores[0].id == id then [Scored(id, score)] + scores[1..]
    else [scores[0]] + Put(scores[1..], id, score)
  }

  function ScoreOf(scores: Scores, id: Id): Option<real> {
    if scores == [] then None
    else if scores[0].id == id then Some(scores[0].score)
    else ScoreOf(scores[1..], id)
  }

  // Lexical scores (BM25).

  function Occurrences(term: string, terms: seq<string>): nat {
    if terms == [] then 0
    else Occurrences(term, terms[..|terms| - 1]) + if terms[|terms| - 1] == term then 1 else 0
  }

  function Containing(term: string, chunks: seq<Chunk>): nat {
    if chunks == [] then 0
    else Containing(term, chunks[..|chunks| - 1]) + if term in chunks[|chunks| - 1].terms then 1 else 0
  }

  function TotalLength(chunks: seq<Chunk>): nat {
    if chunks == [] then 0 else TotalLength(chunks[..|chunks| - 1]) + |chunks[|chunks| - 1].terms|
  }

  function AverageLength(chunks: seq<Chunk>): (average: real)
    requires chunks != []
    ensures average > 0.0
  {
    if TotalLength(chunks) == 0 then 1.0 else TotalLength(chunks) as real / |chunks| as real
  }

  function Weight(frequency: nat, containing: nat, count: nat, length: nat, average: real, log: real -> real): real
    requires average > 0.0
  {
    if frequency == 0 then 0.0
    else
      var idf := log(1.0 + (count as real - containing as real + 0.5) / (containing as real + 0.5));
      var normalization := 1.2 * (0.25 + 0.75 * (length as real / average));
      idf * (frequency as real * 2.2 / (frequency as real + normalization))
  }

  function LexicalScore(terms: seq<string>, c: Chunk, chunks: seq<Chunk>, log: real -> real): real
    requires chunks != []
  {
    if terms == [] then 0.0
    else
      var n := |terms| - 1;
      LexicalScore(terms[..n], c, chunks, log) +
      Weight(Occurrences(terms[n], c.terms), Containing(terms[n], chunks), |chunks|, |c.terms|, AverageLength(chunks), log)
  }

  /** The scores of the first k chunks; only positive ones are kept. */
  function LexicalUpTo(terms: seq<string>, chunks: seq<Chunk>, k: nat, log: real -> real): Scores
    requires k <= |chunks|
  {
    if k == 0 then []
    else
      var before := LexicalUpTo(terms, chunks, k - 1, log);
      var score := LexicalScore(terms, chunks[k - 1], chunks, log);
      if score > 0.0 then Put(before, chunks[k - 1].id, score) else before
  }

  function Lexical(terms: seq<string>, chunks: seq<Chunk>, log: real -> real): Scores {
    if terms == [] then [] else LexicalUpTo(terms, chunks, |chunks|, log)
  }

  function Count(counts: map<string, nat>, term: string): nat {
    if term in counts then counts[term] else 0
  }

  predicate Distinct<T(==)>(s: seq<T>) {
    forall i, j :: 0 <= i < j < |s| ==> s[i] != s[j]
  }

  method DocumentFrequencies(terms: seq<string>, chunks: seq<Chunk>) returns (frequencies: map<string, nat>)
    requires Distinct(terms)
    ensures forall t :: t in terms ==> Count(frequencies, t) == Containing(t, chunks)
  {
    frequencies := map[];
    for i := 0 to |chunks|
      invariant forall t :: t in terms ==> Count(frequencies, t) == Containing(t, chunks[..i])
    {
      ghost var before := frequencies;
      for k := 0 to |terms|
        invariant forall m :: 0 <= m < |terms| ==>
                    Count(frequencies, terms[m]) ==
                    Count(before, terms[m]) + if m < k && terms[m] in chunks[i].terms then 1 else 0
      {
        if terms[k] in chunks[i].terms {
          frequencies := frequencies[terms[k] := Count(frequencies, terms[k]) + 1];
        }
      }
      ghost var extended := chunks[..i + 1];
      assert extended[..i] == chunks[..i];
    }
    assert chunks[..|chunks|] == chunks;
  }

  method TermFrequencies(terms: seq<string>, tokens: seq<string>) returns (frequencies: map<string, nat>)
    ensures forall t :: t in terms ==> Count(frequencies, t) == Occurrences(t, tokens)
  {
    frequencies := map[];
    for i := 0 to |tokens|
      invariant forall t :: t in terms ==> Count(frequencies, t) == Occurrences(t, tokens[..i])
    {
      ghost var extended := tokens[..i + 1];
      assert extended[..i] == tokens[..i];
      if tokens[i] in terms {
        frequencies := frequencies[tokens[i] := Count(frequencies, tokens[i]) + 1];
      }
    }
    assert tokens[..|tokens|] == tokens;
  }

  method LexicalScores(terms: seq<string>, chunks: seq<Chunk>, log: real -> real) returns (scores: Scores)
    requires Distinct(terms)
    ensures scores == Lexical(terms, chunks, log)
  {
    scores := [];
    if |terms| == 0 || |chunks| == 0 {
      return;
    }
    var documentFrequency := DocumentFrequencies(terms, chunks);
    var averageLength := AverageLength(chunks);
    for i := 0 to |chunks|
      invariant scores == LexicalUpTo(terms, chunks, i, log)
    {
      var frequencies := TermFrequencies(terms, chunks[i].terms);
      var score := 0.0;
      for k := 0 to |terms|
        invariant score == LexicalScore(terms[..k], chunks[i], chunks, log)
      {
        ghost var extended := terms[..k + 1];
        assert extended[..k] == terms[..k] && terms[k] in terms;
        score := score + Weight(Count(frequencies, terms[k]), Count(documentFrequency, terms[k]), |chunks|,
                                |chunks[i].terms|, averageLength, log);
      }
      assert terms[..|terms|] == terms;
      if score > 0.0 {
        scores := Put(scores, chunks[i].id, score);
      }
    }
  }

  // Vector scores.

  function Dot(a: seq<real>, b: seq<real>): real
    requires |a| == |b|
  {
    if a == [] then 0.0 else Dot(a[..|a| - 1], b[..|b| - 1]) + a[|a| - 1] * b[|b| - 1]
  }

  lemma DotSnoc(a: seq<real>, b: seq<real>, i: nat)
    requires i < |a| == |b|
    ensures Dot(a[..i + 1], b[..i + 1]) == Dot(a[..i], b[..i]) + a[i] * b[i]
  {
    assert a[..i + 1][..i] == a[..i] && b[..i + 1][..i] == b[..i];
  }

  lemma {:induction false} NormIsNonnegative(a: seq<real>)
    ensures Dot(a, a) >= 0.0
  {
    if a != [] {
      NormIsNonnegative(a[..|a| - 1]);
      assert a[|a| - 1] * a[|a| - 1] >= 0.0;
    }
  }

  lemma PositiveProduct(a: real, b: real)
    requires a > 0.0 && b > 0.0
    ensures a * b > 0.0
  {
  }

  /** The dot product over the root of the norms' product; None stands for negative infinity. */
  function Similarity(dot: real, leftNorm: real, rightNorm: real, sqrt: real -> real): Option<real> {
    var root := sqrt(leftNorm * rightNorm);
    if leftNorm == 0.0 || rightNorm == 0.0 || root == 0.0 then None else Some(dot / root)
  }

  lemma SimilarityDefined(dot: real, leftNorm: real, rightNorm: real, sqrt: real -> real)
    requires SquareRoot(sqrt) && leftNorm >= 0.0 && rightNorm >= 0.0
    ensures Similarity(dot, leftNorm, rightNorm, sqrt).Some? <==> leftNorm > 0.0 && rightNorm > 0.0
  {
    if leftNorm > 0.0 && rightNorm > 0.0 {
      PositiveProduct(leftNorm, rightNorm);
    }
  }

  function CosineOf(left: seq<real>, right: seq<real>, sqrt: real -> real): Option<real> {
    if |left| != |right| || left == [] then None
    else Similarity(Dot(left, right), Dot(left, left), Dot(right, right), sqrt)
  }

  method Cosine(left: seq<real>, right: seq<real>, sqrt: real -> real) returns (r: Option<real>)
    requires SquareRoot(sqrt)
    ensures r == CosineOf(left, right, sqrt)
    ensures r.Some? <==> |left| == |right| && left != [] && Dot(left, left) > 0.0 && Dot(right, right) > 0.0
  {
    NormIsNonnegative(left);
    NormIsNonnegative(right);
    if |left| != |right| || |left| == 0 {
      return None;
    }
    var dot, leftNorm, rightNorm := 0.0, 0.0, 0.0;
    for i := 0 to |left|
      invariant dot == Dot(left[..i], right[..i])
      invariant leftNorm == Dot(left[..i], left[..i]) && rightNorm == Dot(right[..i], right[..i])
    {
      DotSnoc(left, right, i);
      DotSnoc(left, left, i);
      DotSnoc(right, right, i);
      dot := dot + left[i] * right[i];
      leftNorm := leftNorm + left[i] * left[i];
      rightNorm := rightNorm + right[i] * right[i];
    }
    assert left[..|left|] == left && right[..|right|] == right;
    SimilarityDefined(dot, leftNorm, rightNorm, sqrt);
    return Similarity(dot, leftNorm, rightNorm, sqrt);
  }

  predicate Comparable(e: Embedding, q: QueryVector, allowed: set<Id>) {
    e.chunkId in allowed && e.modelId == q.modelId && e.modelRevision == q.modelRevision && e.dimensions == |q.vector|
  }

  function Vector(q: QueryVector, allowed: set<Id>, embeddings: seq<Embedding>, sqrt: real -> real): Scores {
    if embeddings == [] then []
    else
      var before, e := Vector(q, allowed, embeddings[..|embeddings| - 1], sqrt), embeddings[|embeddings| - 1];
      if !Comparable(e, q, allowed) then before
      else
        match CosineOf(q.vector, e.vector, sqrt)
        case None => before
        case Some(score) => Put(before, e.chunkId, score)
  }

  method VectorScores(q: QueryVector, chunks: seq<Chunk>, embeddings: seq<Embedding>, sqrt: real -> real)
    returns (scores: Scores)
    requires SquareRoot(sqrt)
    ensures scores == Vector(q, ChunkIds(chunks), embeddings, sqrt)
  {
    scores := [];
    var allowed := ChunkIds(chunks);
    for i := 0 to |embeddings|
      invariant scores == Vector(q, allowed, embeddings[..i], sqrt)
    {
      ghost var extended := embeddings[..i + 1];
      assert extended[..i] == embeddings[..i];
      if Comparable(embeddings[i], q, allowed) {
        var score := Cosine(q.vector, embeddings[i].vector, sqrt);
        if score.Some? {
          scores := Put(scores, embeddings[i].chunkId, score.value);
        }
      }
    }
    assert embeddings[..|embeddings|] == embeddings;
  }

  function ChunkIds(chunks: seq<Chunk>): set<Id> {
    set c | c in chunks :: c.id
  }

  function VectorsOf(r: Request, chunks: seq<Chunk>, embeddings: seq<Embedding>, sqrt: real -> real): Scores {
    if r.embedded.None? || r.aborted || r.embedded.value.vector == [] then []
    else Vector(r.embedded.value, ChunkIds(chunks), embeddings, sqrt)
  }

  // Ranks.

  /** Sorted by descending score; equal scores keep their order. */
  function Insert(s: Scored, sorted: Scores): Scores {
    if sorted == [] || sorted[0].score < s.score then [s] + sorted else [sorted[0]] + Insert(s, sorted[1..])
  }

  function Ordered(scores: Scores): Scores {
    if scores == [] then [] else Insert(scores[|scores| - 1], Ordered(scores[..|scores| - 1]))
  }

  /** The place of an id, counted from 1. */
  function Place(sorted: Scores, id: Id): Option<nat> {
    if sorted == [] then None
    else if sorted[0].id == id then Some(1)
    else
      match Place(sorted[1..], id)
      case None => None
      case Some(k) => Some(k + 1)
  }

  function Rank(scores: Scores, id: Id): Option<nat> {
    Place(Ordered(scores), id)
  }

  function Share(rank: Option<nat>): real {
    if rank.Some? then 1.0 / (RRF_K + rank.value as real) else 0.0
  }

  // Results.

  datatype Found = Found(documentId: Id, revisionId: Id, chunkId: Id, title: string, text: string, startOffset: nat,
                         endOffset: nat, lexicalScore: real, combinedScore: real, vectorScore: Option<real>)

  predicate Current(c: Chunk, documents: map<Id, Document>) {
    c.documentId in documents && documents[c.documentId].currentRevisionId == c.revisionId && !documents[c.documentId].deleted
  }

  predicate Candidate(c: Chunk, lexical: Scores, vectors: Scores) {
    c.id in Ids(lexical) || c.id in Ids(vectors)
  }

  function FoundOf(c: Chunk, d: Document, lexical: Scores, vectors: Scores): Found {
    Found(c.documentId, c.revisionId, c.id, d.title, c.text, c.startOffset, c.endOffset,
          if ScoreOf(lexical, c.id).Some? then ScoreOf(lexical, c.id).value else 0.0,
          Share(Rank(lexical, c.id)) + Share(Rank(vectors, c.id)), ScoreOf(vectors, c.id))
  }

  function Matches(chunks: seq<Chunk>, documents: map<Id, Document>, lexical: Scores, vectors: Scores): seq<Found> {
    if chunks == [] then []
    else
      var n := |chunks| - 1;
      Matches(chunks[..n], documents, lexical, vectors) +
      if Candidate(chunks[n], lexical, vectors) && Current(chunks[n], documents)
      then [FoundOf(chunks[n], documents[chunks[n].documentId], lexical, vectors)]
      else []
  }

  /** Higher combined score first; equal scores by chunk id. */
  predicate Before(a: Found, b: Found) {
    a.combinedScore > b.combinedScore || (a.combinedScore == b.combinedScore && a.chunkId <= b.chunkId)
  }

  function InsertFound(f: Found, sorted: seq<Found>): seq<Found> {
    if sorted == [] || Before(f, sorted[0]) then [f] + sorted else [sorted[0]] + InsertFound(f, sorted[1..])
  }

  function SortFound(found: seq<Found>): seq<Found> {
    if found == [] then [] else InsertFound(found[0], SortFound(found[1..]))
  }

  datatype Error = BadQuery | BadLimit | Aborted

  predicate Blank(query: string) {
    forall c :: c in query ==> White(c)
  }

  function AllMatches(s: Snapshot, r: Request, tokenize: string -> seq<string>, numerics: Numerics): seq<Found> {
    var chunks := VisibleChunks(s.chunks, r, s.grants);
    Matches(chunks, s.documents, Lexical(tokenize(r.query), chunks, numerics.log),
            VectorsOf(r, chunks, s.embeddings, numerics.sqrt))
  }

  function Top(found: seq<Found>, limit: nat): seq<Found> {
    if |found| <= limit then found else found[..limit]
  }

  /** What a search answers. */
  function Search(s: Snapshot, r: Request, tokenize: string -> seq<string>, numerics: Numerics): Result<seq<Found>, Error> {
    if Blank(r.query) || |r.query| > MAX_QUERY then Err(BadQuery)
    else if r.limit < 1 || r.limit > 100 then Err(BadLimit)
    else if r.aborted then Err(Aborted)
    else Ok(Top(SortFound(AllMatches(s, r, tokenize, numerics)), r.limit))
  }

  /** The tokenizer here gives each term of the query once. */
  method Retrieve(s: Snapshot, r: Request, tokenize: string -> seq<string>, numerics: Numerics)
    returns (result: Result<seq<Found>, Error>)
    requires SquareRoot(numerics.sqrt) && Distinct(tokenize(r.query))
    ensures result.Ok? <==> !Blank(r.query) && |r.query| <= MAX_QUERY && 1 <= r.limit <= 100 && !r.aborted
    ensures result == Search(s, r, tokenize, numerics)
  {
    if Blank(r.query) || |r.query| > MAX_QUERY {
      return Err(BadQuery);
    }
    if r.limit < 1 || r.limit > 100 {
      return Err(BadLimit);
    }
    var chunks := VisibleChunks(s.chunks, r, s.grants);
    var lexical := LexicalScores(tokenize(r.query), chunks, numerics.log);
    var vectors: Scores := [];
    if r.embedded.Some? && !r.aborted && r.embedded.value.vector != [] {
      vectors := VectorScores(r.embedded.value, chunks, s.embeddings, numerics.sqrt);
    }
    if r.aborted {
      return Err(Aborted);
    }
    return Ok(Top(SortFound(Matches(chunks, s.documents, lexical, vectors)), r.limit));
  }
}
