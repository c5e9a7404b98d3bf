/** What retrieval returns, and what it does not depend on. */
module RetrievalResults {
  import opened Prelude
  import opened Retrieval

  // Independence of what may not be seen.

  function EmbeddingsOf(embeddings: seq<Embedding>, allowed: set<Id>): seq<Embedding> {
    if embeddings == [] then []
    else
      var n := |embeddings| - 1;
      EmbeddingsOf(embeddings[..n], allowed) + if embeddings[n].chunkId in allowed then [embeddings[n]] else []
  }

  lemma VectorSnoc(q: QueryVector, allowed: set<Id>, before: seq<Embedding>, e: Embedding, sqrt: real -> real)
    ensures Vector(q, allowed, before + [e], sqrt) ==
            if !Comparable(e, q, allowed) || CosineOf(q.vector, e.vector, sqrt).None? then Vector(q, allowed, before, sqrt)
            else Put(Vector(q, allowed, before, sqrt), e.chunkId, CosineOf(q.vector, e.vector, sqrt).value)
  {
    assert (before + [e])[..|before|] == before;
  }

  lemma EmbeddingsSnoc(before: seq<Embedding>, e: Embedding, allowed: set<Id>)
    ensures EmbeddingsOf(before + [e], allowed) == EmbeddingsOf(before, allowed) + if e.chunkId in allowed then [e] else []
  {
    assert (before + [e])[..|before|] == before;
  }

  lemma VisibleSnoc(before: seq<Chunk>, c: Chunk, r: Request, grants: seq<Grant>)
    ensures VisibleChunks(before + [c], r, grants) ==
            VisibleChunks(before, r, grants) + if Visible(c, r, grants) then [c] else []
  {
    assert (before + [c])[..|before|] == before;
  }

  lemma {:induction false} VectorIgnoresOthers(q: QueryVector, allowed: set<Id>, embeddings: seq<Embedding>, sqrt: real -> real)
    ensures Vector(q, allowed, embeddings, sqrt) == Vector(q, allowed, EmbeddingsOf(embeddings, allowed), sqrt)
    decreases |embeddings|
  {
    if embeddings != [] {
      var n := |embeddings| - 1;
      var kept := EmbeddingsOf(embeddings[..n], allowed);
      VectorIgnoresOthers(q, allowed, embeddings[..n], sqrt);
      VectorSnoc(q, allowed, kept, embeddings[n], sqrt);
      assert kept + [] == kept;
    }
  }

  /** The two snapshots show the request the same: the same visible chunks with the same embeddings,
      and the same documents of them. */
  ghost predicate Alike(s: Snapshot, t: Snapshot, r: Request) {
    var chunks := VisibleChunks(s.chunks, r, s.grants);
    && chunks == VisibleChunks(t.chunks, r, t.grants)
    && EmbeddingsOf(s.embeddings, ChunkIds(chunks)) == EmbeddingsOf(t.embeddings, ChunkIds(chunks))
    && (forall c :: c in chunks ==> Current(c, s.documents) == Current(c, t.documents))
    && (forall c :: c in chunks && Current(c, s.documents) && Current(c, t.documents) ==>
          s.documents[c.documentId].title == t.documents[c.documentId].title)
  }

  lemma {:induction false} MatchesAlike(chunks: seq<Chunk>, a: map<Id, Document>, b: map<Id, Document>, lexical: Scores, vectors: Scores)
    requires forall c :: c in chunks ==> Current(c, a) == Current(c, b)
    requires forall c :: c in chunks && Current(c, a) && Current(c, b) ==> a[c.documentId].title == b[c.documentId].title
    ensures Matches(chunks, a, lexical, vectors) == Matches(chunks, b, lexical, vectors)
    decreases |chunks|
  {
    if chunks != [] {
      var n := |chunks| - 1;
      assert chunks[n] in chunks;
      MatchesAlike(chunks[..n], a, b, lexical, vectors);
    }
  }

  lemma MatchesOfAlike(s: Snapshot, t: Snapshot, r: Request, tokenize: string -> seq<string>, numerics: Numerics)
    requires Alike(s, t, r)
    ensures AllMatches(s, r, tokenize, numerics) == AllMatches(t, r, tokenize, numerics)
  {
    var chunks := VisibleChunks(s.chunks, r, s.grants);
    if r.embedded.Some? {
      VectorIgnoresOthers(r.embedded.value, ChunkIds(chunks), s.embeddings, numerics.sqrt);
      VectorIgnoresOthers(r.embedded.value, ChunkIds(chunks), t.embeddings, numerics.sqrt);
    }
    MatchesAlike(chunks, s.documents, t.documents, Lexical(tokenize(r.query), chunks, numerics.log),
                 VectorsOf(r, chunks, s.embeddings, numerics.sqrt));
  }

  /** What a request is answered depends on nothing it may not see. */
  lemma UnseenDataDoesNotMatter(s: Snapshot, t: Snapshot, r: Request, tokenize: string -> seq<string>, numerics: Numerics)
    requires Alike(s, t, r)
    ensures Search(s, r, tokenize, numerics) == Search(t, r, tokenize, numerics)
  {
    MatchesOfAlike(s, t, r, tokenize, numerics);
  }

  function AuthorizedChunks(chunks: seq<Chunk>, a: Authorization, now: int, grants: seq<Grant>): seq<Chunk> {
    if chunks == [] then []
    else
      var n := |chunks| - 1;
      AuthorizedChunks(chunks[..n], a, now, grants) + if IsAuthorized(chunks[n], a, now, grants) then [chunks[n]] else []
  }

  /** The snapshot without the chunks that fail authorization, and without their embeddings. */
  function Dropped(s: Snapshot, r: Request): Snapshot {
    var kept := AuthorizedChunks(s.chunks, r.authorization, r.now, s.grants);
    s.(chunks := kept, embeddings := EmbeddingsOf(s.embeddings, ChunkIds(kept)))
  }

  lemma {:induction false} VisibleOfAuthorized(chunks: seq<Chunk>, r: Request, grants: seq<Grant>)
    ensures VisibleChunks(AuthorizedChunks(chunks, r.authorization, r.now, grants), r, grants) == VisibleChunks(chunks, r, grants)
    ensures forall c :: c in VisibleChunks(chunks, r, grants) ==> c in AuthorizedChunks(chunks, r.authorization, r.now, grants)
    decreases |chunks|
  {
    if chunks != [] {
      var n := |chunks| - 1;
      var kept := AuthorizedChunks(chunks[..n], r.authorization, r.now, grants);
      VisibleOfAuthorized(chunks[..n], r, grants);
      VisibleSnoc(kept, chunks[n], r, grants);
      assert kept + [] == kept;
    }
  }

  lemma {:induction false} FewerEmbeddings(embeddings: seq<Embedding>, allowed: set<Id>, more: set<Id>)
    requires allowed <= more
    ensures EmbeddingsOf(EmbeddingsOf(embeddings, more), allowed) == EmbeddingsOf(embeddings, allowed)
    decreases |embeddings|
  {
    if embeddings != [] {
      var n := |embeddings| - 1;
      var kept := EmbeddingsOf(embeddings[..n], more);
      FewerEmbeddings(embeddings[..n], allowed, more);
      EmbeddingsSnoc(kept, embeddings[n], allowed);
      assert kept + [] == kept;
    }
  }

  /** Dropping every chunk that fails authorization, with its embeddings, changes no answer. */
  lemma DroppingUnauthorizedChangesNothing(s: Snapshot, r: Request, tokenize: string -> seq<string>, numerics: Numerics)
    ensures Search(Dropped(s, r), r, tokenize, numerics) == Search(s, r, tokenize, numerics)
  {
    VisibleOfAuthorized(s.chunks, r, s.grants);
    var chunks := VisibleChunks(s.chunks, r, s.grants);
    var kept := AuthorizedChunks(s.chunks, r.authorization, r.now, s.grants);
    assert ChunkIds(chunks) <= ChunkIds(kept);
    FewerEmbeddings(s.embeddings, ChunkIds(chunks), ChunkIds(kept));
    UnseenDataDoesNotMatter(s, Dropped(s, r), r, tokenize, numerics);
  }

  // What is returned.

  lemma {:induction false} MatchesAre(chunks: seq<Chunk>, documents: map<Id, Document>, lexical: Scores, vectors: Scores, f: Found)
    ensures f in Matches(chunks, documents, lexical, vectors) <==>
            exists c :: c in chunks && Candidate(c, lexical, vectors) && Current(c, documents) &&
                        f == FoundOf(c, documents[c.documentId], lexical, vectors)
    decreases |chunks|
  {
    if chunks != [] {
      var n := |chunks| - 1;
      MatchesAre(chunks[..n], documents, lexical, vectors, f);
      assert forall c :: c in chunks <==> c in chunks[..n] || c == chunks[n];
    }
  }

  ghost predicate Sorted(found: seq<Found>) {
    forall i, j :: 0 <= i < j < |found| ==> Before(found[i], found[j])
  }

  lemma {:induction false} InsertKeeps(f: Found, sorted: seq<Found>)
    ensures multiset(InsertFound(f, sorted)) == multiset([f] + sorted)
  {
    if sorted != [] && !Before(f, sorted[0]) {
      InsertKeeps(f, sorted[1..]);
      assert sorted == [sorted[0]] + sorted[1..];
    }
  }

  lemma {:induction false} InsertSorts(f: Found, sorted: seq<Found>)
    requires Sorted(sorted)
    ensures Sorted(InsertFound(f, sorted))
  {
    if sorted != [] && !Before(f, sorted[0]) {
      var rest := sorted[1..];
      InsertSorts(f, rest);
      forall g | g in InsertFound(f, rest)
        ensures Before(sorted[0], g)
      {
        InsertKeeps(f, rest);
        assert g in multiset(InsertFound(f, rest));
      }
    }
  }

  lemma {:induction false} SortSorts(found: seq<Found>)
    ensures Sorted(SortFound(found)) && multiset(SortFound(found)) == multiset(found)
  {
    if found != [] {
      SortSorts(found[1..]);
      InsertSorts(found[0], SortFound(found[1..]));
      InsertKeeps(found[0], SortFound(found[1..]));
      assert found == [found[0]] + found[1..];
    }
  }

  lemma CutMultiset(found: seq<Found>, sorted: seq<Found>, k: nat)
    requires multiset(sorted) == multiset(found) && k <= |sorted|
    ensures multiset(sorted[..k]) <= multiset(found)
    ensures multiset(found) - multiset(sorted[..k]) == multiset(sorted[k..])
    ensures |sorted| == |found|
  {
    assert sorted == sorted[..k] + sorted[k..];
    assert |multiset(sorted)| == |sorted| && |multiset(found)| == |found|;
  }

  lemma CutSorted(sorted: seq<Found>, k: nat, f: Found, g: Found)
    requires Sorted(sorted) && k <= |sorted| && f in sorted[..k] && g in sorted[k..]
    ensures Before(f, g)
  {
    var i :| 0 <= i < k && sorted[i] == f;
    var j :| 0 <= j < |sorted| - k && sorted[k..][j] == g;
    assert sorted[k + j] == g;
  }

  lemma BestOfSorted(found: seq<Found>, limit: nat)
    ensures var top := Top(SortFound(found), limit);
            && Sorted(top)
            && |top| == (if |found| <= limit then |found| else limit)
            && multiset(top) <= multiset(found)
            && forall f, g :: f in top && g in multiset(found) - multiset(top) ==> Before(f, g)
  {
    SortSorts(found);
    var sorted := SortFound(found);
    var k := if |sorted| <= limit then |sorted| else limit;
    assert Top(sorted, limit) == sorted[..k];
    CutMultiset(found, sorted, k);
    forall f, g | f in sorted[..k] && g in multiset(sorted[k..])
      ensures Before(f, g)
    {
      CutSorted(sorted, k, f, g);
    }
  }

  /** The better score, or of equal scores the lower chunk id. */
  predicate NoWorse(f: Found, g: Found) {
    g.combinedScore < f.combinedScore || (f.combinedScore == g.combinedScore && f.chunkId <= g.chunkId)
  }

  /** A search that is not refused returns the best of the matches, best first: as many as the limit
      allows, and no match left out is better than one returned. */
  lemma TopIsBest(s: Snapshot, r: Request, tokenize: string -> seq<string>, numerics: Numerics)
    requires Search(s, r, tokenize, numerics).Ok?
    ensures var found := AllMatches(s, r, tokenize, numerics);
            var results := Search(s, r, tokenize, numerics).value;
            && (forall i, j :: 0 <= i < j < |results| ==> NoWorse(results[i], results[j]))
            && |results| == (if |found| <= r.limit then |found| else r.limit)
            && multiset(results) <= multiset(found)
            && forall f, g :: f in results && g in multiset(found) - multiset(results) ==> NoWorse(f, g)
  {
    var found := AllMatches(s, r, tokenize, numerics);
    BestOfSorted(found, r.limit);
    assert forall f, g :: Before(f, g) ==> NoWorse(f, g);
  }

  /** A search is refused exactly for a query of nothing but white space or of more than 24,000 characters, a
      limit out of range, or a cancellation, in this order. */
  lemma RefusedExactly(s: Snapshot, r: Request, tokenize: string -> seq<string>, numerics: Numerics)
    ensures var result := Search(s, r, tokenize, numerics);
            if |r.query| > 24_000 || forall i :: 0 <= i < |r.query| ==> White(r.query[i]) then result == Err(BadQuery)
            else if !(1 <= r.limit <= 100) then result == Err(BadLimit)
            else if r.aborted then result == Err(Aborted)
            else result.Ok?
  {
    if !Blank(r.query) {
      var c :| c in r.query && !White(c);
      var i :| 0 <= i < |r.query| && r.query[i] == c;
    }
  }

  /** What the request's authorization, the chunk and the grants say about showing it, field by field. */
  ghost predicate Permitted(c: Chunk, r: Request, grants: seq<Grant>) {
    var a := r.authorization;
    && c.workspaceId == r.workspaceId
    && (c.retentionUntil == None || r.now < c.retentionUntil.value)
    && (a.allowedSourceIds == None || c.documentId in a.allowedSourceIds.value)
    && !(c.documentId in a.deniedSourceIds)
    && (a.allowedSensitivities == None || c.sensitivity in a.allowedSensitivities.value)
    && (a.origin in {None, Some("")} || c.sourceOrigin in {None, Some(""), a.origin})
    && (a.recipient in {None, Some("")} || Granted(c, a, r.now, grants))
  }

  /** Some grant of the chunk's workspace to the recipient lists its document, is neither revoked nor
      expired, and names no other origin. */
  ghost predicate Granted(c: Chunk, a: Authorization, now: int, grants: seq<Grant>) {
    exists i :: 0 <= i < |grants| &&
      var g := grants[i];
      && a.recipient == Some(g.recipient) && g.workspaceId == c.workspaceId && c.documentId in g.sourceIds
      && !g.revoked && now < g.expiresAt && g.origin in {None, Some(""), a.origin}
  }

  lemma GrantedIsCovered(c: Chunk, a: Authorization, now: int, grants: seq<Grant>)
    requires Given(a.recipient)
    ensures Granted(c, a, now, grants) <==> exists g :: g in grants && GrantCovers(g, c, a.recipient.value, a, now)
  {
    if Granted(c, a, now, grants) {
      var i :| 0 <= i < |grants| &&
        var g := grants[i];
        && a.recipient == Some(g.recipient) && g.workspaceId == c.workspaceId && c.documentId in g.sourceIds
        && !g.revoked && now < g.expiresAt && g.origin in {None, Some(""), a.origin};
      assert grants[i] in grants && GrantCovers(grants[i], c, a.recipient.value, a, now);
    }
    if g :| g in grants && GrantCovers(g, c, a.recipient.value, a, now) {
      var i :| 0 <= i < |grants| && grants[i] == g;
    }
  }

  lemma AbsentOrEmpty(o: Option<string>)
    ensures o in {None, Some("")} <==> !Given(o)
  {
  }

  lemma PermittedIsVisible(c: Chunk, r: Request, grants: seq<Grant>)
    ensures Permitted(c, r, grants) <==> Visible(c, r, grants)
  {
    var a := r.authorization;
    AbsentOrEmpty(a.origin);
    AbsentOrEmpty(c.sourceOrigin);
    AbsentOrEmpty(a.recipient);
    assert a.origin in {None, Some("")} || c.sourceOrigin in {None, Some(""), a.origin} <==>
           (Given(a.origin) && Given(c.sourceOrigin) ==> a.origin == c.sourceOrigin);
    if Given(a.recipient) {
      GrantedIsCovered(c, a, r.now, grants);
    }
  }

  /** The chunk is of the current revision of a document that is there and not deleted. */
  ghost predicate IsCurrent(c: Chunk, documents: map<Id, Document>) {
    c.documentId in documents && documents[c.documentId].currentRevisionId == c.revisionId && !documents[c.documentId].deleted
  }

  /** The result shows the chunk, under its document's title. */
  ghost predicate Shows(f: Found, c: Chunk, documents: map<Id, Document>) {
    && c.documentId in documents && f.title == documents[c.documentId].title
    && f.chunkId == c.id && f.documentId == c.documentId && f.revisionId == c.revisionId
    && f.text == c.text && f.startOffset == c.startOffset && f.endOffset == c.endOffset
  }

  /** Every result shows a permitted chunk of the current revision of a document that is not deleted. */
  lemma ResultsAreAuthorized(s: Snapshot, r: Request, tokenize: string -> seq<string>, numerics: Numerics, f: Found)
    requires Search(s, r, tokenize, numerics).Ok? && f in Search(s, r, tokenize, numerics).value
    ensures exists c :: c in s.chunks && Permitted(c, r, s.grants) && IsCurrent(c, s.documents) && Shows(f, c, s.documents)
  {
    var found := AllMatches(s, r, tokenize, numerics);
    TopIsBest(s, r, tokenize, numerics);
    assert f in multiset(found);
    var chunks := VisibleChunks(s.chunks, r, s.grants);
    var lexical, vectors := Lexical(tokenize(r.query), chunks, numerics.log), VectorsOf(r, chunks, s.embeddings, numerics.sqrt);
    MatchesAre(chunks, s.documents, lexical, vectors, f);
    var c :| c in chunks && Candidate(c, lexical, vectors) && Current(c, s.documents) && f == FoundOf(c, s.documents[c.documentId], lexical, vectors);
    PermittedIsVisible(c, r, s.grants);
    assert Permitted(c, r, s.grants) && IsCurrent(c, s.documents) && Shows(f, c, s.documents);
  }

  // Ranks: the places of the scores, best first, each taken once.

  ghost predicate Descending(scores: Scores) {
    forall i, j :: 0 <= i < j < |scores| ==> scores[i].score >= scores[j].score
  }

  lemma {:induction false} InsertPermutes(s: Scored, sorted: Scores)
    ensures multiset(Insert(s, sorted)) == multiset{s} + multiset(sorted)
  {
    if sorted != [] && sorted[0].score >= s.score {
      InsertPermutes(s, sorted[1..]);
      assert sorted == [sorted[0]] + sorted[1..];
    }
  }

  lemma MultisetOfLast(scores: Scores)
    requires scores != []
    ensures multiset(scores) == multiset{scores[|scores| - 1]} + multiset(scores[..|scores| - 1])
  {
    assert scores == scores[..|scores| - 1] + [scores[|scores| - 1]];
  }

  lemma {:induction false} InsertDescends(s: Scored, sorted: Scores)
    requires Descending(sorted)
    ensures Descending(Insert(s, sorted))
  {
    if sorted != [] && sorted[0].score >= s.score {
      var rest := sorted[1..];
      InsertDescends(s, rest);
      forall t | t in Insert(s, rest)
        ensures sorted[0].score >= t.score
      {
        InsertPermutes(s, rest);
        assert t in multiset(Insert(s, rest));
      }
    }
  }

  lemma {:induction false} OrderedPermutes(scores: Scores)
    ensures multiset(Ordered(scores)) == multiset(scores)
    decreases |scores|
  {
    if scores != [] {
      var n := |scores| - 1;
      OrderedPermutes(scores[..n]);
      InsertPermutes(scores[n], Ordered(scores[..n]));
      MultisetOfLast(scores);
    }
  }

  lemma {:induction false} OrderedDescends(scores: Scores)
    ensures Descending(Ordered(scores))
    decreases |scores|
  {
    if scores != [] {
      var n := |scores| - 1;
      OrderedDescends(scores[..n]);
      InsertDescends(scores[n], Ordered(scores[..n]));
    }
  }

  lemma {:induction false} PlaceIs(sorted: Scores, id: Id)
    ensures match Place(sorted, id)
            case None => forall i :: 0 <= i < |sorted| ==> sorted[i].id != id
            case Some(k) => 1 <= k <= |sorted| && sorted[k - 1].id == id
  {
    if sorted != [] && sorted[0].id != id {
      PlaceIs(sorted[1..], id);
    }
  }

  lemma OrderedKeeps(scores: Scores, s: Scored)
    ensures s in Ordered(scores) <==> s in scores
  {
    OrderedPermutes(scores);
    assert s in Ordered(scores) <==> s in multiset(Ordered(scores));
    assert s in scores <==> s in multiset(scores);
  }

  ghost predicate OncePerId(scores: Scores) {
    forall s, t :: s in scores && t in scores && s.id == t.id ==> s == t
  }

  ghost predicate DistinctIds(scores: Scores) {
    forall i, j :: 0 <= i < j < |scores| ==> scores[i].id != scores[j].id
  }

  lemma DistinctIsOnce(scores: Scores)
    requires DistinctIds(scores)
    ensures OncePerId(scores)
  {
  }

  lemma {:induction false} PutIds(scores: Scores, id: Id, score: real, k: nat)
    requires k < |Put(scores, id, score)|
    ensures Put(scores, id, score)[k].id == id || exists i :: 0 <= i < |scores| && scores[i].id == Put(scores, id, score)[k].id
  {
    if scores != [] && scores[0].id != id && k > 0 {
      PutIds(scores[1..], id, score, k - 1);
      if i :| 0 <= i < |scores| - 1 && scores[1..][i].id == Put(scores, id, score)[k].id {
        assert scores[i + 1].id == Put(scores, id, score)[k].id;
      }
    } else if scores != [] && k > 0 {
      assert scores[k].id == Put(scores, id, score)[k].id;
    }
  }

  /** Writing a score keeps each id once, as a map does. */
  lemma {:induction false} PutKeepsDistinct(scores: Scores, id: Id, score: real)
    requires DistinctIds(scores)
    ensures DistinctIds(Put(scores, id, score))
  {
    if scores != [] && scores[0].id != id {
      var rest := Put(scores[1..], id, score);
      PutKeepsDistinct(scores[1..], id, score);
      forall k | 0 <= k < |rest|
        ensures rest[k].id != scores[0].id
      {
        PutIds(scores[1..], id, score, k);
      }
    }
  }

  lemma {:induction false} LexicalIsDistinct(terms: seq<string>, chunks: seq<Chunk>, k: nat, log: real -> real)
    requires k <= |chunks|
    ensures DistinctIds(LexicalUpTo(terms, chunks, k, log))
  {
    if k > 0 {
      LexicalIsDistinct(terms, chunks, k - 1, log);
      var score := LexicalScore(terms, chunks[k - 1], chunks, log);
      PutKeepsDistinct(LexicalUpTo(terms, chunks, k - 1, log), chunks[k - 1].id, score);
    }
  }

  lemma {:induction false} VectorIsDistinct(q: QueryVector, allowed: set<Id>, embeddings: seq<Embedding>, sqrt: real -> real)
    ensures DistinctIds(Vector(q, allowed, embeddings, sqrt))
    decreases |embeddings|
  {
    if embeddings != [] {
      var n := |embeddings| - 1;
      VectorIsDistinct(q, allowed, embeddings[..n], sqrt);
      var score := CosineOf(q.vector, embeddings[n].vector, sqrt);
      if score.Some? {
        PutKeepsDistinct(Vector(q, allowed, embeddings[..n], sqrt), embeddings[n].chunkId, score.value);
      }
    }
  }

  lemma RankIs(scores: Scores, a: Scored)
    requires OncePerId(scores) && a in scores
    ensures Rank(scores, a.id).Some?
    ensures 1 <= Rank(scores, a.id).value <= |Ordered(scores)| && Ordered(scores)[Rank(scores, a.id).value - 1] == a
  {
    var sorted := Ordered(scores);
    OrderedKeeps(scores, a);
    PlaceIs(sorted, a.id);
    var k := Rank(scores, a.id).value;
    OrderedKeeps(scores, sorted[k - 1]);
  }

  /** Of two scored chunks, the one with the better score has the better rank and the larger share. */
  lemma BetterScoreBetterRank(scores: Scores, a: Scored, b: Scored)
    requires DistinctIds(scores) && a in scores && b in scores && a.score > b.score
    ensures Rank(scores, a.id).Some? && Rank(scores, b.id).Some?
    ensures Rank(scores, a.id).value < Rank(scores, b.id).value
    ensures Share(Rank(scores, a.id)) > Share(Rank(scores, b.id))
  {
    DistinctIsOnce(scores);
    OrderedDescends(scores);
    RankIs(scores, a);
    RankIs(scores, b);
    var i, j := Rank(scores, a.id).value, Rank(scores, b.id).value;
    Reciprocal(RRF_K + i as real, RRF_K + j as real);
  }

  lemma Reciprocal(x: real, y: real)
    requires 0.0 < x < y
    ensures 1.0 / x > 1.0 / y
  {
    var p, q := 1.0 / x, 1.0 / y;
    assert p * x == 1.0 && q * y == 1.0;
    PositiveProduct(p, y - x);
    assert (p - q) * y == p * (y - x);
    assert p - q > 0.0;
  }
}
