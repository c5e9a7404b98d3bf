/** What the vault's writes do to the record graph: one ingest, one deletion, one staging record
    (packages/memory/src/vault.ts). */
module VaultGraph {
  import opened Prelude
  import opened Records

  /** verifyPrivateRecordGraph's rules for documents, revisions, chunks and embeddings, and two rules
      it does not check: a revision is listed by its document, and a chunk by its revision. */
  predicate SourceOk(g: Graph, id: Id, body: Body) {
    match body
    case Document(_, _, _, _, _, _) => RecordOk(g, id, body)
    case Revision(doc, _, _, _, _) => RecordOk(g, id, body) && id in g[doc].revisionIds
    case Chunk(_, rev, _, _) => RecordOk(g, id, body) && id in g[rev].chunkIds
    case Embedding(_, _, _, _, _) => RecordOk(g, id, body)
    case _ => true
  }

  ghost predicate SourceGraph(g: Graph) {
    forall id :: id in g ==> SourceOk(g, id, g[id])
  }

  // Deletions.

  predicate MentionsSource(body: Body, documentId: Id) {
    (body.Grant? || body.Derived? || body.Workflow? || body.Receipt?) && documentId in body.sourceIds
  }

  predicate BelongsToSource(g: Graph, id: Id, documentId: Id)
    requires id in g && IsKind(g, documentId, DocumentKind)
  {
    var body := g[id];
    || id == documentId
    || id in g[documentId].revisionIds
    || (body.Chunk? && body.documentId == documentId)
    || (body.Embedding? && (body.documentId == documentId
                            || (IsKind(g, body.chunkId, ChunkKind) && g[body.chunkId].documentId == documentId)))
    || MentionsSource(body, documentId)
  }

  /** The ids #deleteSource collects; none when the id is not a document. */
  function SourceIds(g: Graph, documentId: Id): set<Id> {
    if IsKind(g, documentId, DocumentKind) then set id | id in g && BelongsToSource(g, id, documentId)
    else {}
  }

  predicate BelongsToWorkspace(g: Graph, id: Id, workspaceId: Id)
    requires id in g
  {
    id == workspaceId || (!g[id].Workspace? && !g[id].Staging? && g[id].workspaceId == workspaceId)
  }

  /** The ids #deleteWorkspace collects. */
  function WorkspaceIds(g: Graph, workspaceId: Id): set<Id> {
    set id | id in g && BelongsToWorkspace(g, id, workspaceId)
  }

  predicate Expired(until: Option<int>, now: int) {
    until.Some? && until.value <= now
  }

  function ExpiredWorkspaces(g: Graph, now: int): set<Id> {
    set id | id in g && g[id].Workspace? && Expired(g[id].retentionUntil, now)
  }

  function ExpiredDocuments(g: Graph, now: int): set<Id> {
    set id | id in g && g[id].Document? && Expired(g[id].retentionUntil, now)
  }

  function ExpiredGrants(g: Graph, now: int): set<Id> {
    set id | id in g && g[id].Grant? && g[id].expiresAt <= now
  }

  function ExpiredReceipts(g: Graph, now: int): set<Id> {
    set id | id in g && g[id].Receipt? && Expired(g[id].retentionUntil, now)
  }

  predicate DependsOnSources(body: Body, sources: set<Id>) {
    (body.Derived? || body.Workflow? || body.Receipt?) && exists s :: s in body.sourceIds && s in sources
  }

  /** What goes with a revoked or expired grant. */
  function DependentIds(g: Graph, sources: set<Id>): set<Id> {
    set id | id in g && DependsOnSources(g[id], sources)
  }

  function SourcesOf(g: Graph, grantId: Id): set<Id> {
    if IsKind(g, grantId, GrantKind) then set s | s in g[grantId].sourceIds else {}
  }

  lemma DeletingSourceKeepsGraph(g: Graph, documentId: Id)
    requires SourceGraph(g)
    ensures SourceGraph(g - SourceIds(g, documentId))
  {
    var ids := SourceIds(g, documentId);
    var h := g - ids;
    forall id | id in h
      ensures SourceOk(h, id, h[id])
    {
      assert SourceOk(g, id, g[id]);
      if IsKind(g, documentId, DocumentKind) {
        SourceRecordStays(g, documentId, id);
      }
    }
  }

  lemma SourceRecordStays(g: Graph, documentId: Id, id: Id)
    requires SourceGraph(g) && IsKind(g, documentId, DocumentKind)
    requires id in g && id !in SourceIds(g, documentId)
    ensures SourceOk(g - SourceIds(g, documentId), id, g[id])
  {
    var ids := SourceIds(g, documentId);
    var h := g - ids;
    var body := g[id];
    assert SourceOk(g, id, body);
    assert SourceOk(g, documentId, g[documentId]);
    assert !BelongsToSource(g, id, documentId);
    match body {
      case Document(ws, revisionIds, _, _, _, _) =>
        assert ws !in ids;
        forall r | r in revisionIds
          ensures ListedRevisionOk(h, id, ws, r)
        {
          assert ListedRevisionOk(g, id, ws, r);
          assert r in g[documentId].revisionIds ==> ListedRevisionOk(g, documentId, g[documentId].workspaceId, r);
          assert r !in ids;
        }
      case Revision(doc, ws, _, chunkIds, _) =>
        assert doc != documentId && doc !in ids by {
          assert doc in g[documentId].revisionIds ==> ListedRevisionOk(g, documentId, g[documentId].workspaceId, doc);
        }
        assert ws !in ids by {
          assert ws in g[documentId].revisionIds ==> ListedRevisionOk(g, documentId, g[documentId].workspaceId, ws);
        }
        forall c | c in chunkIds
          ensures ListedChunkOk(h, id, doc, ws, c)
        {
          assert ListedChunkOk(g, id, doc, ws, c);
          assert c in g[documentId].revisionIds ==> ListedRevisionOk(g, documentId, g[documentId].workspaceId, c);
          assert c !in ids;
        }
      case Chunk(doc, rev, ws, _) =>
        forall x | x == doc || x == rev || x == ws
          ensures x !in ids
        {
          assert x in g[documentId].revisionIds ==> ListedRevisionOk(g, documentId, g[documentId].workspaceId, x);
        }
      case Embedding(chunk, doc, rev, ws, _) =>
        forall x | x == chunk || x == ws
          ensures x !in ids
        {
          assert x in g[documentId].revisionIds ==> ListedRevisionOk(g, documentId, g[documentId].workspaceId, x);
        }
      case _ =>
    }
  }

  /** Documents, revisions and chunks hang together: none of them can go alone. */
  predicate HeldByOthers(g: Graph, id: Id) {
    id in g && (g[id].Document? || g[id].Revision? || g[id].Chunk?)
  }

  /** #deleteWorkspace does not check the kind of the record it is given. It keeps the graph exactly
      when the id is not that of a document, a revision or a chunk. */
  lemma DeletingWorkspaceKeepsGraph(g: Graph, workspaceId: Id)
    requires SourceGraph(g)
    ensures SourceGraph(g - WorkspaceIds(g, workspaceId)) <==> !HeldByOthers(g, workspaceId)
  {
    var h := g - WorkspaceIds(g, workspaceId);
    if HeldByOthers(g, workspaceId) {
      DeletingHeldRecordBreaksGraph(g, workspaceId);
    } else {
      forall id | id in h
        ensures SourceOk(h, id, h[id])
      {
        WorkspaceRecordStays(g, workspaceId, id);
      }
    }
  }

  lemma DeletingHeldRecordBreaksGraph(g: Graph, id: Id)
    requires SourceGraph(g) && HeldByOthers(g, id)
    ensures !SourceGraph(g - WorkspaceIds(g, id))
  {
    var h := g - WorkspaceIds(g, id);
    assert SourceOk(g, id, g[id]);
    assert !IsKind(g, id, WorkspaceKind);
    assert BelongsToWorkspace(g, id, id);
    match g[id] {
      case Document(ws, _, current, _, _, _) =>
        assert ListedRevisionOk(g, id, ws, current);
        assert SourceOk(g, current, g[current]);
        assert current in h;
        assert !SourceOk(h, current, h[current]);
      case Revision(doc, ws, _, _, _) =>
        assert SourceOk(g, doc, g[doc]);
        assert doc in h;
        assert !ListedRevisionOk(h, doc, ws, id);
        assert !SourceOk(h, doc, h[doc]);
      case Chunk(doc, rev, ws, _) =>
        assert SourceOk(g, rev, g[rev]);
        assert rev in h;
        assert !ListedChunkOk(h, rev, doc, ws, id);
        assert !SourceOk(h, rev, h[rev]);
    }
  }

  lemma WorkspaceRecordStays(g: Graph, workspaceId: Id, id: Id)
    requires SourceGraph(g) && !HeldByOthers(g, workspaceId)
    requires id in g && id !in WorkspaceIds(g, workspaceId)
    ensures SourceOk(g - WorkspaceIds(g, workspaceId), id, g[id])
  {
    var ids := WorkspaceIds(g, workspaceId);
    var h := g - ids;
    assert SourceOk(g, id, g[id]);
    assert !BelongsToWorkspace(g, id, workspaceId);
    match g[id] {
      case Document(ws, revisionIds, _, _, _, _) =>
        assert ws !in ids;
        forall r | r in revisionIds
          ensures ListedRevisionOk(h, id, ws, r)
        {
          assert ListedRevisionOk(g, id, ws, r);
          assert !BelongsToWorkspace(g, r, workspaceId);
        }
      case Revision(doc, ws, _, chunkIds, _) =>
        assert SourceOk(g, doc, g[doc]);
        forall c | c in chunkIds
          ensures ListedChunkOk(h, id, doc, ws, c)
        {
          assert ListedChunkOk(g, id, doc, ws, c);
          assert !BelongsToWorkspace(g, c, workspaceId);
        }
      case _ =>
    }
  }

  predicate Standalone(body: Body) {
    body.Grant? || body.Workflow? || body.Receipt? || body.Derived? || body.Staging?
  }

  lemma DeletingStandaloneKeepsGraph(g: Graph, ids: set<Id>)
    requires SourceGraph(g)
    requires forall id :: id in ids && id in g ==> Standalone(g[id])
    ensures SourceGraph(g - ids)
  {
    var h := g - ids;
    forall id | id in h
      ensures SourceOk(h, id, h[id])
    {
      assert SourceOk(g, id, g[id]);
      match g[id] {
        case Document(ws, revisionIds, _, _, _, _) =>
          forall r | r in revisionIds
            ensures ListedRevisionOk(h, id, ws, r)
          {
            assert ListedRevisionOk(g, id, ws, r);
          }
        case Revision(doc, ws, _, chunkIds, _) =>
          forall c | c in chunkIds
            ensures ListedChunkOk(h, id, doc, ws, c)
          {
            assert ListedChunkOk(g, id, doc, ws, c);
          }
        case _ =>
      }
    }
  }

  // Additions.

  lemma SourceOkExtends(g: Graph, h: Graph, id: Id)
    requires id in g && SourceOk(g, id, g[id])
    requires forall x :: x in g ==> x in h && (h[x] == g[x] || (Standalone(g[x]) && Standalone(h[x])))
    ensures SourceOk(h, id, g[id])
  {
    match g[id] {
      case Document(ws, revisionIds, _, _, _, _) =>
        forall r | r in revisionIds
          ensures ListedRevisionOk(h, id, ws, r)
        {
          assert ListedRevisionOk(g, id, ws, r);
        }
      case Revision(doc, ws, _, chunkIds, _) =>
        forall c | c in chunkIds
          ensures ListedChunkOk(h, id, doc, ws, c)
        {
          assert ListedChunkOk(g, id, doc, ws, c);
        }
      case _ =>
    }
  }

  /** A new workspace or standalone record, or a standalone record written over. */
  lemma AddingRecordKeepsGraph(g: Graph, id: Id, body: Body)
    requires SourceGraph(g)
    requires (id !in g && body.Workspace?) || (Standalone(body) && (id in g ==> Standalone(g[id])))
    ensures SourceGraph(g[id := body])
  {
    var h := g[id := body];
    forall x | x in h
      ensures SourceOk(h, x, h[x])
    {
      if x != id {
        assert SourceOk(g, x, g[x]);
        SourceOkExtends(g, h, x);
      }
    }
  }

  // One ingest. `existing` is the document record it revises, if there is one.

  datatype Plan = Plan(workspaceId: Id, documentId: Id, existing: Option<Body>, revisionId: Id,
                       chunkIds: seq<Id>, embeddingIds: seq<Id>, stagingId: Id,
                       fingerprint: int, retentionUntil: Option<int>, content: int)
  {
    function DocumentBody(): Body {
      var earlier := if existing.Some? && existing.value.Document? then existing.value.revisionIds else [];
      Document(workspaceId, earlier + [revisionId], revisionId, retentionUntil, false, content)
    }

    function RevisionBody(): Body {
      Revision(documentId, workspaceId, fingerprint, chunkIds, content)
    }

    function ChunkBody(): Body {
      Chunk(documentId, revisionId, workspaceId, content)
    }

    function EmbeddingBody(i: nat): Body
      requires i < |chunkIds|
    {
      Embedding(chunkIds[i], documentId, revisionId, workspaceId, content)
    }

    /** The document, the revision, the chunks and their embeddings, in the order they are saved. */
    function Unit(): seq<(Id, Body)>
      requires |embeddingIds| <= |chunkIds|
    {
      [(documentId, DocumentBody()), (revisionId, RevisionBody())]
      + seq(|chunkIds|, i requires 0 <= i < |chunkIds| => (chunkIds[i], ChunkBody()))
      + seq(|embeddingIds|, i requires 0 <= i < |embeddingIds| => (embeddingIds[i], EmbeddingBody(i)))
    }

    /** The staging record's list: an existing document is not in it. */
    function StagedIds(): seq<Id> {
      (if existing.Some? then [] else [documentId]) + [revisionId] + chunkIds + embeddingIds
    }

    /** What the compensation of a failed ingest deletes. */
    function CompensatedIds(): set<Id> {
      (set id | id in StagedIds()) + {stagingId}
    }

    ghost predicate FreshIds(g: Graph) {
      && |embeddingIds| <= |chunkIds|
      && (forall i, j :: 0 <= i < j < |StagedIds()| ==> StagedIds()[i] != StagedIds()[j])
      && (forall id :: id in StagedIds() ==> id !in g)
      && stagingId !in StagedIds() && stagingId != documentId
    }

    ghost predicate Ready(g: Graph) {
      && FreshIds(g)
      && IsKind(g, workspaceId, WorkspaceKind)
      && match existing
         case Some(body) => documentId in g && g[documentId] == body && body.Document? && body.workspaceId == workspaceId
         case None => true
    }
  }

  /** Map.set for each pair in turn. */
  function Extend(g: Graph, added: seq<(Id, Body)>): Graph {
    if added == [] then g
    else Extend(g, added[..|added| - 1])[added[|added| - 1].0 := added[|added| - 1].1]
  }

  lemma {:induction false} ExtendAt(g: Graph, added: seq<(Id, Body)>, id: Id)
    ensures id in Extend(g, added) <==> id in g || exists i :: 0 <= i < |added| && added[i].0 == id
    ensures id in Extend(g, added) && (forall i :: 0 <= i < |added| ==> added[i].0 != id) ==> Extend(g, added)[id] == g[id]
  {
    if added != [] {
      var last := |added| - 1;
      ExtendAt(g, added[..last], id);
      if i :| 0 <= i < |added| && added[i].0 == id && i != last {
        assert added[..last][i].0 == id;
      }
    }
  }

  lemma {:induction false} ExtendNew(g: Graph, added: seq<(Id, Body)>, i: nat)
    requires i < |added|
    requires forall j, k :: 0 <= j < k < |added| ==> added[j].0 != added[k].0
    ensures added[i].0 in Extend(g, added) && Extend(g, added)[added[i].0] == added[i].1
  {
    var last := |added| - 1;
    if i < last {
      ExtendNew(g, added[..last], i);
    }
  }

  /** The graph after the second save of an ingest, written out. */
  ghost predicate IsIngested(g: Graph, h: Graph, p: Plan)
    requires |p.embeddingIds| <= |p.chunkIds|
  {
    && h.Keys == g.Keys + {p.documentId} + (set id | id in p.StagedIds())
    && (forall id :: id in g && id != p.documentId ==> h[id] == g[id])
    && h[p.documentId] == p.DocumentBody()
    && h[p.revisionId] == p.RevisionBody()
    && (forall c :: c in p.chunkIds ==> h[c] == p.ChunkBody())
    && (forall i :: 0 <= i < |p.embeddingIds| ==> h[p.embeddingIds[i]] == p.EmbeddingBody(i))
  }

  lemma UnitIds(g: Graph, p: Plan)
    requires p.Ready(g)
    ensures forall j, k :: 0 <= j < k < |p.Unit()| ==> p.Unit()[j].0 != p.Unit()[k].0
    ensures forall j :: 0 <= j < |p.Unit()| ==> p.Unit()[j].0 == p.documentId || p.Unit()[j].0 in p.StagedIds()
    ensures p.documentId == p.Unit()[0].0
    ensures forall id :: id in p.StagedIds() ==> exists j :: 0 <= j < |p.Unit()| && p.Unit()[j].0 == id
  {
    var unit, staged := p.Unit(), p.StagedIds();
    var shift := if p.existing.Some? then 1 else 0;
    assert |unit| == |staged| + shift;
    forall j | shift <= j < |unit|
      ensures unit[j].0 == staged[j - shift]
    {
    }
    forall id | id in staged
      ensures exists j :: 0 <= j < |unit| && unit[j].0 == id
    {
      var k :| 0 <= k < |staged| && staged[k] == id;
      assert unit[k + shift].0 == id;
    }
  }

  lemma IngestedKeys(g: Graph, p: Plan, id: Id)
    requires p.Ready(g)
    ensures id in Extend(g, p.Unit()) <==> id in g || id == p.documentId || id in p.StagedIds()
    ensures id in g && id != p.documentId ==> Extend(g, p.Unit())[id] == g[id]
  {
    UnitIds(g, p);
    ExtendAt(g, p.Unit(), id);
  }

  lemma IngestedAt(g: Graph, p: Plan, i: nat)
    requires p.Ready(g) && i < |p.Unit()|
    ensures p.Unit()[i].0 in Extend(g, p.Unit()) && Extend(g, p.Unit())[p.Unit()[i].0] == p.Unit()[i].1
  {
    UnitIds(g, p);
    ExtendNew(g, p.Unit(), i);
  }

  lemma IngestedOthers(g: Graph, p: Plan)
    requires p.Ready(g)
    ensures var h := Extend(g, p.Unit());
            && h.Keys == g.Keys + {p.documentId} + (set id | id in p.StagedIds())
            && forall id :: id in g && id != p.documentId ==> h[id] == g[id]
  {
    var h := Extend(g, p.Unit());
    forall id: Id
      ensures id in h <==> id in g || id == p.documentId || id in p.StagedIds()
      ensures id in g && id != p.documentId ==> h[id] == g[id]
    {
      IngestedKeys(g, p, id);
    }
  }

  lemma IngestedGraph(g: Graph, p: Plan)
    requires p.Ready(g)
    ensures IsIngested(g, Extend(g, p.Unit()), p)
  {
    var h := Extend(g, p.Unit());
    IngestedOthers(g, p);
    IngestedHead(g, p);
    forall c | c in p.chunkIds
      ensures c in h && h[c] == p.ChunkBody()
    {
      IngestedChunk(g, p, c);
    }
    forall i | 0 <= i < |p.embeddingIds|
      ensures p.embeddingIds[i] in h && h[p.embeddingIds[i]] == p.EmbeddingBody(i)
    {
      IngestedEmbedding(g, p, i);
    }
  }

  lemma IngestedEmbedding(g: Graph, p: Plan, i: nat)
    requires p.Ready(g) && i < |p.embeddingIds|
    ensures var h := Extend(g, p.Unit()); p.embeddingIds[i] in h && h[p.embeddingIds[i]] == p.EmbeddingBody(i)
  {
    IngestedAt(g, p, 2 + |p.chunkIds| + i);
  }

  lemma IngestedHead(g: Graph, p: Plan)
    requires p.Ready(g)
    ensures var h := Extend(g, p.Unit());
            && p.documentId in h && h[p.documentId] == p.DocumentBody()
            && p.revisionId in h && h[p.revisionId] == p.RevisionBody()
  {
    IngestedAt(g, p, 0);
    IngestedAt(g, p, 1);
  }

  lemma IngestedChunk(g: Graph, p: Plan, c: Id)
    requires p.Ready(g) && c in p.chunkIds
    ensures c in Extend(g, p.Unit()) && Extend(g, p.Unit())[c] == p.ChunkBody()
  {
    var i :| 0 <= i < |p.chunkIds| && p.chunkIds[i] == c;
    IngestedAt(g, p, 2 + i);
  }

  /** A whole ingest keeps the graph. */
  lemma IngestKeepsGraph(g: Graph, h: Graph, p: Plan)
    requires SourceGraph(g) && p.Ready(g) && IsIngested(g, h, p)
    ensures SourceGraph(h)
  {
    forall id | id in h
      ensures SourceOk(h, id, h[id])
    {
      if id == p.documentId {
        IngestedDocumentOk(g, h, p);
      } else if id == p.revisionId {
        forall c | c in p.chunkIds
          ensures ListedChunkOk(h, id, p.documentId, p.workspaceId, c)
        {
          assert h[c] == p.ChunkBody();
        }
      } else if id in p.chunkIds {
        assert h[id] == p.ChunkBody();
      } else if id in p.embeddingIds {
        var i :| 0 <= i < |p.embeddingIds| && p.embeddingIds[i] == id;
        assert p.chunkIds[i] in p.chunkIds;
      } else {
        assert id in g;
        IngestRevises(g, h, p);
        OldRecordOk(g, h, p.documentId, id);
      }
    }
  }

  lemma IngestedDocumentOk(g: Graph, h: Graph, p: Plan)
    requires SourceGraph(g) && p.Ready(g) && IsIngested(g, h, p)
    ensures SourceOk(h, p.documentId, h[p.documentId])
  {
    forall r | r in p.DocumentBody().revisionIds
      ensures ListedRevisionOk(h, p.documentId, p.workspaceId, r)
    {
      if r != p.revisionId {
        assert SourceOk(g, p.documentId, g[p.documentId]);
        assert ListedRevisionOk(g, p.documentId, p.workspaceId, r);
      }
    }
  }

  /** Every record of g is in h: the document d with more revisions, all others as they were. */
  ghost predicate Revises(g: Graph, h: Graph, d: Id) {
    && (forall id :: id in g ==> id in h && (id != d ==> h[id] == g[id]))
    && (d in g ==> g[d].Document? && h[d].Document? && h[d].workspaceId == g[d].workspaceId
                   && forall r :: r in g[d].revisionIds ==> r in h[d].revisionIds)
  }

  lemma IngestRevises(g: Graph, h: Graph, p: Plan)
    requires p.Ready(g) && IsIngested(g, h, p)
    ensures Revises(g, h, p.documentId)
  {
    assert p.existing.None? ==> p.documentId in p.StagedIds();
  }

  lemma OldRecordOk(g: Graph, h: Graph, d: Id, id: Id)
    requires SourceGraph(g) && Revises(g, h, d)
    requires id in g && id != d
    ensures SourceOk(h, id, h[id])
  {
    assert SourceOk(g, id, g[id]);
    match g[id] {
      case Document(ws, revisionIds, _, _, _, _) =>
        forall r | r in revisionIds
          ensures ListedRevisionOk(h, id, ws, r)
        {
          assert ListedRevisionOk(g, id, ws, r);
        }
      case Revision(doc, ws, _, chunkIds, _) =>
        forall c | c in chunkIds
          ensures ListedChunkOk(h, id, doc, ws, c)
        {
          assert ListedChunkOk(g, id, doc, ws, c);
        }
      case _ =>
    }
  }

  /** The records between the two transactions of the compensation of a saved ingest. */
  function BetweenTransactions(g: Graph, p: Plan): Graph
    requires |p.embeddingIds| <= |p.chunkIds|
  {
    Extend(g, p.Unit())[p.stagingId := Staging(p.StagedIds())] - p.CompensatedIds()
  }

  lemma NewDocumentGone(g: Graph, p: Plan)
    requires p.Ready(g) && p.stagingId !in g && p.existing.None?
    ensures BetweenTransactions(g, p) == g
  {
    IngestedOthers(g, p);
    assert p.documentId in p.StagedIds();
  }

  lemma RevisedDocumentDangles(g: Graph, p: Plan)
    requires p.Ready(g) && p.stagingId !in g && p.existing.Some?
    ensures !SourceGraph(BetweenTransactions(g, p))
  {
    IngestedHead(g, p);
    var between := BetweenTransactions(g, p);
    assert p.documentId in between && between[p.documentId] == p.DocumentBody();
    assert p.revisionId in p.DocumentBody().revisionIds && p.revisionId in p.StagedIds();
    assert !ListedRevisionOk(between, p.documentId, p.workspaceId, p.revisionId);
    assert !SourceOk(between, p.documentId, between[p.documentId]);
  }

  /** The compensation of an ingest whose second save went through but was reported as failed takes
      two transactions. Between them the graph is whole exactly when the document was new: a crash
      there leaves a revised document that lists a deleted revision, with no staging record left for
      the next unlock to act on. */
  lemma CompensationIsNotAtomic(g: Graph, p: Plan)
    requires SourceGraph(g) && p.Ready(g) && p.stagingId !in g
    ensures SourceGraph(BetweenTransactions(g, p)) <==> p.existing.None?
  {
    if p.existing.None? {
      NewDocumentGone(g, p);
    } else {
      RevisedDocumentDangles(g, p);
    }
  }
}
