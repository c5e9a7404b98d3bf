/** The vault's private records and the graph rules that tie them together
    (packages/memory/src/types.ts and verifyPrivateRecordGraph in migrations.ts). */
module Records {
  import opened Prelude

  /** Record identifiers. The order of the numbers stands for the locale order of the id strings. */
  type Id = nat

  datatype Kind =
    | WorkspaceKind | DocumentKind | RevisionKind | ChunkKind | EmbeddingKind
    | GrantKind | WorkflowKind | ReceiptKind | DerivedKind | StagingKind

  /** The fields the vault reads; `content` stands for all the others (titles, texts, vectors, ...). */
  datatype Body =
    | Workspace(retentionUntil: Option<int>, deleted: bool, content: int)
    | Document(workspaceId: Id, revisionIds: seq<Id>, currentRevisionId: Id,
               retentionUntil: Option<int>, deleted: bool, content: int)
    | Revision(documentId: Id, workspaceId: Id, fingerprint: int, chunkIds: seq<Id>, content: int)
    | Chunk(documentId: Id, revisionId: Id, workspaceId: Id, content: int)
    | Embedding(chunkId: Id, documentId: Id, revisionId: Id, workspaceId: Id, content: int)
    | Grant(workspaceId: Id, sourceIds: seq<Id>, expiresAt: int, content: int)
    | Workflow(workspaceId: Id, sourceIds: seq<Id>, content: int)
    | Receipt(workspaceId: Id, sourceIds: seq<Id>, retentionUntil: Option<int>, content: int)
    | Derived(workspaceId: Id, sourceIds: seq<Id>, content: int)
    | Staging(recordIds: seq<Id>)
  {
    function Kind(): Kind {
      match this
      case Workspace(_, _, _) => WorkspaceKind
      case Document(_, _, _, _, _, _) => DocumentKind
      case Revision(_, _, _, _, _) => RevisionKind
      case Chunk(_, _, _, _) => ChunkKind
      case Embedding(_, _, _, _, _) => EmbeddingKind
      case Grant(_, _, _, _) => GrantKind
      case Workflow(_, _, _) => WorkflowKind
      case Receipt(_, _, _, _) => ReceiptKind
      case Derived(_, _, _) => DerivedKind
      case Staging(_) => StagingKind
    }
  }

  datatype Record = Record(version: nat, id: Id, body: Body)

  /** The records of a vault, by id. */
  type Graph = map<Id, Body>

  ghost predicate DistinctIds(records: seq<Record>) {
    forall i, j :: 0 <= i < j < |records| ==> records[i].id != records[j].id
  }

  ghost function GraphOf(records: seq<Record>): Graph {
    if records == [] then map[]
    else
      var last := |records| - 1;
      GraphOf(records[..last])[records[last].id := records[last].body]
  }

  lemma {:induction false} GraphOfIds(records: seq<Record>, id: Id)
    ensures id in GraphOf(records) <==> exists i :: 0 <= i < |records| && records[i].id == id
  {
    if records != [] {
      var last := |records| - 1;
      GraphOfIds(records[..last], id);
      if i :| 0 <= i < |records| && records[i].id == id {
        assert i == last || records[..last][i].id == id;
      }
    }
  }

  lemma {:induction false} GraphOfAt(records: seq<Record>, i: nat)
    requires DistinctIds(records) && i < |records|
    ensures records[i].id in GraphOf(records) && GraphOf(records)[records[i].id] == records[i].body
  {
    var last := |records| - 1;
    if i < last {
      GraphOfAt(records[..last], i);
      assert records[..last][i] == records[i];
    }
  }

  predicate IsKind(g: Graph, id: Id, kind: Kind) {
    id in g && g[id].Kind() == kind
  }

  predicate ListedRevisionOk(g: Graph, id: Id, workspaceId: Id, revisionId: Id) {
    IsKind(g, revisionId, RevisionKind) && g[revisionId].documentId == id && g[revisionId].workspaceId == workspaceId
  }

  predicate ListedChunkOk(g: Graph, id: Id, documentId: Id, workspaceId: Id, chunkId: Id) {
    && IsKind(g, chunkId, ChunkKind)
    && g[chunkId].documentId == documentId
    && g[chunkId].revisionId == id
    && g[chunkId].workspaceId == workspaceId
  }

  /** Every record names a workspace, except workspaces and staging records. */
  predicate WorkspaceOk(g: Graph, body: Body) {
    body.Workspace? || body.Staging? || IsKind(g, body.workspaceId, WorkspaceKind)
  }

  /** What verifyPrivateRecordGraph demands of one record. */
  predicate RecordOk(g: Graph, id: Id, body: Body) {
    && WorkspaceOk(g, body)
    && match body
       case Document(ws, revisionIds, current, _, _, _) =>
         && current in revisionIds
         && (forall r :: r in revisionIds ==> ListedRevisionOk(g, id, ws, r))
       case Revision(doc, ws, _, chunkIds, _) =>
         && IsKind(g, doc, DocumentKind) && g[doc].workspaceId == ws
         && (forall c :: c in chunkIds ==> ListedChunkOk(g, id, doc, ws, c))
       case Chunk(doc, rev, ws, _) =>
         && IsKind(g, rev, RevisionKind) && IsKind(g, doc, DocumentKind)
         && g[rev].documentId == doc && g[rev].workspaceId == ws && g[doc].workspaceId == ws
       case Embedding(chunk, doc, rev, ws, _) =>
         && IsKind(g, chunk, ChunkKind)
         && g[chunk].documentId == doc && g[chunk].revisionId == rev && g[chunk].workspaceId == ws
       case _ => true
  }

  ghost predicate GraphRules(g: Graph) {
    forall id :: id in g ==> RecordOk(g, id, g[id])
  }

  ghost predicate GraphOk(records: seq<Record>) {
    DistinctIds(records) && GraphRules(GraphOf(records))
  }

  predicate IsWorkspace(g: Graph, id: Id) {
    id in g && g[id].Workspace?
  }

  predicate IsDocument(g: Graph, id: Id, workspaceId: Id) {
    id in g && g[id].Document? && g[id].workspaceId == workspaceId
  }

  predicate IsRevision(g: Graph, id: Id, documentId: Id, workspaceId: Id) {
    id in g && g[id].Revision? && g[id].documentId == documentId && g[id].workspaceId == workspaceId
  }

  predicate IsChunk(g: Graph, id: Id, documentId: Id, revisionId: Id, workspaceId: Id) {
    && id in g && g[id].Chunk? && g[id].documentId == documentId && g[id].revisionId == revisionId
    && g[id].workspaceId == workspaceId
  }

  /** What a record's own fields must point at. */
  ghost predicate Refers(g: Graph, id: Id, body: Body) {
    match body
    case Workspace(_, _, _) => true
    case Staging(_) => true
    case Document(ws, revisions, current, _, _, _) =>
      IsWorkspace(g, ws) && current in revisions && forall r :: r in revisions ==> IsRevision(g, r, id, ws)
    case Revision(doc, ws, _, chunks, _) =>
      IsWorkspace(g, ws) && IsDocument(g, doc, ws) && forall c :: c in chunks ==> IsChunk(g, c, doc, id, ws)
    case Chunk(doc, rev, ws, _) => IsWorkspace(g, ws) && IsDocument(g, doc, ws) && IsRevision(g, rev, doc, ws)
    case Embedding(chunk, doc, rev, ws, _) => IsWorkspace(g, ws) && IsChunk(g, chunk, doc, rev, ws)
    case Grant(ws, _, _, _) => IsWorkspace(g, ws)
    case Workflow(ws, _, _) => IsWorkspace(g, ws)
    case Receipt(ws, _, _, _) => IsWorkspace(g, ws)
    case Derived(ws, _, _) => IsWorkspace(g, ws)
  }

  /** The rules, kind by kind: everything is in a workspace that is there, and documents, revisions, chunks
      and embeddings point at each other within one workspace. */
  lemma GraphRulesExactly(g: Graph)
    ensures GraphRules(g) <==> forall id :: id in g ==> Refers(g, id, g[id])
  {
    forall id | id in g
      ensures RecordOk(g, id, g[id]) <==> Refers(g, id, g[id])
    {
      RefersExactly(g, id, g[id]);
    }
  }

  lemma RefersExactly(g: Graph, id: Id, body: Body)
    ensures RecordOk(g, id, body) <==> Refers(g, id, body)
  {
    match body {
      case Document(ws, revisions, _, _, _, _) =>
        assert forall r :: ListedRevisionOk(g, id, ws, r) <==> IsRevision(g, r, id, ws);
      case Revision(doc, ws, _, chunks, _) =>
        assert forall c :: ListedChunkOk(g, id, doc, ws, c) <==> IsChunk(g, c, doc, id, ws);
      case _ =>
    }
  }

  /** The first loop of verifyPrivateRecordGraph: the map by id, or nothing when an id repeats. */
  method IndexById(records: seq<Record>) returns (byId: Option<Graph>)
    ensures byId.Some? <==> DistinctIds(records)
    ensures byId.Some? ==> byId.value == GraphOf(records)
  {
    var g: Graph := map[];
    var i := 0;
    while i < |records| && records[i].id !in g
      invariant 0 <= i <= |records|
      invariant DistinctIds(records[..i])
      invariant g == GraphOf(records[..i])
    {
      FreshId(records, i);
      g := g[records[i].id := records[i].body];
      i := i + 1;
    }
    if i < |records| {
      GraphOfIds(records[..i], records[i].id);
      var j :| 0 <= j < i && records[..i][j].id == records[i].id;
      assert records[j].id == records[i].id;
      return None;
    }
    assert records[..i] == records;
    return Some(g);
  }

  lemma FreshId(records: seq<Record>, i: nat)
    requires i < |records| && DistinctIds(records[..i]) && records[i].id !in GraphOf(records[..i])
    ensures DistinctIds(records[..i + 1])
    ensures GraphOf(records[..i + 1]) == GraphOf(records[..i])[records[i].id := records[i].body]
  {
    assert records[..i + 1][..i] == records[..i];
    GraphOfIds(records[..i], records[i].id);
    forall j | 0 <= j < i
      ensures records[j].id != records[i].id
    {
      assert records[..i][j].id == records[j].id;
    }
    var extended := records[..i + 1];
    forall j, k | 0 <= j < k < |extended|
      ensures extended[j].id != extended[k].id
    {
      if k < i {
        assert records[..i][j] == records[j] && records[..i][k] == records[k];
      }
    }
  }

  /** verifyPrivateRecordGraph: the two loops accept exactly the record lists that satisfy the rules. */
  method VerifyPrivateRecordGraph(records: seq<Record>) returns (ok: bool)
    ensures ok <==> GraphOk(records)
  {
    var byId := IndexById(records);
    if byId.None? {
      return false;
    }
    ok := true;
    var i := 0;
    while i < |records| && ok
      invariant 0 <= i <= |records|
      invariant ok ==> forall j :: 0 <= j < i ==> RecordOk(byId.value, records[j].id, records[j].body)
      invariant !ok ==> exists j :: 0 <= j < |records| && !RecordOk(byId.value, records[j].id, records[j].body)
    {
      ok := CheckRecord(byId.value, records[i].id, records[i].body);
      i := i + 1;
    }
    GraphRulesByIndex(records);
  }

  lemma GraphRulesByIndex(records: seq<Record>)
    requires DistinctIds(records)
    ensures GraphRules(GraphOf(records)) <==>
            forall j :: 0 <= j < |records| ==> RecordOk(GraphOf(records), records[j].id, records[j].body)
  {
    var g := GraphOf(records);
    forall j | 0 <= j < |records|
      ensures records[j].id in g && g[records[j].id] == records[j].body
    {
      GraphOfAt(records, j);
    }
    forall id | id in g
      ensures exists j :: 0 <= j < |records| && records[j].id == id
    {
      GraphOfIds(records, id);
    }
  }

  /** The body of the second loop: one record against the map of all records. */
  method CheckRecord(g: Graph, id: Id, body: Body) returns (ok: bool)
    ensures ok <==> RecordOk(g, id, body)
  {
    if !WorkspaceOk(g, body) {
      return false;
    }
    match body {
      case Document(ws, revisionIds, current, _, _, _) =>
        if current !in revisionIds {
          return false;
        }
        for i := 0 to |revisionIds|
          invariant forall j :: 0 <= j < i ==> ListedRevisionOk(g, id, ws, revisionIds[j])
        {
          if !ListedRevisionOk(g, id, ws, revisionIds[i]) {
            return false;
          }
        }
        return true;
      case Revision(doc, ws, _, chunkIds, _) =>
        if !(IsKind(g, doc, DocumentKind) && g[doc].workspaceId == ws) {
          return false;
        }
        for i := 0 to |chunkIds|
          invariant forall j :: 0 <= j < i ==> ListedChunkOk(g, id, doc, ws, chunkIds[j])
        {
          if !ListedChunkOk(g, id, doc, ws, chunkIds[i]) {
            return false;
          }
        }
        return true;
      case Chunk(doc, rev, ws, _) =>
        return IsKind(g, rev, RevisionKind) && IsKind(g, doc, DocumentKind) &&
               g[rev].documentId == doc && g[rev].workspaceId == ws && g[doc].workspaceId == ws;
      case Embedding(chunk, doc, rev, ws, _) =>
        return IsKind(g, chunk, ChunkKind) &&
               g[chunk].documentId == doc && g[chunk].revisionId == rev && g[chunk].workspaceId == ws;
      case _ =>
        return true;
    }
  }
}
