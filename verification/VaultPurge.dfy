/** What the purge takes, told by the fields of the records alone (#purgeExpired, #deleteWorkspace and
    #deleteSource in packages/memory/src/vault.ts). */
module VaultPurge {
  import opened Prelude
  import opened Records
  import opened VaultGraph
  import opened Vault
  import opened VaultSafety

  // The rule.

  /** The record's own retention or expiry has passed. */
  predicate Past(body: Body, now: int) {
    match body
    case Workspace(until, _, _) => until.Some? && until.value <= now
    case Document(_, _, _, until, _, _) => until.Some? && until.value <= now
    case Receipt(_, _, until, _) => until.Some? && until.value <= now
    case Grant(_, _, expiresAt, _) => expiresAt <= now
    case _ => false
  }

  /** The workspace itself, or a record that names it. */
  predicate InWorkspace(id: Id, body: Body, w: Id) {
    id == w ||
    match body
    case Workspace(_, _, _) => false
    case Staging(_) => false
    case _ => body.workspaceId == w
  }

  /** The document itself, a part of it, or a record that names it as a source. */
  predicate OfDocument(id: Id, body: Body, d: Id) {
    id == d ||
    match body
    case Revision(doc, _, _, _, _) => doc == d
    case Chunk(doc, _, _, _) => doc == d
    case Embedding(_, doc, _, _, _) => doc == d
    case Grant(_, sourceIds, _, _) => d in sourceIds
    case Derived(_, sourceIds, _) => d in sourceIds
    case Workflow(_, sourceIds, _) => d in sourceIds
    case Receipt(_, sourceIds, _, _) => d in sourceIds
    case _ => false
  }

  predicate Share(left: seq<Id>, right: seq<Id>) {
    exists s :: s in left && s in right
  }

  /** A result, workflow or receipt that names one of these sources. */
  predicate DerivesFrom(body: Body, sourceIds: seq<Id>) {
    match body
    case Derived(_, own, _) => Share(own, sourceIds)
    case Workflow(_, own, _) => Share(own, sourceIds)
    case Receipt(_, own, _, _) => Share(own, sourceIds)
    case _ => false
  }

  /** The grant itself, or what derives from one of its sources. */
  predicate UnderGrant(id: Id, body: Body, r: Id, grant: Body) {
    id == r || (grant.Grant? && DerivesFrom(body, grant.sourceIds))
  }

  predicate ByWorkspace(g: Graph, now: int, id: Id)
    requires id in g
  {
    exists w :: w in g && g[w].Workspace? && Past(g[w], now) && InWorkspace(id, g[id], w)
  }

  /** An expired document that went with no expired workspace takes the record. */
  predicate ByDocument(g: Graph, now: int, id: Id)
    requires id in g
  {
    exists d :: d in g && g[d].Document? && Past(g[d], now) && !ByWorkspace(g, now, d) && OfDocument(id, g[id], d)
  }

  /** An expired grant that went with neither takes the record. */
  predicate ByGrant(g: Graph, now: int, id: Id)
    requires id in g
  {
    exists r :: && r in g && g[r].Grant? && Past(g[r], now) && !ByWorkspace(g, now, r) && !ByDocument(g, now, r)
                && UnderGrant(id, g[id], r, g[r])
  }

  /** What a purge at this time takes. */
  predicate Purged(g: Graph, now: int, id: Id)
    requires id in g
  {
    ByWorkspace(g, now, id) || ByDocument(g, now, id) || ByGrant(g, now, id) || (g[id].Receipt? && Past(g[id], now))
  }

  function Retained(g: Graph, now: int): Graph {
    map id | id in g && !Purged(g, now, id) :: g[id]
  }

  lemma PastIsPurged(g: Graph, now: int, id: Id)
    requires id in g && Past(g[id], now)
    ensures Purged(g, now, id)
  {
    match g[id] {
      case Workspace(_, _, _) => assert InWorkspace(id, g[id], id);
      case Document(_, _, _, _, _, _) => assert OfDocument(id, g[id], id);
      case Grant(_, _, _, _) => assert UnderGrant(id, g[id], id, g[id]);
      case Receipt(_, _, _, _) =>
    }
  }

  /** Afterwards nothing is left whose time has passed. */
  lemma NothingPastIsRetained(g: Graph, now: int)
    ensures forall id :: id in Retained(g, now) ==> !Past(g[id], now)
  {
    forall id | id in g && Past(g[id], now)
      ensures Purged(g, now, id)
    {
      PastIsPurged(g, now, id);
    }
  }

  /** The rule without its order: whatever belongs to anything whose time has passed. */
  predicate Claimed(g: Graph, now: int, id: Id)
    requires id in g
  {
    exists x :: x in g && Past(g[x], now) && Claims(g, x, id)
  }

  predicate Claims(g: Graph, x: Id, id: Id)
    requires id in g && x in g
  {
    match g[x]
    case Workspace(_, _, _) => InWorkspace(id, g[id], x)
    case Document(_, _, _, _, _, _) => OfDocument(id, g[id], x)
    case Grant(_, _, _, _) => UnderGrant(id, g[id], x, g[x])
    case _ => id == x
  }

  /** No document or grant whose time has passed goes with an earlier one. */
  predicate Apart(g: Graph, now: int) {
    && (forall d :: d in g && g[d].Document? && Past(g[d], now) ==> !ByWorkspace(g, now, d))
    && (forall r :: r in g && g[r].Grant? && Past(g[r], now) ==> !ByWorkspace(g, now, r) && !ByDocument(g, now, r))
  }

  /** The order does not matter for such records, and what is purged always has such a claim on it. */
  lemma PurgedIsClaimed(g: Graph, now: int, id: Id)
    requires id in g
    ensures Purged(g, now, id) ==> Claimed(g, now, id)
    ensures Apart(g, now) ==> (Purged(g, now, id) <==> Claimed(g, now, id))
  {
    if ByWorkspace(g, now, id) {
      var w :| w in g && g[w].Workspace? && Past(g[w], now) && InWorkspace(id, g[id], w);
      assert Claims(g, w, id);
    }
    if ByDocument(g, now, id) {
      var d :| d in g && g[d].Document? && Past(g[d], now) && !ByWorkspace(g, now, d) && OfDocument(id, g[id], d);
      assert Claims(g, d, id);
    }
    if ByGrant(g, now, id) {
      var r :| && r in g && g[r].Grant? && Past(g[r], now) && !ByWorkspace(g, now, r) && !ByDocument(g, now, r)
               && UnderGrant(id, g[id], r, g[r]);
      assert Claims(g, r, id);
    }
    assert Claims(g, id, id);
    if Claimed(g, now, id) && Apart(g, now) {
      var x :| x in g && Past(g[x], now) && Claims(g, x, id);
      ClaimTakes(g, now, x, id);
    }
  }

  lemma ClaimTakes(g: Graph, now: int, x: Id, id: Id)
    requires id in g && x in g && Past(g[x], now) && Claims(g, x, id) && Apart(g, now)
    ensures Purged(g, now, id)
  {
  }

  /** The order matters: an expired grant in an expired workspace goes with it, and its loop then no
      longer reaches what another workspace derived from the grant's source. */
  lemma GrantOfPurgedWorkspaceTakesNothing(now: int)
    ensures var g: Graph := map[1 := Workspace(Some(now), false, 0), 2 := Grant(1, [5], now, 0),
                                3 := Derived(4, [5], 0), 4 := Workspace(None, false, 0)];
            && Retained(g, now) == map[3 := Derived(4, [5], 0), 4 := Workspace(None, false, 0)]
            && Claimed(g, now, 3) && !Purged(g, now, 3)
  {
    var g: Graph := map[1 := Workspace(Some(now), false, 0), 2 := Grant(1, [5], now, 0),
                        3 := Derived(4, [5], 0), 4 := Workspace(None, false, 0)];
    assert InWorkspace(1, g[1], 1) && InWorkspace(2, g[2], 1);
    assert ByWorkspace(g, now, 1) && ByWorkspace(g, now, 2);
    assert !ByWorkspace(g, now, 3) && !ByWorkspace(g, now, 4);
    assert !ByDocument(g, now, 3) && !ByDocument(g, now, 4);
    assert 5 in [5];
    assert Claims(g, 2, 3);
    SameKeysAndValues(Retained(g, now), map[3 := Derived(4, [5], 0), 4 := Workspace(None, false, 0)]);
  }

  // The loops, one deletion at a time.

  predicate GoesWith(g: Graph, id: Id, ws: set<Id>, ds: set<Id>, rs: set<Id>)
    requires id in g
  {
    || (exists w :: w in ws && InWorkspace(id, g[id], w))
    || (exists d :: d in ds && OfDocument(id, g[id], d))
    || (exists r :: r in rs && r in g && UnderGrant(id, g[id], r, g[r]))
  }

  /** What these workspaces, documents and grants leave. */
  function Left(g: Graph, ws: set<Id>, ds: set<Id>, rs: set<Id>): Graph {
    map id | id in g && !GoesWith(g, id, ws, ds, rs) :: g[id]
  }

  function PastWorkspaces(g: Graph, now: int): set<Id> {
    set w | w in g && g[w].Workspace? && Past(g[w], now)
  }

  function PastDocuments(g: Graph, now: int): set<Id> {
    set d | d in g && g[d].Document? && Past(g[d], now) && !ByWorkspace(g, now, d)
  }

  function PastGrants(g: Graph, now: int): set<Id> {
    set r | r in g && g[r].Grant? && Past(g[r], now) && !ByWorkspace(g, now, r) && !ByDocument(g, now, r)
  }

  /** What stands when a loop has these ids still to visit. */
  ghost predicate InPhase(g: Graph, now: int, h: Graph, phase: Phase) {
    var ws, ds, rs := PastWorkspaces(g, now), PastDocuments(g, now), PastGrants(g, now);
    match phase
    case Workspaces(todo) => todo <= ws && h == Left(g, ws - todo, {}, {})
    case Documents(todo) => todo <= ds && h == Left(g, ws, ds - todo, {})
    case Grants(todo) => todo <= rs && h == Left(g, ws, ds, rs - todo)
    case Receipts => h == Left(g, ws, ds, rs)
  }

  /** A pending deletion of the purge, over the records as they stand. */
  ghost predicate PendingPurge(g: Graph, now: int, unlocking: bool, h: Graph, pc: Pc) {
    && pc.Deleting?
    && match pc.then_
       case Purging(phase, cutoff, u) => cutoff == now && u == unlocking && InPhase(g, now, h - pc.ids, phase)
       case Finish => !unlocking && h - pc.ids == Retained(g, now)
       case FinishUnlock => unlocking && h - pc.ids == Retained(g, now)
       case _ => false
  }

  lemma LeftSame(g: Graph, h: Graph, ws: set<Id>, ds: set<Id>, rs: set<Id>)
    requires h.Keys <= g.Keys && forall id :: id in h ==> h[id] == g[id]
    requires forall id :: id in g ==> (id in h <==> !GoesWith(g, id, ws, ds, rs))
    ensures h == Left(g, ws, ds, rs)
  {
    SameKeysAndValues(h, Left(g, ws, ds, rs));
  }

  lemma WorkspaceGoes(g: Graph, ws: set<Id>, w: Id)
    ensures Left(g, ws, {}, {}) - WorkspaceIds(Left(g, ws, {}, {}), w) == Left(g, ws + {w}, {}, {})
  {
    var h := Left(g, ws, {}, {});
    var h' := h - WorkspaceIds(h, w);
    forall id | id in g
      ensures id in h' <==> !GoesWith(g, id, ws + {w}, {}, {})
    {
      if id in h {
        assert id in WorkspaceIds(h, w) <==> InWorkspace(id, g[id], w);
      }
      if GoesWith(g, id, ws + {w}, {}, {}) {
        var x :| x in ws + {w} && InWorkspace(id, g[id], x);
        assert x in ws || x == w;
      }
      assert w in ws + {w};
    }
    LeftSame(g, h', ws + {w}, {}, {});
  }

  /** What #deleteSource collects are the records of the document. */
  lemma SourceIdsExactly(h: Graph, d: Id)
    requires SourceGraph(h) && IsKind(h, d, DocumentKind)
    ensures forall id :: id in h ==> (id in SourceIds(h, d) <==> OfDocument(id, h[id], d))
  {
    forall id | id in h
      ensures BelongsToSource(h, id, d) <==> OfDocument(id, h[id], d)
    {
      assert SourceOk(h, id, h[id]) && SourceOk(h, d, h[d]);
      if id in h[d].revisionIds {
        assert ListedRevisionOk(h, d, h[d].workspaceId, id);
      }
    }
  }

  lemma DocumentGoes(g: Graph, ws: set<Id>, ds: set<Id>, d: Id)
    requires SourceGraph(Left(g, ws, ds, {})) && IsKind(Left(g, ws, ds, {}), d, DocumentKind)
    ensures Left(g, ws, ds, {}) - SourceIds(Left(g, ws, ds, {}), d) == Left(g, ws, ds + {d}, {})
  {
    var h := Left(g, ws, ds, {});
    var h' := h - SourceIds(h, d);
    SourceIdsExactly(h, d);
    forall id | id in g
      ensures id in h' <==> !GoesWith(g, id, ws, ds + {d}, {})
    {
      if GoesWith(g, id, ws, ds + {d}, {}) && id in h {
        var x :| x in ds + {d} && OfDocument(id, g[id], x);
        assert x in ds || x == d;
      }
      assert d in ds + {d};
    }
    LeftSame(g, h', ws, ds + {d}, {});
  }

  lemma DependsIsDerives(body: Body, sourceIds: seq<Id>)
    ensures DependsOnSources(body, set s | s in sourceIds) <==> DerivesFrom(body, sourceIds)
  {
    var sources := set s | s in sourceIds;
    if DependsOnSources(body, sources) {
      var s :| s in body.sourceIds && s in sources;
      assert s in body.sourceIds && s in sourceIds;
    }
    if DerivesFrom(body, sourceIds) {
      var s :| s in body.sourceIds && s in sourceIds;
      assert s in body.sourceIds && s in sources;
    }
  }

  /** What the purge deletes with an expired grant. */
  function GrantIds(h: Graph, r: Id): set<Id> {
    {r} + DependentIds(h, SourcesOf(h, r))
  }

  lemma GrantGoes(g: Graph, ws: set<Id>, ds: set<Id>, rs: set<Id>, r: Id)
    requires IsKind(Left(g, ws, ds, rs), r, GrantKind)
    ensures Left(g, ws, ds, rs) - GrantIds(Left(g, ws, ds, rs), r) == Left(g, ws, ds, rs + {r})
  {
    var h: Graph := Left(g, ws, ds, rs);
    var ids: set<Id> := GrantIds(h, r);
    var h': Graph := h - ids;
    forall id | id in g
      ensures id in h' <==> !GoesWith(g, id, ws, ds, rs + {r})
    {
      if id in h {
        DependsIsDerives(h[id], h[r].sourceIds);
        assert id in DependentIds(h, SourcesOf(h, r)) <==> DerivesFrom(g[id], g[r].sourceIds);
      }
      if GoesWith(g, id, ws, ds, rs + {r}) && id in h {
        var x: Id :| x in rs + {r} && x in g && UnderGrant(id, g[id], x, g[x]);
        assert x in rs || x == r;
      }
      assert r in rs + {r};
    }
    LeftSame(g, h', ws, ds, rs + {r});
  }

  // From one loop to the next.

  lemma WorkspacesDone(g: Graph, now: int)
    ensures forall id :: id in g ==> (GoesWith(g, id, PastWorkspaces(g, now), {}, {}) <==> ByWorkspace(g, now, id))
  {
    forall id | id in g
      ensures GoesWith(g, id, PastWorkspaces(g, now), {}, {}) <==> ByWorkspace(g, now, id)
    {
      if ByWorkspace(g, now, id) {
        var w :| w in g && g[w].Workspace? && Past(g[w], now) && InWorkspace(id, g[id], w);
        assert w in PastWorkspaces(g, now);
      }
    }
  }

  lemma DocumentsDone(g: Graph, now: int)
    ensures forall id :: id in g ==>
              (GoesWith(g, id, PastWorkspaces(g, now), PastDocuments(g, now), {}) <==> ByWorkspace(g, now, id) || ByDocument(g, now, id))
  {
    WorkspacesDone(g, now);
    forall id | id in g
      ensures GoesWith(g, id, PastWorkspaces(g, now), PastDocuments(g, now), {}) <==> ByWorkspace(g, now, id) || ByDocument(g, now, id)
    {
      if ByWorkspace(g, now, id) {
        assert GoesWith(g, id, PastWorkspaces(g, now), {}, {});
      }
      if ByDocument(g, now, id) {
        var d :| d in g && g[d].Document? && Past(g[d], now) && !ByWorkspace(g, now, d) && OfDocument(id, g[id], d);
        assert d in PastDocuments(g, now);
      }
      if GoesWith(g, id, PastWorkspaces(g, now), PastDocuments(g, now), {}) && !GoesWith(g, id, PastWorkspaces(g, now), {}, {}) {
        var d :| d in PastDocuments(g, now) && OfDocument(id, g[id], d);
        assert ByDocument(g, now, id);
      }
    }
  }

  lemma GrantsDone(g: Graph, now: int)
    ensures forall id :: id in g ==>
              (GoesWith(g, id, PastWorkspaces(g, now), PastDocuments(g, now), PastGrants(g, now)) <==>
               ByWorkspace(g, now, id) || ByDocument(g, now, id) || ByGrant(g, now, id))
  {
    DocumentsDone(g, now);
    var ws, ds, rs := PastWorkspaces(g, now), PastDocuments(g, now), PastGrants(g, now);
    forall id | id in g
      ensures GoesWith(g, id, ws, ds, rs) <==> ByWorkspace(g, now, id) || ByDocument(g, now, id) || ByGrant(g, now, id)
    {
      assert GoesWith(g, id, ws, ds, {}) <==> ByWorkspace(g, now, id) || ByDocument(g, now, id);
      if ByGrant(g, now, id) {
        var r :| && r in g && g[r].Grant? && Past(g[r], now) && !ByWorkspace(g, now, r) && !ByDocument(g, now, r)
                 && UnderGrant(id, g[id], r, g[r]);
        assert r in rs;
      }
      if GoesWith(g, id, ws, ds, rs) && !GoesWith(g, id, ws, ds, {}) {
        var r :| r in rs && r in g && UnderGrant(id, g[id], r, g[r]);
        assert ByGrant(g, now, id);
      }
    }
  }

  lemma WorkspacesBegin(g: Graph, now: int)
    ensures InPhase(g, now, g, Workspaces(ExpiredWorkspaces(g, now)))
  {
    assert ExpiredWorkspaces(g, now) == PastWorkspaces(g, now);
    LeftSame(g, g, {}, {}, {});
  }

  lemma DocumentsFound(g: Graph, now: int)
    ensures ExpiredDocuments(Left(g, PastWorkspaces(g, now), {}, {}), now) == PastDocuments(g, now)
  {
    var h := Left(g, PastWorkspaces(g, now), {}, {});
    WorkspacesDone(g, now);
    forall d: Id
      ensures d in ExpiredDocuments(h, now) <==> d in PastDocuments(g, now)
    {
      assert d in g ==> (d in h <==> !ByWorkspace(g, now, d));
    }
  }

  lemma DocumentsBegin(g: Graph, now: int, h: Graph)
    requires InPhase(g, now, h, Workspaces({}))
    ensures InPhase(g, now, h, Documents(ExpiredDocuments(h, now)))
  {
    assert PastWorkspaces(g, now) - {} == PastWorkspaces(g, now);
    DocumentsFound(g, now);
    assert PastDocuments(g, now) - PastDocuments(g, now) == {};
  }

  lemma GrantsFound(g: Graph, now: int)
    ensures ExpiredGrants(Left(g, PastWorkspaces(g, now), PastDocuments(g, now), {}), now) == PastGrants(g, now)
  {
    var h := Left(g, PastWorkspaces(g, now), PastDocuments(g, now), {});
    DocumentsDone(g, now);
    forall r: Id
      ensures r in ExpiredGrants(h, now) <==> r in PastGrants(g, now)
    {
      assert r in g ==> (r in h <==> !ByWorkspace(g, now, r) && !ByDocument(g, now, r));
    }
  }

  lemma GrantsBegin(g: Graph, now: int, h: Graph)
    requires InPhase(g, now, h, Documents({}))
    ensures InPhase(g, now, h, Grants(ExpiredGrants(h, now)))
  {
    assert PastDocuments(g, now) - {} == PastDocuments(g, now);
    GrantsFound(g, now);
    assert PastGrants(g, now) - PastGrants(g, now) == {};
  }

  lemma ReceiptsBegin(g: Graph, now: int, h: Graph)
    requires InPhase(g, now, h, Grants({}))
    ensures InPhase(g, now, h, Receipts)
  {
    assert PastGrants(g, now) - {} == PastGrants(g, now);
  }

  lemma ReceiptsGo(g: Graph, now: int, h: Graph)
    requires InPhase(g, now, h, Receipts)
    ensures h - ExpiredReceipts(h, now) == Retained(g, now)
  {
    GrantsDone(g, now);
    SameKeysAndValues(h - ExpiredReceipts(h, now), Retained(g, now));
  }

  // The purge as the vault steps through it.

  lemma WorkspaceIsDeleted(g: Graph, now: int, h: Graph, todo: set<Id>, w: Id)
    requires InPhase(g, now, h, Workspaces(todo)) && w in todo
    ensures InPhase(g, now, h - WorkspaceIds(h, w), Workspaces(todo - {w}))
  {
    var ws := PastWorkspaces(g, now);
    WorkspaceGoes(g, ws - todo, w);
    assert ws - todo + {w} == ws - (todo - {w});
  }

  lemma DocumentIsDeleted(g: Graph, now: int, h: Graph, todo: set<Id>, d: Id)
    requires SourceGraph(h) && InPhase(g, now, h, Documents(todo)) && d in todo
    ensures InPhase(g, now, h - SourceIds(h, d), Documents(todo - {d}))
  {
    var ws, ds := PastWorkspaces(g, now), PastDocuments(g, now);
    DocumentStands(g, now, h, todo, d);
    DocumentGoes(g, ws, ds - todo, d);
    assert ds - todo + {d} == ds - (todo - {d});
  }

  /** No other document takes this one, and no expired workspace has. */
  lemma DocumentStands(g: Graph, now: int, h: Graph, todo: set<Id>, d: Id)
    requires InPhase(g, now, h, Documents(todo)) && d in todo
    ensures IsKind(h, d, DocumentKind)
  {
    WorkspacesDone(g, now);
    assert d in PastDocuments(g, now);
    assert !GoesWith(g, d, PastWorkspaces(g, now), {}, {});
  }

  lemma GrantIsDeleted(g: Graph, now: int, h: Graph, todo: set<Id>, r: Id)
    requires InPhase(g, now, h, Grants(todo)) && r in todo
    ensures InPhase(g, now, h - GrantIds(h, r), Grants(todo - {r}))
  {
    var ws, ds, rs := PastWorkspaces(g, now), PastDocuments(g, now), PastGrants(g, now);
    GrantStands(g, now, h, todo, r);
    GrantGoes(g, ws, ds, rs - todo, r);
    assert rs - todo + {r} == rs - (todo - {r});
  }

  lemma GrantStands(g: Graph, now: int, h: Graph, todo: set<Id>, r: Id)
    requires InPhase(g, now, h, Grants(todo)) && r in todo
    ensures IsKind(h, r, GrantKind)
  {
    DocumentsDone(g, now);
    assert r in PastGrants(g, now);
    assert !GoesWith(g, r, PastWorkspaces(g, now), PastDocuments(g, now), {});
  }

  ghost predicate StepOk(g: Graph, now: int, h: Graph, unlocking: bool, outcome: Outcome) {
    outcome.Disabled? || (outcome.Go? && PendingPurge(g, now, unlocking, h, outcome.pc))
  }

  lemma ReceiptsStep(g: Graph, now: int, h: Graph, unlocking: bool, c: Choice)
    requires InPhase(g, now, h, Receipts)
    ensures StepOk(g, now, h, unlocking, NextPurge(h, Receipts, now, unlocking, c))
  {
    ReceiptsGo(g, now, h);
  }

  lemma GrantsStep(g: Graph, now: int, h: Graph, todo: set<Id>, unlocking: bool, c: Choice)
    requires InPhase(g, now, h, Grants(todo))
    ensures StepOk(g, now, h, unlocking, NextPurge(h, Grants(todo), now, unlocking, c))
  {
    if todo == {} {
      ReceiptsBegin(g, now, h);
      ReceiptsStep(g, now, h, unlocking, c);
    } else if c.next in todo {
      GrantIsDeleted(g, now, h, todo, c.next);
    }
  }

  lemma DocumentsStep(g: Graph, now: int, h: Graph, todo: set<Id>, unlocking: bool, c: Choice)
    requires SourceGraph(h) && InPhase(g, now, h, Documents(todo))
    ensures StepOk(g, now, h, unlocking, NextPurge(h, Documents(todo), now, unlocking, c))
  {
    if todo == {} {
      GrantsBegin(g, now, h);
      GrantsStep(g, now, h, ExpiredGrants(h, now), unlocking, c);
    } else if c.next in todo {
      DocumentIsDeleted(g, now, h, todo, c.next);
    }
  }

  lemma WorkspacesStep(g: Graph, now: int, h: Graph, todo: set<Id>, unlocking: bool, c: Choice)
    requires SourceGraph(h) && InPhase(g, now, h, Workspaces(todo))
    ensures StepOk(g, now, h, unlocking, NextPurge(h, Workspaces(todo), now, unlocking, c))
  {
    if todo == {} {
      DocumentsBegin(g, now, h);
      DocumentsStep(g, now, h, ExpiredDocuments(h, now), unlocking, c);
    } else if c.next in todo {
      WorkspaceIsDeleted(g, now, h, todo, c.next);
    }
  }

  /** Each step of the purge leaves what the rule says is left by then. */
  lemma PurgeStep(g: Graph, now: int, h: Graph, phase: Phase, unlocking: bool, c: Choice)
    requires SourceGraph(h) && InPhase(g, now, h, phase)
    ensures StepOk(g, now, h, unlocking, NextPurge(h, phase, now, unlocking, c))
  {
    match phase {
      case Workspaces(todo) => WorkspacesStep(g, now, h, todo, unlocking, c);
      case Documents(todo) => DocumentsStep(g, now, h, todo, unlocking, c);
      case Grants(todo) => GrantsStep(g, now, h, todo, unlocking, c);
      case Receipts => ReceiptsStep(g, now, h, unlocking, c);
    }
  }
}
