/** Ingests, sources and workspaces come and go as wholes, over every run of the vault. */
module VaultWholeness {
  import opened Prelude
  import opened Records
  import opened Storage
  import opened VaultGraph
  import opened VaultStore
  import opened Vault
  import opened VaultSafety
  import Migration

  // What a whole change is.

  /** What may be lost at once: standalone records, a document with everything derived from it, or a
      workspace with everything in it. */
  ghost predicate WholeLoss(g: Graph, ids: set<Id>) {
    || (forall id :: id in ids && id in g ==> Standalone(g[id]))
    || (exists d :: IsKind(g, d, DocumentKind) && ids == SourceIds(g, d))
    || (exists ws :: IsKind(g, ws, WorkspaceKind) && ids == WorkspaceIds(g, ws))
  }

  /** The ways the records can change: not at all, by one whole ingest, by one workspace or standalone
      record, or by a whole loss. */
  ghost predicate WholeChange(g: Graph, h: Graph) {
    || h == g
    || (exists plan: Plan :: plan.Ready(g) && h == Extend(g, plan.Unit()))
    || (exists id: Id, body: Body :: AddsOne(g, h, id, body))
    || (exists ids: set<Id> :: LosesWhole(g, h, ids))
  }

  ghost predicate AddsOne(g: Graph, h: Graph, id: Id, body: Body) {
    (body.Workspace? || Standalone(body)) && (id in g ==> Standalone(g[id])) && h == g[id := body]
  }

  ghost predicate LosesWhole(g: Graph, h: Graph, ids: set<Id>) {
    WholeLoss(g, ids) && h == g - ids
  }

  lemma CoreReady(g: Graph, plan: Plan)
    requires plan.Ready(g)
    ensures plan.Ready(Core(g))
  {
    assert plan.workspaceId in Core(g);
  }

  lemma CoreOfIngest(g: Graph, plan: Plan)
    requires plan.Ready(g)
    ensures plan.Ready(Core(g)) && Core(Extend(g, plan.Unit())) == Extend(Core(g), plan.Unit())
  {
    CoreReady(g, plan);
    var h, k := Extend(g, plan.Unit()), Extend(Core(g), plan.Unit());
    IngestedGraph(g, plan);
    IngestedGraph(Core(g), plan);
    forall id: Id
      ensures id in Core(h) <==> id in k
      ensures id in k ==> Core(h)[id] == k[id]
    {
      CoreOfIngestAt(g, h, k, plan, id);
    }
    SameKeysAndValues(Core(h), k);
  }

  lemma CoreOfIngestAt(g: Graph, h: Graph, k: Graph, plan: Plan, id: Id)
    requires plan.Ready(g) && IsIngested(g, h, plan)
    requires plan.Ready(Core(g)) && IsIngested(Core(g), k, plan)
    ensures id in Core(h) <==> id in k
    ensures id in k ==> id in h && k[id] == h[id]
  {
    if id == plan.documentId || id in plan.StagedIds() {
      IngestedKind(g, h, plan, id);
      SameIngested(g, h, Core(g), k, plan, id);
    }
  }

  lemma SameIngested(g: Graph, h: Graph, g': Graph, h': Graph, plan: Plan, id: Id)
    requires plan.Ready(g) && IsIngested(g, h, plan) && plan.Ready(g') && IsIngested(g', h', plan)
    requires id == plan.documentId || id in plan.StagedIds()
    ensures id in h && id in h' && h[id] == h'[id]
  {
    if id in plan.embeddingIds && id != plan.documentId && id != plan.revisionId && id !in plan.chunkIds {
      var i :| 0 <= i < |plan.embeddingIds| && plan.embeddingIds[i] == id;
    }
  }

  lemma WriteIsWhole(g: Graph, added: seq<(Id, Body)>, then_: Then)
    requires WriteOk(g, added, then_)
    ensures WholeChange(Core(g), Core(Extend(g, added)))
  {
    match then_ {
      case CommitIngest(plan) =>
        ExtendOne(g, plan.stagingId, Staging(plan.StagedIds()));
        assert Core(Extend(g, added)) == Core(g);
      case CleanStaging(plan) =>
        CoreOfIngest(g, plan);
      case _ =>
        var (id, body) := added[0];
        assert added == [(id, body)];
        ExtendOne(g, id, body);
        assert Core(Extend(g, added)) == Core(g)[id := body];
        if id in g && g[id] == body {
          assert Core(Extend(g, added)) == Core(g);
        } else {
          assert AddsOne(Core(g), Core(Extend(g, added)), id, body);
        }
    }
  }

  // What a pending deletion takes.

  /** deleteWorkspace, which does not check the kind of the id it is given, was given an embedding's. */
  ghost predicate TakesEmbeddingAlone(g: Graph, job: Job) {
    && job.pc.Deleting? && job.pc.then_.Finish? && job.operation.DeleteWorkspace?
    && IsKind(g, job.operation.workspaceId, EmbeddingKind) && job.pc.ids == WorkspaceIds(g, job.operation.workspaceId)
  }

  /** Only staging records and what is left of a broken ingest go, or a whole. */
  ghost predicate TakesWhole(g: Graph, ids: set<Id>) {
    Core(g - ids) == Core(g) || (Stagings(g) == {} && WholeLoss(g, ids))
  }

  ghost predicate PcTakes(g: Graph, job: Job, pc: Pc) {
    pc.Deleting? ==> TakesWhole(g, pc.ids) || TakesEmbeddingAlone(g, job.(pc := pc))
  }

  ghost predicate OutcomeTakes(g: Graph, job: Job, outcome: Outcome) {
    outcome.Go? ==> PcTakes(g, job, outcome.pc)
  }

  ghost predicate HeadTakes(w: World) {
    w.queue != [] ==> PcTakes(Plaintext(w), w.queue[0], w.queue[0].pc)
  }

  lemma PurgeTakes(g: Graph, job: Job, phase: Phase, cutoff: int, unlocking: bool, c: Choice)
    requires SourceGraph(g) && Stagings(g) == {} && PhaseOk(g, phase)
    ensures OutcomeTakes(g, job, NextPurge(g, phase, cutoff, unlocking, c))
    decreases match phase case Workspaces(_) => 3 case Documents(_) => 2 case Grants(_) => 1 case Receipts => 0
  {
    match phase {
      case Workspaces(todo) =>
        if todo == {} {
          PurgeTakes(g, job, Documents(ExpiredDocuments(g, cutoff)), cutoff, unlocking, c);
        } else if c.next in todo {
          WorkspaceGoesWhole(g, c.next);
        }
      case Documents(todo) =>
        if todo == {} {
          PurgeTakes(g, job, Grants(ExpiredGrants(g, cutoff)), cutoff, unlocking, c);
        } else {
          SourceGoesWhole(g, c.next);
        }
      case Grants(todo) =>
        if todo == {} {
          PurgeTakes(g, job, Receipts, cutoff, unlocking, c);
        }
      case Receipts =>
    }
  }

  lemma SourceGoesWhole(g: Graph, d: Id)
    ensures WholeLoss(g, SourceIds(g, d))
  {
    if IsKind(g, d, DocumentKind) {
      assert SourceIds(g, d) == SourceIds(g, d);
    }
  }

  /** What goes with an id is a workspace with everything in it, or standalone, unless the id is that
      of a part of an ingest. */
  lemma WorkspaceGoesWhole(g: Graph, ws: Id)
    requires SourceGraph(g) && !HeldByOthers(g, ws) && !IsKind(g, ws, EmbeddingKind)
    ensures WholeLoss(g, WorkspaceIds(g, ws))
  {
    var ids := WorkspaceIds(g, ws);
    if !IsKind(g, ws, WorkspaceKind) {
      forall id | id in ids && id in g
        ensures Standalone(g[id])
      {
        assert SourceOk(g, id, g[id]);
      }
    }
  }

  lemma RecoveryTakes(g: Graph, job: Job, stages: set<Id>, purges: bool, c: Choice)
    requires Sound(g) && Stagings(g) == stages
    ensures OutcomeTakes(g, job, NextRecovery(g, stages, purges, c))
  {
    if stages == {} {
      if purges {
        PurgeTakes(g, job, Workspaces(ExpiredWorkspaces(g, c.now)), c.now, true, c);
      }
    } else if c.next in stages {
      RecoverOne(g, c.next);
    }
  }

  lemma ContinueTakes(g: Graph, job: Job, then_: Then, c: Choice)
    requires Settled(g, then_)
    ensures OutcomeTakes(g, job, Continue(g, job, then_, c))
  {
    match then_ {
      case Recovering(stages, purges) => RecoveryTakes(g, job, stages, purges, c);
      case Purging(phase, cutoff, unlocking) => PurgeTakes(g, job, phase, cutoff, unlocking, c);
      case CommitIngest(plan) => CompensationOk(g, plan);
      case CleanStaging(plan) =>
        assert plan.stagingId in Stagings(g);
        RecoverOne(g, plan.stagingId);
      case _ =>
    }
  }

  lemma BeginTakes(m: Memory, job: Job, c: Choice)
    requires m.key.Some? ==> SourceGraph(m.records) && Stagings(m.records) == {}
    requires job.operation.DeleteWorkspace? ==> !HeldByOthers(m.records, job.operation.workspaceId)
    ensures m.key.Some? ==> OutcomeTakes(m.records, job, Begin(m, job, c))
    ensures m.key.None? ==> var outcome := Begin(m, job, c); outcome.Go? ==> !outcome.pc.Deleting?
  {
    var g := m.records;
    if m.key.Some? {
      match job.operation {
        case DeleteSource(documentId) => SourceGoesWhole(g, documentId);
        case DeleteWorkspace(workspaceId) =>
          if !IsKind(g, workspaceId, EmbeddingKind) {
            WorkspaceGoesWhole(g, workspaceId);
          }
        case PurgeExpired => PurgeTakes(g, job, Workspaces(ExpiredWorkspaces(g, c.now)), c.now, false, c);
        case _ =>
      }
    }
  }

  // Every run.

  /** The outcome of a step is carried out on the very records it was decided on. */
  lemma ResolveTakes(w: World, outcome: Outcome)
    requires w.queue != [] && OutcomeTakes(Plaintext(w), w.queue[0], outcome)
    requires forall i :: 0 < i < |w.queue| ==> w.queue[i].pc == Queued
    ensures !outcome.Disabled? ==> HeadTakes(Resolve(w, w.queue[0], outcome))
    ensures HeadTakes(Abandon(w))
  {
  }

  lemma QueuedTakes(w: World, c: Choice)
    requires Inv(w) && w.queue != [] && w.queue[0].pc.Queued? && !Misused(w, Advance(c))
    ensures HeadTakes(Step(w, c))
  {
    var job := w.queue[0];
    ResolveTakes(w, Disabled);
    if job.epoch == w.memory.epoch && !job.operation.DeleteVault? {
      BeginTakes(w.memory, job, c);
      ResolveTakes(w, Begin(w.memory, job, c));
    }
  }

  lemma LoadedTakes(w: World, memory: Memory, purges: bool, c: Choice)
    requires w.queue != [] && memory.records == Plaintext(w) && Sound(Plaintext(w))
    requires forall i :: 0 < i < |w.queue| ==> w.queue[i].pc == Queued
    ensures var outcome := NextRecovery(memory.records, Stagings(memory.records), purges, c);
            !outcome.Disabled? ==> HeadTakes(Resolve(w.(memory := memory), w.queue[0], outcome))
    ensures HeadTakes(Abandon(w))
  {
    RecoveryTakes(memory.records, w.queue[0], Stagings(memory.records), purges, c);
    ResolveTakes(w.(memory := memory), NextRecovery(memory.records, Stagings(memory.records), purges, c));
  }

  lemma LoadingTakes(w: World, c: Choice)
    requires Inv(w) && w.queue != [] && w.queue[0].pc.Loading?
    ensures HeadTakes(Step(w, c))
  {
    LoadingIsViewing(KeyOf(w), w.disk);
    LoadedTakes(w, Unlocked(w.memory, KeyOf(w), Migration.DecryptAll(KeyOf(w), w.disk).value), true, c);
  }

  lemma ReplacingTakes(w: World, c: Choice)
    requires Inv(w) && w.queue != [] && w.queue[0].pc.Replacing?
    ensures HeadTakes(Step(w, c))
  {
    var pc := w.queue[0].pc;
    LoadingIsViewing(pc.wrapping.dataKey, pc.records);
    LoadedTakes(w.(vault := Some(pc.wrapping), disk := pc.records), Unlocked(w.memory, pc.wrapping.dataKey, pc.loaded), false, c);
  }

  lemma WriteTakes(w: World, stored: World, memory: Memory, c: Choice)
    requires Inv(w) && w.queue != [] && (w.queue[0].pc.Putting? || w.queue[0].pc.Deleting?)
    requires stored == w.(disk := stored.disk) && Settled(Plaintext(stored), w.queue[0].pc.then_)
    requires w.memory.key.Some? ==> memory.records == Plaintext(stored)
    ensures HeadTakes(Abandon(stored))
    ensures w.queue[0].epoch == w.memory.epoch ==>
              var outcome := Continue(memory.records, w.queue[0], w.queue[0].pc.then_, c);
              outcome.Disabled? || HeadTakes(Resolve(stored.(memory := memory), w.queue[0], outcome))
  {
    var job := w.queue[0];
    ResolveTakes(stored, Disabled);
    if job.epoch == w.memory.epoch {
      ContinueTakes(memory.records, job, job.pc.then_, c);
      ResolveTakes(stored.(memory := memory), Continue(memory.records, job, job.pc.then_, c));
    }
  }

  lemma PuttingTakes(w: World, c: Choice)
    requires Inv(w) && w.queue != [] && w.queue[0].pc.Putting?
    ensures HeadTakes(Step(w, c))
  {
    var pc := w.queue[0].pc;
    StoringIsExtending(KeyOf(w), w.disk, pc.added, c.seeds);
    WriteTakes(w, w.(disk := PutAll(w.disk, Sealing(KeyOf(w), pc.added, c.seeds))), Saved(w.memory, pc.added), c);
  }

  lemma DeletingTakes(w: World, c: Choice)
    requires Inv(w) && w.queue != [] && w.queue[0].pc.Deleting? && HeadTakes(w)
    ensures HeadTakes(Step(w, c))
  {
    var pc := w.queue[0].pc;
    RemovingIsForgetting(KeyOf(w), w.disk, pc.ids);
    WriteTakes(w, w.(disk := Without(w.disk, pc.ids)), Deleted(w.memory, pc.ids), c);
  }

  lemma HeaderTakes(w: World, c: Choice)
    requires w.queue != [] && forall i :: 0 < i < |w.queue| ==> w.queue[i].pc == Queued
    requires var pc := w.queue[0].pc;
             pc.Checking? || pc.Deriving? || pc.Opening? || pc.Rewrapping? || pc.Rewriting? || pc.Clearing?
    ensures HeadTakes(Step(w, c))
  {
  }

  lemma EncryptingTakes(w: World, c: Choice)
    requires w.queue != [] && forall i :: 0 < i < |w.queue| ==> w.queue[i].pc == Queued
    requires w.queue[0].pc.Preparing? || w.queue[0].pc.Encrypting?
    ensures HeadTakes(Step(w, c))
  {
  }

  lemma EventTakes(w: World, e: Event)
    requires Inv(w) && HeadTakes(w) && !Misused(w, e)
    ensures HeadTakes(Apply(w, e))
  {
    if e.Advance? && w.queue != [] {
      var pc := w.queue[0].pc;
      if pc.Queued? {
        QueuedTakes(w, e.choice);
      } else if pc.Loading? {
        LoadingTakes(w, e.choice);
      } else if pc.Replacing? {
        ReplacingTakes(w, e.choice);
      } else if pc.Putting? {
        PuttingTakes(w, e.choice);
      } else if pc.Deleting? {
        DeletingTakes(w, e.choice);
      } else if pc.Preparing? || pc.Encrypting? {
        EncryptingTakes(w, e.choice);
      } else {
        HeaderTakes(w, e.choice);
      }
    }
  }

  lemma {:induction false} RunTakes(events: seq<Event>)
    requires ProperRun(NoVault, events)
    ensures HeadTakes(Run(NoVault, events))
  {
    if events != [] {
      var before := events[..|events| - 1];
      RunTakes(before);
      VaultStaysSound(before);
      EventTakes(Run(NoVault, before), events[|events| - 1]);
    }
  }

  // What reaches the store.

  lemma OtherStepsLeaveTheStore(w: World, c: Choice)
    requires w.queue != []
    requires var pc := w.queue[0].pc; !pc.Putting? && !pc.Deleting? && !pc.Replacing? && !pc.Clearing?
    requires w.queue[0].pc.Rewriting? ==> w.vault.Some? && w.queue[0].pc.wrapping.dataKey == KeyOf(w)
    ensures Step(w, c).disk == w.disk && KeyOf(Step(w, c)) == KeyOf(w)
  {
  }

  lemma WritesReachTheStore(w: World, c: Choice)
    requires w.queue != [] && (w.queue[0].pc.Putting? || w.queue[0].pc.Deleting?)
    ensures var pc := w.queue[0].pc;
            var w' := Step(w, c);
            && w'.vault == w.vault
            && (w'.disk == w.disk
                || (pc.Putting? && w'.disk == PutAll(w.disk, Sealing(KeyOf(w), pc.added, c.seeds)))
                || (pc.Deleting? && w'.disk == Without(w.disk, pc.ids)))
  {
  }

  /** An import, and the creation of a vault, put their own records in the place of all others. */
  lemma ReplacingBringsItsRecords(w: World, c: Choice)
    requires Inv(w) && w.queue != [] && w.queue[0].pc.Replacing?
    ensures var pc := w.queue[0].pc;
            Step(w, c) == w || Plaintext(Step(w, c)) == View(pc.wrapping.dataKey, pc.records)
  {
  }

  lemma TakingIsWhole(g: Graph, ids: set<Id>)
    requires TakesWhole(g, ids)
    ensures WholeChange(Core(g), Core(g - ids))
  {
    if Core(g - ids) != Core(g) {
      CoreWithoutStages(g);
      DeletingNext(g, ids);
      CoreWithoutStages(g - ids);
      assert LosesWhole(Core(g), Core(g - ids), ids);
    }
  }

  lemma CoreWithoutStages(g: Graph)
    requires Stagings(g) == {}
    ensures Core(g) == g
  {
    assert forall id :: id in g ==> id !in Stagings(g);
  }

  /** An embedding that goes without its chunk is not a whole. */
  lemma EmbeddingIsNoWhole(g: Graph, h: Graph, e: Id)
    requires SourceGraph(g) && IsKind(g, e, EmbeddingKind) && h.Keys <= g.Keys
    requires e !in h && g[e].chunkId in h && g[e].documentId in h && g[e].workspaceId in h
    ensures !WholeChange(g, h)
  {
    if plan: Plan :| plan.Ready(g) && h == Extend(g, plan.Unit()) {
      IngestedOthers(g, plan);
    }
    if ids: set<Id> :| LosesWhole(g, h, ids) {
      assert SourceOk(g, e, g[e]);
      LossTakesMore(g, ids, e);
    }
  }

  lemma LossTakesMore(g: Graph, ids: set<Id>, e: Id)
    requires SourceGraph(g) && IsKind(g, e, EmbeddingKind) && WholeLoss(g, ids) && e in ids
    ensures g[e].chunkId in ids || g[e].documentId in ids || g[e].workspaceId in ids
  {
    assert SourceOk(g, e, g[e]);
    var chunk := g[e].chunkId;
    assert SourceOk(g, chunk, g[chunk]);
    if d :| IsKind(g, d, DocumentKind) && ids == SourceIds(g, d) {
      assert BelongsToSource(g, e, d);
      assert SourceOk(g, d, g[d]);
      assert e in g[d].revisionIds ==> ListedRevisionOk(g, d, g[d].workspaceId, e);
    }
  }

  /** deleteWorkspace with the id of an embedding takes it from its chunk. */
  lemma EmbeddingGoesAlone(g: Graph, e: Id)
    requires SourceGraph(g) && IsKind(g, e, EmbeddingKind)
    ensures !WholeChange(Core(g), Core(g - WorkspaceIds(g, e)))
  {
    EmbeddingLeavesItsChunk(g, e);
    CoreIsSourceGraph(g);
    EmbeddingIsNoWhole(Core(g), Core(g - WorkspaceIds(g, e)), e);
  }

  lemma EmbeddingLeavesItsChunk(g: Graph, e: Id)
    requires SourceGraph(g) && IsKind(g, e, EmbeddingKind)
    ensures var h := Core(g - WorkspaceIds(g, e));
            e !in h && g[e].chunkId in h && g[e].documentId in h && g[e].workspaceId in h
  {
    var chunk := g[e].chunkId;
    assert SourceOk(g, e, g[e]);
    assert SourceOk(g, chunk, g[chunk]);
    assert SourceOk(g, g[e].documentId, g[g[e].documentId]);
  }

  lemma CoreIsSourceGraph(g: Graph)
    requires SourceGraph(g)
    ensures SourceGraph(Core(g))
  {
    var staging := Stagings(g);
    DeletingStandaloneKeepsGraph(g, staging);
    assert Core(g) == g - staging;
  }

  /** The step writes the store anew: an import or a creation, or the deletion of the vault. */
  predicate Overwrites(w: World, e: Event) {
    e.Advance? && w.queue != [] && (w.queue[0].pc.Replacing? || w.queue[0].pc.Clearing?)
  }

  /** The step is deleteWorkspace deleting an embedding. */
  ghost predicate Misdirected(w: World, e: Event) {
    e.Advance? && w.queue != [] && TakesEmbeddingAlone(Plaintext(w), w.queue[0])
  }

  lemma DeletingReaches(w: World, c: Choice)
    requires Inv(w) && w.queue != [] && w.queue[0].pc.Deleting?
    ensures var g, h := Plaintext(w), Plaintext(Step(w, c)); h == g || h == g - w.queue[0].pc.ids
    ensures w.queue[0].pc.then_.Finish? ==> Plaintext(Step(w, c)) == Plaintext(w) - w.queue[0].pc.ids
  {
    WritesReachTheStore(w, c);
    RemovingIsForgetting(KeyOf(w), w.disk, w.queue[0].pc.ids);
  }

  lemma PuttingReaches(w: World, c: Choice)
    requires Inv(w) && w.queue != [] && w.queue[0].pc.Putting?
    ensures WholeChange(Core(Plaintext(w)), Core(Plaintext(Step(w, c))))
  {
    var pc := w.queue[0].pc;
    WritesReachTheStore(w, c);
    StoringIsExtending(KeyOf(w), w.disk, pc.added, c.seeds);
    WriteIsWhole(Plaintext(w), pc.added, pc.then_);
  }

  lemma EventIsWhole(w: World, e: Event)
    requires Inv(w) && HeadTakes(w) && !Overwrites(w, e)
    ensures WholeChange(Core(Plaintext(w)), Core(Plaintext(Apply(w, e)))) <==> !Misdirected(w, e)
  {
    if e.Advance? && w.queue != [] {
      var g, pc := Plaintext(w), w.queue[0].pc;
      if pc.Putting? {
        PuttingReaches(w, e.choice);
      } else if pc.Deleting? {
        DeletingReaches(w, e.choice);
        if Misdirected(w, e) {
          EmbeddingGoesAlone(g, w.queue[0].operation.workspaceId);
        } else {
          TakingIsWhole(g, pc.ids);
        }
      } else {
        OtherStepsLeaveTheStore(w, e.choice);
      }
    }
  }

  /** Ingest is all or nothing: in every run from no vault at all, at every step, a lock, a crash and a
      recovery included, the records gain a whole ingest or one other record, or lose standalone
      records, a whole document or a whole workspace, and never a part of an ingest, exactly unless
      deleteWorkspace deletes an embedding by its id. Only an import, a creation and the deletion of the
      vault put other records in their place. Neither the recovery at unlock nor the compensation of a
      cancelled ingest touches any of them. */
  lemma IngestIsAllOrNothing(events: seq<Event>, e: Event)
    requires ProperRun(NoVault, events)
    ensures var w := Run(NoVault, events);
            !Overwrites(w, e) ==>
              (WholeChange(Core(Plaintext(w)), Core(Plaintext(Apply(w, e)))) <==> !Misdirected(w, e))
    ensures var w := Run(NoVault, events);
            e.Advance? && w.queue != [] && w.queue[0].pc.Clearing? ==> Plaintext(Apply(w, e)) == map[]
    ensures var w := Run(NoVault, events);
            e.Advance? && w.queue != [] && w.queue[0].pc.Replacing? ==>
              Apply(w, e) == w || Plaintext(Apply(w, e)) == View(w.queue[0].pc.wrapping.dataKey, w.queue[0].pc.records)
    ensures var w := Run(NoVault, events);
            e.Advance? && w.queue != [] && w.queue[0].pc.Deleting?
            && (w.queue[0].pc.then_.Recovering? || w.queue[0].pc.then_.RestoreExisting?)
            ==> Core(Plaintext(Apply(w, e))) == Core(Plaintext(w))
  {
    VaultStaysSound(events);
    RunTakes(events);
    var w := Run(NoVault, events);
    if !Overwrites(w, e) {
      EventIsWhole(w, e);
    }
    if e.Advance? && w.queue != [] {
      if w.queue[0].pc.Deleting? {
        DeletingReaches(w, e.choice);
      } else if w.queue[0].pc.Replacing? {
        ReplacingBringsItsRecords(w, e.choice);
      }
    }
  }

  /** And any unlocked vault at rest can be made to do it, whichever embedding it holds. */
  lemma EmbeddingCanBeDeleted(w: World, e: Id, c: Choice)
    requires Inv(w) && w.queue == [] && w.memory.key.Some? && IsKind(w.memory.records, e, EmbeddingKind)
    ensures var deleting := Apply(Apply(w, Request(DeleteWorkspace(e))), Advance(c));
            && Misdirected(deleting, Advance(c)) && !Misused(Apply(w, Request(DeleteWorkspace(e))), Advance(c))
            && Plaintext(Apply(deleting, Advance(c))) == Plaintext(w) - WorkspaceIds(Plaintext(w), e)
            && !WholeChange(Core(Plaintext(w)), Core(Plaintext(Apply(deleting, Advance(c)))))
  {
    var ids := WorkspaceIds(Plaintext(w), e);
    var requested := Apply(w, Request(DeleteWorkspace(e)));
    var deleting := Apply(requested, Advance(c));
    assert deleting == w.(queue := [Job(DeleteWorkspace(e), w.memory.epoch, Deleting(ids, Finish), false)]);
    EventKeepsInv(w, Request(DeleteWorkspace(e)));
    EventKeepsInv(requested, Advance(c));
    DeletingReaches(deleting, c);
    EmbeddingGoesAlone(Plaintext(w), e);
  }
}
