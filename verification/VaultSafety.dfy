/** What every run of the vault keeps: the record graph, whole ingests, and the lock. */
module VaultSafety {
  import opened Prelude
  import opened Records
  import opened Storage
  import opened VaultGraph
  import opened VaultStore
  import opened Vault

  // One write at a time.

  lemma ExtendOne(g: Graph, id: Id, body: Body)
    ensures Extend(g, [(id, body)]) == g[id := body]
  {
    var added := [(id, body)];
    assert added[..|added| - 1] == [];
  }

  lemma SameKeysAndValues(g: Graph, h: Graph)
    requires forall id: Id :: id in g <==> id in h
    requires forall id: Id :: id in g ==> g[id] == h[id]
    ensures g == h
  {
  }

  lemma SoundWithoutStages(g: Graph)
    requires SourceGraph(g) && Stagings(g) == {}
    ensures Sound(g)
  {
    assert forall s :: s in g && g[s].Staging? ==> s in Stagings(g);
  }

  lemma DeletingNext(g: Graph, ids: set<Id>)
    requires Stagings(g) == {}
    ensures Stagings(g - ids) == {}
  {
    assert Stagings(g - ids) <= Stagings(g);
  }

  lemma PurgeOk(g: Graph, phase: Phase, cutoff: int, unlocking: bool, c: Choice)
    requires Sound(g) && Stagings(g) == {} && PhaseOk(g, phase)
    ensures var outcome := NextPurge(g, phase, cutoff, unlocking, c);
            outcome.Disabled? || (outcome.Go? && outcome.pc.Deleting? && PcOk(g, outcome.pc, true))
    decreases match phase case Workspaces(_) => 3 case Documents(_) => 2 case Grants(_) => 1 case Receipts => 0
  {
    match phase {
      case Workspaces(todo) =>
        if todo == {} {
          PurgeOk(g, Documents(ExpiredDocuments(g, cutoff)), cutoff, unlocking, c);
        } else {
          var ids := WorkspaceIds(g, c.next);
          DeletingNext(g, ids);
          if c.next in todo {
            DeletingWorkspaceKeepsGraph(g, c.next);
            SoundWithoutStages(g - ids);
          }
        }
      case Documents(todo) =>
        if todo == {} {
          PurgeOk(g, Grants(ExpiredGrants(g, cutoff)), cutoff, unlocking, c);
        } else {
          DeletingNext(g, SourceIds(g, c.next));
          DeletingSourceKeepsGraph(g, c.next);
          SoundWithoutStages(g - SourceIds(g, c.next));
        }
      case Grants(todo) =>
        if todo == {} {
          PurgeOk(g, Receipts, cutoff, unlocking, c);
        } else if c.next in todo {
          var ids := {c.next} + DependentIds(g, SourcesOf(g, c.next));
          DeletingNext(g, ids);
          DeletingStandaloneKeepsGraph(g, ids);
          SoundWithoutStages(g - ids);
        }
      case Receipts =>
        var ids := ExpiredReceipts(g, cutoff);
        DeletingNext(g, ids);
        DeletingStandaloneKeepsGraph(g, ids);
        SoundWithoutStages(g - ids);
    }
  }

  lemma RecoverOne(g: Graph, s: Id)
    requires Sound(g) && s in g && g[s].Staging?
    ensures var listed := IdSet(g[s].recordIds);
            var ids := if listed <= g.Keys then {s} else listed + {s};
            g - ids == g - {s}
    ensures Core(g - {s}) == Core(g)
    ensures Sound(g - {s}) && Stagings(g - {s}) == Stagings(g) - {s}
  {
    assert StageOk(g, g[s].recordIds);
    var listed := IdSet(g[s].recordIds);
    if !(listed <= g.Keys) {
      var missing :| missing in listed && missing !in g;
      assert missing in g[s].recordIds;
      assert forall id :: id in g[s].recordIds ==> id !in g;
    }
    DeletingStandaloneKeepsGraph(g, {s});
    var h := g - {s};
    forall t | t in h && h[t].Staging?
      ensures StageOk(h, h[t].recordIds)
    {
      assert StageOk(g, g[t].recordIds);
    }
  }

  /** Whatever the records: the recovery of a stage takes its staging record, and with it, when something it
      lists is missing, everything it lists. */
  lemma RecoveryTakesIncomplete(g: Graph, stages: set<Id>, purges: bool, c: Choice)
    requires c.next in stages && IsKind(g, c.next, StagingKind)
    ensures var outcome := NextRecovery(g, stages, purges, c);
            var complete := forall id :: id in g[c.next].recordIds ==> id in g;
            && outcome.Go? && outcome.pc.Deleting? && outcome.pc.then_ == Recovering(stages - {c.next}, purges)
            && forall id :: id in g ==>
                 (id !in g - outcome.pc.ids <==> id == c.next || (!complete && id in g[c.next].recordIds))
  {
    var listed := IdSet(g[c.next].recordIds);
    assert listed <= g.Keys <==> forall id :: id in g[c.next].recordIds ==> id in g;
  }

  lemma RecoveryOk(g: Graph, stages: set<Id>, purges: bool, c: Choice)
    requires Sound(g) && Stagings(g) == stages
    ensures var outcome := NextRecovery(g, stages, purges, c);
            || outcome.Disabled?
            || (outcome.Go? && outcome.pc.Deleting? && PcOk(g, outcome.pc, true))
            || (outcome.Done? && Stagings(g) == {})
  {
    if stages == {} {
      if purges {
        PurgeOk(g, Workspaces(ExpiredWorkspaces(g, c.now)), c.now, true, c);
      }
    } else if c.next in stages {
      RecoverOne(g, c.next);
    }
  }

  lemma StagedIngestOk(g: Graph, plan: Plan)
    requires Settled(g, CommitIngest(plan))
    ensures Settled(Extend(g, plan.Unit()), CleanStaging(plan))
  {
    var h := Extend(g, plan.Unit());
    IngestedGraph(g, plan);
    IngestKeepsGraph(g, h, plan);
    IngestedStage(g, h, plan);
  }

  lemma IngestedStage(g: Graph, h: Graph, plan: Plan)
    requires plan.Ready(g) && IsIngested(g, h, plan)
    requires Stagings(g) == {plan.stagingId} && g[plan.stagingId] == Staging(plan.StagedIds())
    ensures Stagings(h) == {plan.stagingId} && StagesOk(h)
  {
    forall id: Id
      ensures id in Stagings(h) <==> id == plan.stagingId
    {
      if id == plan.documentId || id in plan.StagedIds() {
        IngestedKind(g, h, plan, id);
      } else {
        assert id in Stagings(h) <==> id in Stagings(g);
      }
    }
    forall id | id in plan.StagedIds()
      ensures id in h && !h[id].Staging?
    {
      IngestedKind(g, h, plan, id);
    }
    assert plan.stagingId in Stagings(g);
    assert StageOk(h, h[plan.stagingId].recordIds);
    forall s | s in h && h[s].Staging?
      ensures s == plan.stagingId
    {
      assert s in Stagings(h);
    }
  }

  lemma IngestedKind(g: Graph, h: Graph, plan: Plan, id: Id)
    requires plan.Ready(g) && IsIngested(g, h, plan)
    requires id == plan.documentId || id in plan.StagedIds()
    ensures id in h && !h[id].Staging? && !h[id].Workspace?
  {
    if id in plan.embeddingIds && id != plan.documentId && id != plan.revisionId && id !in plan.chunkIds {
      var i :| 0 <= i < |plan.embeddingIds| && plan.embeddingIds[i] == id;
    }
  }

  lemma CompensationOk(g: Graph, plan: Plan)
    requires Settled(g, CommitIngest(plan))
    ensures Settled(g - plan.CompensatedIds(), RestoreExisting(plan))
    ensures Core(g - plan.CompensatedIds()) == Core(g)
  {
    assert g - plan.CompensatedIds() == g - {plan.stagingId};
    RecoverOne(g, plan.stagingId);
  }

  lemma CleaningOk(g: Graph, plan: Plan)
    requires Settled(g, CleanStaging(plan))
    ensures Settled(g - {plan.stagingId}, Finish)
  {
    assert plan.stagingId in Stagings(g);
    RecoverOne(g, plan.stagingId);
  }

  lemma ContinueOk(g: Graph, job: Job, then_: Then, c: Choice)
    requires Settled(g, then_)
    ensures var outcome := Continue(g, job, then_, c);
            match outcome
            case Go(pc) => (pc.Deleting? || pc.Encrypting?) && PcOk(g, pc, true)
            case Done(_) => Stagings(g) == {}
            case Disabled => true
  {
    match then_ {
      case Recovering(stages, purges) => RecoveryOk(g, stages, purges, c);
      case Purging(phase, cutoff, unlocking) => PurgeOk(g, phase, cutoff, unlocking, c);
      case CommitIngest(plan) =>
        StagedIngestOk(g, plan);
        CompensationOk(g, plan);
      case CleanStaging(plan) => CleaningOk(g, plan);
      case RestoreExisting(plan) =>
        if plan.existing.Some? {
          ExtendOne(g, plan.documentId, plan.existing.value);
          assert g[plan.documentId := plan.existing.value] == g;
          assert !plan.existing.value.Staging? by {
            assert plan.documentId !in Stagings(g);
          }
        }
      case DropDependents(sources) =>
        DeletingNext(g, DependentIds(g, sources));
        DeletingStandaloneKeepsGraph(g, DependentIds(g, sources));
        SoundWithoutStages(g - DependentIds(g, sources));
      case _ =>
    }
  }

  lemma SaveOk(g: Graph, id: Id, body: Body, then_: Then)
    requires Sound(g) && Stagings(g) == {} && (then_.Finish? || then_.DropDependents?)
    requires !body.Staging?
    requires (id !in g && body.Workspace?) || (Standalone(body) && (id in g ==> Standalone(g[id])))
    ensures PcOk(g, Encrypting([(id, body)], then_), true)
  {
    ExtendOne(g, id, body);
    AddingRecordKeepsGraph(g, id, body);
    var h := g[id := body];
    assert Stagings(h) <= Stagings(g);
    SoundWithoutStages(h);
  }

  lemma BeginUnlockedOk(g: Graph, job: Job, c: Choice)
    requires Sound(g) && Stagings(g) == {}
    requires job.operation.DeleteWorkspace? ==> !HeldByOthers(g, job.operation.workspaceId)
    ensures var outcome := BeginUnlocked(g, job, c);
            match outcome
            case Go(pc) =>
              && (pc.Rewrapping? || pc.Preparing? || pc.Encrypting? || pc.Deleting?) && PcOk(g, pc, true)
              && (pc.Preparing? ==> job.operation.Ingest? && IsKind(g, job.operation.workspaceId, WorkspaceKind))
            case Done(unlocked) => !unlocked
            case Disabled => true
  {
    match job.operation {
      case Save(body) =>
        if c.next !in g && (body.Workspace? || (Standalone(body) && !body.Staging?)) {
          SaveOk(g, c.next, body, Finish);
        }
      case DeleteSource(documentId) =>
        DeletingNext(g, SourceIds(g, documentId));
        DeletingSourceKeepsGraph(g, documentId);
        SoundWithoutStages(g - SourceIds(g, documentId));
      case DeleteWorkspace(workspaceId) =>
        DeletingNext(g, WorkspaceIds(g, workspaceId));
        DeletingWorkspaceKeepsGraph(g, workspaceId);
        SoundWithoutStages(g - WorkspaceIds(g, workspaceId));
      case PurgeExpired =>
        PurgeOk(g, Workspaces(ExpiredWorkspaces(g, c.now)), c.now, false, c);
      case RevokeGrant(grantId, revoked) =>
        if IsKind(g, grantId, GrantKind) {
          SaveOk(g, grantId, Revoked(g[grantId], revoked), DropDependents(SourcesOf(g, grantId)));
        }
      case _ =>
    }
  }

  lemma StagingOk(g: Graph, op: Operation, plan: Plan)
    requires Sound(g) && Stagings(g) == {}
    requires op.Ingest? && PlanFor(g, op, plan) && TargetAvailable(g, op)
    requires IsKind(g, op.workspaceId, WorkspaceKind)
    ensures PcOk(g, Encrypting([(plan.stagingId, Staging(plan.StagedIds()))], CommitIngest(plan)), true)
  {
    var stage := Staging(plan.StagedIds());
    ExtendOne(g, plan.stagingId, stage);
    var h := g[plan.stagingId := stage];
    AddingRecordKeepsGraph(g, plan.stagingId, stage);
    forall id | id in h
      ensures h[id].Staging? <==> id == plan.stagingId
    {
      if id != plan.stagingId {
        assert id !in Stagings(g);
      }
    }
    assert Stagings(h) == {plan.stagingId};
    assert StageOk(h, stage.recordIds);
    assert plan.Ready(h);
  }

  // One step of the machine.

  /** The invariant but for what it says of the first operation. */
  ghost predicate Base(w: World) {
    && Readable(KeyOf(w), w.disk)
    && Sound(Plaintext(w))
    && MemoryOk(w)
    && (forall i :: 0 <= i < |w.queue| ==> w.queue[i].epoch <= w.memory.epoch)
    && (forall i :: 0 < i < |w.queue| ==> w.queue[i].pc == Queued)
  }

  lemma AbandonOk(w: World)
    requires Base(w) && w.queue != []
    requires w.memory.key.Some? ==> Stagings(Plaintext(w)) == {}
    ensures Inv(Abandon(w))
  {
  }

  lemma ResolveOk(w: World, job: Job, outcome: Outcome)
    requires Base(w) && w.queue != []
    requires job.epoch == w.memory.epoch
    requires match outcome
             case Go(pc) =>
               && !pc.Queued? && !pc.Clearing? && PcOk(Plaintext(w), pc, true)
               && (w.memory.key.Some? || Keyless(pc))
               && (pc.Rewriting? ==> w.vault.Some? && pc.wrapping.dataKey == KeyOf(w))
               && (w.memory.key.Some? && AtRest(pc) ==> Stagings(Plaintext(w)) == {})
               && (pc.Preparing? ==> job.operation.Ingest? && IsKind(Plaintext(w), job.operation.workspaceId, WorkspaceKind))
             case Done(_) => w.memory.key.Some? ==> Stagings(Plaintext(w)) == {}
             case Disabled => false
    ensures Inv(Resolve(w, job, outcome))
  {
  }

  lemma QueuedStep(w: World, c: Choice)
    requires Inv(w) && w.queue != [] && w.queue[0].pc.Queued? && !Misused(w, Advance(c))
    ensures Inv(Step(w, c))
  {
    var job := w.queue[0];
    if job.epoch != w.memory.epoch {
      AbandonOk(w);
    } else if job.operation.DeleteVault? {
      DeleteVaultBegins(w, c);
    } else {
      var outcome := Begin(w.memory, job, c);
      if w.memory.key.Some? {
        BeginUnlockedOk(w.memory.records, job, c);
      }
      if !outcome.Disabled? {
        ResolveOk(w, job, outcome);
      }
    }
  }

  lemma DeleteVaultBegins(w: World, c: Choice)
    requires Inv(w) && w.queue != [] && w.queue[0].pc.Queued? && w.queue[0].operation.DeleteVault?
    requires w.queue[0].epoch == w.memory.epoch
    ensures Inv(Step(w, c))
  {
    assert Step(w, c) == w.(memory := Locked(w.memory), queue := [w.queue[0].(pc := Clearing)] + w.queue[1..]);
  }

  lemma CreatingStep(w: World, c: Choice)
    requires Inv(w) && w.queue != [] && (w.queue[0].pc.Checking? || w.queue[0].pc.Deriving?)
    ensures Inv(Step(w, c))
  {
    var job := w.queue[0];
    if job.epoch != w.memory.epoch || (job.pc.Checking? && w.vault.Some?) {
      AbandonOk(w);
    } else if job.pc.Checking? {
      ResolveOk(w, job, Go(Deriving(job.pc.wrapping)));
    } else {
      SoundWithoutStages(map[]);
      ResolveOk(w, job, Go(Replacing(job.pc.wrapping, [], [])));
    }
  }

  lemma OpeningStep(w: World, c: Choice)
    requires Inv(w) && w.queue != [] && w.queue[0].pc.Opening? && !Misused(w, Advance(c))
    ensures Inv(Step(w, c))
  {
    var job := w.queue[0];
    var archive := job.pc.archive;
    var loaded := Migration.DecryptAll(archive.wrapping.dataKey, archive.records);
    AbandonOk(w);
    if job.epoch == w.memory.epoch && Readable(archive.wrapping.dataKey, archive.records) && loaded.Some? {
      ResolveOk(w, job, Go(Replacing(archive.wrapping, archive.records, loaded.value)));
    }
  }

  lemma RewrappingStep(w: World, c: Choice)
    requires Inv(w) && w.queue != [] && w.queue[0].pc.Rewrapping?
    ensures Inv(Step(w, c))
  {
    var job := w.queue[0];
    if job.epoch != w.memory.epoch || w.vault.None? {
      AbandonOk(w);
    } else {
      ResolveOk(w, job, Go(Rewriting(w.vault.value.(passphrase := job.pc.passphrase))));
    }
  }

  /** The records of the store have just been installed. */
  lemma LoadedOk(w: World, purges: bool, c: Choice)
    requires Base(w) && w.queue != [] && w.queue[0].epoch == w.memory.epoch && w.memory.key.Some?
    ensures var outcome := NextRecovery(w.memory.records, Stagings(w.memory.records), purges, c);
            outcome.Disabled? || Inv(Resolve(w, w.queue[0], outcome))
  {
    RecoveryOk(w.memory.records, Stagings(w.memory.records), purges, c);
    var outcome := NextRecovery(w.memory.records, Stagings(w.memory.records), purges, c);
    if !outcome.Disabled? {
      ResolveOk(w, w.queue[0], outcome);
    }
  }

  lemma ReplacingStep(w: World, c: Choice)
    requires Inv(w) && w.queue != [] && w.queue[0].pc.Replacing?
    ensures Inv(Step(w, c))
  {
    var job, pc := w.queue[0], w.queue[0].pc;
    var key := pc.wrapping.dataKey;
    var stored := w.(vault := Some(pc.wrapping), disk := pc.records);
    if job.epoch != w.memory.epoch {
      AbandonOk(stored);
    } else {
      LoadingIsViewing(key, pc.records);
      LoadedOk(stored.(memory := Unlocked(w.memory, key, pc.loaded)), false, c);
    }
  }

  lemma RewritingStep(w: World, c: Choice)
    requires Inv(w) && w.queue != [] && w.queue[0].pc.Rewriting?
    ensures Inv(Step(w, c))
  {
    AbandonOk(w.(vault := Some(w.queue[0].pc.wrapping)));
  }

  lemma ClearingStep(w: World, c: Choice)
    requires Inv(w) && w.queue != [] && w.queue[0].pc.Clearing?
    ensures Inv(Step(w, c))
  {
    SoundWithoutStages(map[]);
    AbandonOk(w.(vault := None, disk := []));
  }

  lemma LoadingStep(w: World, c: Choice)
    requires Inv(w) && w.queue != [] && w.queue[0].pc.Loading?
    ensures Inv(Step(w, c))
  {
    var job, key := w.queue[0], KeyOf(w);
    LoadingIsViewing(key, w.disk);
    var loaded := Migration.DecryptAll(key, w.disk);
    if job.epoch != w.memory.epoch || w.vault.None? || !job.operation.Unlock?
       || job.operation.passphrase != w.vault.value.passphrase
    {
      AbandonOk(w);
    } else {
      LoadedOk(w.(memory := Unlocked(w.memory, key, loaded.value)), true, c);
    }
  }

  lemma PreparingStep(w: World, c: Choice)
    requires Inv(w) && w.queue != [] && w.queue[0].pc.Preparing?
    ensures Inv(Step(w, c))
  {
    var job := w.queue[0];
    var g := w.memory.records;
    if || job.epoch != w.memory.epoch || job.aborted || !job.operation.Ingest? || !TargetAvailable(g, job.operation)
       || Deduplicated(g, job.operation)
    {
      AbandonOk(w);
    } else if PlanFor(g, job.operation, c.plan) {
      StagingOk(g, job.operation, c.plan);
      ResolveOk(w, job, Go(Encrypting([(c.plan.stagingId, Staging(c.plan.StagedIds()))], CommitIngest(c.plan))));
    }
  }

  lemma EncryptingStep(w: World, c: Choice)
    requires Inv(w) && w.queue != [] && w.queue[0].pc.Encrypting?
    ensures Inv(Step(w, c))
  {
    var job := w.queue[0];
    if job.epoch != w.memory.epoch {
      AbandonOk(w);
    } else {
      ResolveOk(w, job, Go(Putting(job.pc.added, job.pc.then_)));
    }
  }

  lemma WriteStep(w: World, stored: World, memory: Memory, then_: Then, c: Choice)
    requires Inv(w) && w.queue != [] && (w.queue[0].pc.Putting? || w.queue[0].pc.Deleting?)
    requires then_ == w.queue[0].pc.then_
    requires stored == w.(disk := stored.disk) && Readable(KeyOf(w), stored.disk)
    requires Settled(Plaintext(stored), then_)
    requires memory.key == w.memory.key && memory.epoch == w.memory.epoch
    requires w.memory.key.Some? ==> memory.records == Plaintext(stored)
    ensures w.queue[0].epoch != w.memory.epoch ==> Inv(Abandon(stored))
    ensures w.queue[0].epoch == w.memory.epoch ==>
              var outcome := Continue(memory.records, w.queue[0], then_, c);
              outcome.Disabled? || Inv(Resolve(stored.(memory := memory), w.queue[0], outcome))
  {
    var job := w.queue[0];
    if job.epoch != w.memory.epoch {
      AbandonOk(stored);
    } else {
      var outcome := Continue(memory.records, job, then_, c);
      ContinueOk(memory.records, job, then_, c);
      if !outcome.Disabled? {
        ResolveOk(stored.(memory := memory), job, outcome);
      }
    }
  }

  lemma PuttingStep(w: World, c: Choice)
    requires Inv(w) && w.queue != [] && w.queue[0].pc.Putting?
    ensures Inv(Step(w, c))
  {
    var pc := w.queue[0].pc;
    var disk := PutAll(w.disk, Sealing(KeyOf(w), pc.added, c.seeds));
    StoringIsExtending(KeyOf(w), w.disk, pc.added, c.seeds);
    WriteStep(w, w.(disk := disk), Saved(w.memory, pc.added), pc.then_, c);
  }

  lemma DeletingStep(w: World, c: Choice)
    requires Inv(w) && w.queue != [] && w.queue[0].pc.Deleting?
    ensures Inv(Step(w, c))
  {
    var pc := w.queue[0].pc;
    RemovingIsForgetting(KeyOf(w), w.disk, pc.ids);
    WriteStep(w, w.(disk := Without(w.disk, pc.ids)), Deleted(w.memory, pc.ids), pc.then_, c);
  }

  lemma HeaderKeepsInv(w: World, c: Choice)
    requires Inv(w) && w.queue != [] && !Misused(w, Advance(c))
    requires var pc := w.queue[0].pc;
             pc.Checking? || pc.Deriving? || pc.Opening? || pc.Rewrapping? || pc.Rewriting? || pc.Clearing?
    ensures Inv(Step(w, c))
  {
    match w.queue[0].pc {
      case Checking(_) => CreatingStep(w, c);
      case Deriving(_) => CreatingStep(w, c);
      case Opening(_, _) => OpeningStep(w, c);
      case Rewrapping(_) => RewrappingStep(w, c);
      case Rewriting(_) => RewritingStep(w, c);
      case Clearing => ClearingStep(w, c);
    }
  }

  lemma WriteKeepsInv(w: World, c: Choice)
    requires Inv(w) && w.queue != []
    requires var pc := w.queue[0].pc; pc.Preparing? || pc.Encrypting? || pc.Putting? || pc.Deleting?
    ensures Inv(Step(w, c))
  {
    match w.queue[0].pc {
      case Preparing => PreparingStep(w, c);
      case Encrypting(_, _) => EncryptingStep(w, c);
      case Putting(_, _) => PuttingStep(w, c);
      case Deleting(_, _) => DeletingStep(w, c);
    }
  }

  lemma AdvanceKeepsInv(w: World, c: Choice)
    requires Inv(w) && w.queue != [] && !Misused(w, Advance(c))
    ensures Inv(Step(w, c))
  {
    var pc := w.queue[0].pc;
    if pc.Queued? {
      QueuedStep(w, c);
    } else if pc.Loading? {
      LoadingStep(w, c);
    } else if pc.Replacing? {
      ReplacingStep(w, c);
    } else if pc.Preparing? || pc.Encrypting? || pc.Putting? || pc.Deleting? {
      WriteKeepsInv(w, c);
    } else {
      HeaderKeepsInv(w, c);
    }
  }

  lemma LockKeepsInv(w: World)
    requires Inv(w)
    ensures Inv(w.(memory := Locked(w.memory)))
  {
  }

  lemma RequestKeepsInv(w: World, operation: Operation)
    requires Inv(w)
    ensures Inv(Apply(w, Request(operation)))
  {
  }

  lemma AbortKeepsInv(w: World, i: nat)
    requires Inv(w)
    ensures Inv(Apply(w, Abort(i)))
  {
  }

  lemma EventKeepsInv(w: World, e: Event)
    requires Inv(w) && !Misused(w, e)
    ensures Inv(Apply(w, e))
  {
    match e {
      case Advance(c) =>
        if w.queue != [] {
          AdvanceKeepsInv(w, c);
        }
      case LockNow => LockKeepsInv(w);
      case Request(operation) => RequestKeepsInv(w, operation);
      case Abort(i) => AbortKeepsInv(w, i);
      case Crash =>
    }
  }

  ghost predicate ProperRun(w: World, events: seq<Event>) {
    events != [] ==>
      ProperRun(w, events[..|events| - 1]) && !Misused(Run(w, events[..|events| - 1]), events[|events| - 1])
  }

  lemma {:induction false} SoundWorldStaysSound(w: World, events: seq<Event>)
    requires Inv(w) && ProperRun(w, events)
    ensures Inv(Run(w, events))
  {
    if events != [] {
      SoundWorldStaysSound(w, events[..|events| - 1]);
      EventKeepsInv(Run(w, events[..|events| - 1]), events[|events| - 1]);
    }
  }

  /** From no vault at all, whatever is requested, cancelled, locked or crashed and wherever, vaults
      created, imported and deleted included: the stored records always decrypt and form a sound
      source graph, every staging record on disk is complete or wholly absent, memory is empty or the
      very plaintext of the store, and an unlocked vault that is not in the middle of an operation has
      no staging record. */
  lemma VaultStaysSound(events: seq<Event>)
    requires ProperRun(NoVault, events)
    ensures Inv(Run(NoVault, events))
  {
    assert Stagings(Plaintext(NoVault)) == {};
    SoundWorldStaysSound(NoVault, events);
  }

  /** In every run from no vault at all, whenever the vault is unlocked with no operation in flight,
      decrypting the stored records gives exactly the map in memory, with no staging record in it. */
  lemma UnlockedMemoryIsTheStore(events: seq<Event>)
    requires ProperRun(NoVault, events)
    requires var w := Run(NoVault, events); w.memory.key.Some? && (w.queue == [] || w.queue[0].pc.Queued?)
    ensures var w := Run(NoVault, events);
            && w.memory.records == View(w.memory.key.value, w.disk)
            && Stagings(w.memory.records) == {} && SourceGraph(w.memory.records)
  {
    VaultStaysSound(events);
  }

  /** An import checks that an archive decrypts, and not how its records hang together: the store it
      leaves is sound exactly when the archive's own records are. */
  lemma ImportIsUnchecked(w: World, c: Choice, d: Choice)
    requires w.queue != [] && w.queue[0].pc.Opening? && w.queue[0].epoch == w.memory.epoch
    requires var pc := w.queue[0].pc;
             pc.passphrase == pc.archive.wrapping.passphrase && Readable(pc.archive.wrapping.dataKey, pc.archive.records)
    ensures var archive := w.queue[0].pc.archive;
            var replacing := Apply(w, Advance(c));
            var t := Apply(replacing, Advance(d));
            t == replacing || (Sound(Plaintext(t)) <==> Sound(View(archive.wrapping.dataKey, archive.records)))
  {
    var archive := w.queue[0].pc.archive;
    LoadingIsViewing(archive.wrapping.dataKey, archive.records);
    var replacing := Apply(w, Advance(c));
    assert replacing.queue[0].pc.Replacing? && replacing.queue[0].pc.records == archive.records;
    var t := Apply(replacing, Advance(d));
    assert t == replacing || (KeyOf(t) == archive.wrapping.dataKey && t.disk == archive.records);
  }

  /** A chunk of no document, as the only record of an archive. */
  function StrayChunk(wrapping: Wrapping, seed: Seed): Archive {
    Archive(wrapping, [Encrypt(wrapping.dataKey, Record(CURRENT_SCHEMA, 0, Chunk(1, 2, 3, 4)), seed)])
  }

  /** Importing it: the request, its turn, the opening of the archive, and the write of the store. */
  function ImportOf(archive: Archive, c: Choice): seq<Event> {
    [Request(Import(archive, archive.wrapping.passphrase)), Advance(c), Advance(c), Advance(c)]
  }

  lemma StrayChunkView(wrapping: Wrapping, seed: Seed)
    ensures var archive := StrayChunk(wrapping, seed);
            && Readable(wrapping.dataKey, archive.records)
            && View(wrapping.dataKey, archive.records) == map[0 := Chunk(1, 2, 3, 4)]
            && !Sound(View(wrapping.dataKey, archive.records))
  {
    var archive := StrayChunk(wrapping, seed);
    var g := View(wrapping.dataKey, archive.records);
    assert Decrypt(wrapping.dataKey, archive.records[0]) == Some(Record(CURRENT_SCHEMA, 0, Chunk(1, 2, 3, 4)));
    assert archive.records[1..] == [] && View(wrapping.dataKey, []) == map[];
    assert g == map[0 := Chunk(1, 2, 3, 4)];
    assert !SourceOk(g, 0, g[0]);
  }

  lemma RunSnoc(w: World, events: seq<Event>, e: Event)
    ensures Run(w, events + [e]) == Apply(Run(w, events), e)
  {
    assert (events + [e])[..|events|] == events;
  }

  lemma ImportReplaces(archive: Archive, c: Choice)
    requires Readable(archive.wrapping.dataKey, archive.records)
    requires Migration.DecryptAll(archive.wrapping.dataKey, archive.records).Some?
    ensures var w := Run(NoVault, ImportOf(archive, c)[..3]);
            w == World(None, [], Closed, [Job(Import(archive, archive.wrapping.passphrase), 0,
                         Replacing(archive.wrapping, archive.records,
                                   Migration.DecryptAll(archive.wrapping.dataKey, archive.records).value), false)])
  {
    var events := ImportOf(archive, c);
    LoadingIsViewing(archive.wrapping.dataKey, archive.records);
    assert events[..1] == [] + [events[0]] && events[..2] == events[..1] + [events[1]];
    assert events[..3] == events[..2] + [events[2]];
    RunSnoc(NoVault, [], events[0]);
    RunSnoc(NoVault, events[..1], events[1]);
    RunSnoc(NoVault, events[..2], events[2]);
  }

  /** An archive that decrypts and is not sound, imported into nothing: the vault opens on it. */
  lemma StrayChunkIsImported(wrapping: Wrapping, seed: Seed, c: Choice)
    ensures var archive := StrayChunk(wrapping, seed);
            var w := Run(NoVault, ImportOf(archive, c));
            && w.memory.key == Some(wrapping.dataKey) && w.queue == []
            && w.memory.records == Plaintext(w) == map[0 := Chunk(1, 2, 3, 4)] && !Sound(Plaintext(w))
  {
    var archive := StrayChunk(wrapping, seed);
    var events := ImportOf(archive, c);
    StrayChunkView(wrapping, seed);
    LoadingIsViewing(wrapping.dataKey, archive.records);
    ImportReplaces(archive, c);
    RunSnoc(NoVault, events[..3], events[3]);
    assert events == events[..3] + [events[3]];
    assert Stagings(map[0 := Chunk(1, 2, 3, 4)]) == {};
  }

  /** Export and import are a round trip: what an unlocked vault exports, imported with its passphrase
      in any other state and undisturbed, brings back the same store and the same records in memory. */
  lemma ExportImportsBack(w: World, v: World, c: Choice, d: Choice)
    requires Inv(w) && w.memory.key.Some? && w.queue == []
    requires v.queue != [] && v.queue[0].epoch == v.memory.epoch
    requires v.queue[0].pc == Opening(Archive(w.vault.value, w.disk), w.vault.value.passphrase)
    ensures var t := Apply(Apply(v, Advance(c)), Advance(d));
            && t.vault == w.vault && t.disk == w.disk
            && t.memory == Memory(w.memory.key, w.memory.records, v.memory.epoch + 1)
            && t.queue == v.queue[1..]
  {
    LoadingIsViewing(KeyOf(w), w.disk);
  }

  // The lock.

  ghost predicate NoCrash(events: seq<Event>) {
    forall i :: 0 <= i < |events| ==> !events[i].Crash?
  }

  /** After lock(), operations requested before it still carry their old epoch, at the head of the
      queue, and those requested since carry a later one. */
  ghost predicate SinceLock(w: World, lockedAt: nat) {
    && lockedAt < w.memory.epoch
    && forall i, j :: 0 <= i < j < |w.queue| && w.queue[j].epoch <= lockedAt ==> w.queue[i].epoch <= lockedAt
  }

  lemma {:induction false} EpochAfterLock(w: World, events: seq<Event>)
    requires forall i :: 0 <= i < |w.queue| ==> w.queue[i].epoch <= w.memory.epoch
    requires NoCrash(events)
    ensures SinceLock(Run(Apply(w, LockNow), events), w.memory.epoch)
  {
    if events != [] {
      var last := |events| - 1;
      EpochAfterLock(w, events[..last]);
      var before := Run(Apply(w, LockNow), events[..last]);
      EpochStep(before, events[last], w.memory.epoch);
    }
  }

  lemma EpochStep(w: World, e: Event, lockedAt: nat)
    requires SinceLock(w, lockedAt) && !e.Crash?
    ensures SinceLock(Apply(w, e), lockedAt)
  {
    match e {
      case Advance(c) =>
        if w.queue != [] {
          EpochAdvance(w, c);
        }
      case _ =>
    }
  }

  /** The epoch does not go back, and the queue loses its first operation or keeps it in place. */
  ghost predicate MovesOn(w: World, w': World)
    requires w.queue != []
  {
    && w.memory.epoch <= w'.memory.epoch
    && (w'.queue == w.queue[1..]
        || (|w'.queue| == |w.queue| && w'.queue[0].epoch == w.queue[0].epoch && w'.queue[1..] == w.queue[1..]))
  }

  lemma ResolveMoves(w: World, stored: World, outcome: Outcome)
    requires w.queue != [] && stored.queue == w.queue && w.memory.epoch <= stored.memory.epoch
    ensures MovesOn(w, Resolve(stored, w.queue[0], outcome)) && MovesOn(w, Abandon(stored))
  {
  }

  lemma EpochAdvance(w: World, c: Choice)
    requires w.queue != []
    ensures MovesOn(w, Step(w, c))
  {
    var job, pc := w.queue[0], w.queue[0].pc;
    if pc.Putting? {
      PuttingMoves(w, c);
    } else if pc.Deleting? {
      DeletingMoves(w, c);
    } else if pc.Replacing? || pc.Loading? {
      LoadMoves(w, c);
    } else if pc.Queued? {
      ResolveMoves(w, w, Begin(w.memory, job, c));
      ResolveMoves(w, w.(memory := Locked(w.memory)), Begin(w.memory, job, c));
    } else {
      OtherMoves(w, c);
    }
  }

  lemma PuttingMoves(w: World, c: Choice)
    requires w.queue != [] && w.queue[0].pc.Putting?
    ensures MovesOn(w, Step(w, c))
  {
  }

  lemma DeletingMoves(w: World, c: Choice)
    requires w.queue != [] && w.queue[0].pc.Deleting?
    ensures MovesOn(w, Step(w, c))
  {
  }

  lemma LoadMoves(w: World, c: Choice)
    requires w.queue != [] && (w.queue[0].pc.Replacing? || w.queue[0].pc.Loading?)
    ensures MovesOn(w, Step(w, c))
  {
  }

  lemma OtherMoves(w: World, c: Choice)
    requires w.queue != []
    requires var pc := w.queue[0].pc;
             !pc.Queued? && !pc.Putting? && !pc.Deleting? && !pc.Replacing? && !pc.Loading?
    ensures MovesOn(w, Step(w, c))
  {
  }

  /** Once lock() has returned, nothing requested before it can bring back the key or any plaintext:
      at any later time, whatever is requested meanwhile, a step of such an operation leaves the
      memory of the vault exactly as it was. */
  lemma LockedOutOperations(w: World, events: seq<Event>, c: Choice)
    requires forall i :: 0 <= i < |w.queue| ==> w.queue[i].epoch <= w.memory.epoch
    requires NoCrash(events)
    ensures var later := Run(Apply(w, LockNow), events);
            later.queue != [] && later.queue[0].epoch <= w.memory.epoch ==> Step(later, c).memory == later.memory
  {
    EpochAfterLock(w, events);
  }

  ghost predicate Shut(w: World) {
    && w.memory.key == None && w.memory.records == map[]
    && forall i :: 0 <= i < |w.queue| ==> w.queue[i].epoch < w.memory.epoch
  }

  lemma ShutStep(w: World, e: Event)
    requires Shut(w) && !e.Request?
    ensures Shut(Apply(w, e))
  {
    match e {
      case Advance(c) =>
        if w.queue != [] {
          EpochAdvance(w, c);
          assert Step(w, c).memory == w.memory;
        }
      case _ =>
    }
  }

  /** With nothing requested after lock(), the vault stays empty for good. */
  lemma {:induction false} LockIsFinal(w: World, events: seq<Event>)
    requires forall i :: 0 <= i < |w.queue| ==> w.queue[i].epoch <= w.memory.epoch
    requires forall i :: 0 <= i < |events| ==> !events[i].Request?
    ensures Shut(Run(Apply(w, LockNow), events))
  {
    if events != [] {
      var last := |events| - 1;
      LockIsFinal(w, events[..last]);
      ShutStep(Run(Apply(w, LockNow), events[..last]), events[last]);
    }
  }
}
