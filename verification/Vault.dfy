/** The encrypted vault over whole runs: operations one at a time, each cut at its awaits, with
    lock(), cancellation and crashes allowed at every one of them (packages/memory/src/vault.ts). */
module Vault {
  import opened Prelude
  import opened Records
  import opened Storage
  import opened VaultGraph
  import opened VaultStore
  import Migration

  /** The fields a vault object keeps in memory. */
  datatype Memory = Memory(key: Option<Key>, records: Graph, epoch: nat)

  const Closed := Memory(None, map[], 0)

  // The synchronous pieces of the operations.

  function Locked(m: Memory): Memory {
    Memory(None, map[], m.epoch + 1)
  }

  function Unlocked(m: Memory, key: Key, loaded: seq<Record>): Memory {
    Memory(Some(key), Extend(map[], Pairs(loaded)), m.epoch)
  }

  function Saved(m: Memory, added: seq<(Id, Body)>): Memory {
    m.(records := Extend(m.records, added))
  }

  function Deleted(m: Memory, ids: set<Id>): Memory {
    m.(records := m.records - ids)
  }

  /** The vault object; each method is the code between two awaits. */
  class EncryptedMemoryVault {
    var records: Graph
    var keyMaterial: Option<Key>
    var epoch: nat

    constructor ()
      ensures Value() == Closed
    {
      records, keyMaterial, epoch := map[], None, 0;
    }

    ghost function Value(): Memory
      reads this
    {
      Memory(keyMaterial, records, epoch)
    }

    method AdvanceEpoch()
      modifies this
      ensures Value() == old(Value()).(epoch := old(epoch) + 1)
    {
      epoch := epoch + 1;
    }

    method ClearUnlockedState()
      modifies this
      ensures Value() == Memory(None, map[], old(epoch))
    {
      keyMaterial := None;
      records := map[];
    }

    /** lock(): the epoch moves before the key and the plaintext go. */
    method Lock()
      modifies this
      ensures Value() == Locked(old(Value()))
    {
      AdvanceEpoch();
      ClearUnlockedState();
    }

    /** #unlock after its records are loaded. */
    method Install(key: Key, loaded: seq<Record>)
      modifies this
      ensures Value() == Unlocked(old(Value()), key, loaded)
    {
      keyMaterial := Some(key);
      records := map[];
      for i := 0 to |loaded|
        invariant keyMaterial == Some(key) && epoch == old(epoch)
        invariant records == Extend(map[], Pairs(loaded)[..i])
      {
        records := records[loaded[i].id := loaded[i].body];
        assert Pairs(loaded)[..i + 1][..i] == Pairs(loaded)[..i];
      }
      assert Pairs(loaded)[..|loaded|] == Pairs(loaded);
    }

    /** #save after the store has the records: nothing happens when the epoch has moved. */
    method FinishSave(added: seq<(Id, Body)>, expected: nat) returns (current: bool)
      modifies this
      ensures current <==> old(epoch) == expected
      ensures Value() == if current then Saved(old(Value()), added) else old(Value())
    {
      if epoch != expected {
        return false;
      }
      for i := 0 to |added|
        invariant keyMaterial == old(keyMaterial) && epoch == old(epoch)
        invariant records == Extend(old(records), added[..i])
      {
        records := records[added[i].0 := added[i].1];
        assert added[..i + 1][..i] == added[..i];
      }
      assert added[..|added|] == added;
      return true;
    }

    /** #deleteByIds after the store has dropped the records. */
    method FinishDelete(ids: seq<Id>, expected: nat) returns (current: bool)
      modifies this
      ensures current <==> old(epoch) == expected
      ensures Value() == if current then Deleted(old(Value()), IdSet(ids)) else old(Value())
    {
      if epoch != expected {
        return false;
      }
      for i := 0 to |ids|
        invariant keyMaterial == old(keyMaterial) && epoch == old(epoch)
        invariant records == old(records) - IdSet(ids[..i])
      {
        records := records - {ids[i]};
        assert ids[..i + 1] == ids[..i] + [ids[i]];
      }
      assert ids[..|ids|] == ids;
      return true;
    }
  }

  // Operations and where they wait.

  /** An exported vault; a schema 1 archive stands as what it is migrated to. */
  datatype Archive = Archive(wrapping: Wrapping, records: seq<Encrypted>)

  datatype Operation =
    | Create(wrapping: Wrapping)
    | Unlock(passphrase: nat)
    | Import(archive: Archive, passphrase: nat)
    | ChangePassphrase(passphrase: nat)
    | DeleteVault
    | Save(body: Body)  // createWorkspace, saveGrant, saveDerived, saveWorkflow, saveReceipt
    | Ingest(workspaceId: Id, target: Option<Id>, fingerprint: int)
    | DeleteSource(documentId: Id)
    | DeleteWorkspace(workspaceId: Id)
    | PurgeExpired  // also what search and exportEncrypted write
    | RevokeGrant(grantId: Id, revoked: int)

  /** The four loops of #purgeExpired, with the ids each still has to visit. */
  datatype Phase =
    | Workspaces(todo: set<Id>)
    | Documents(todo: set<Id>)
    | Grants(todo: set<Id>)
    | Receipts

  /** What follows a pending save or deletion. */
  datatype Then =
    | Finish
    | FinishUnlock
    | Recovering(stages: set<Id>, purges: bool)
    | Purging(phase: Phase, cutoff: int, unlocking: bool)
    | CommitIngest(plan: Plan)
    | CleanStaging(plan: Plan)
    | RestoreExisting(plan: Plan)
    | DropDependents(sources: set<Id>)

  datatype Pc =
    | Queued
    | Checking(wrapping: Wrapping)
    | Deriving(wrapping: Wrapping)
    | Opening(archive: Archive, passphrase: nat)
    | Replacing(wrapping: Wrapping, records: seq<Encrypted>, loaded: seq<Record>)
    | Rewrapping(passphrase: nat)
    | Rewriting(wrapping: Wrapping)
    | Clearing
    | Loading
    | Preparing
    | Encrypting(added: seq<(Id, Body)>, then_: Then)
    | Putting(added: seq<(Id, Body)>, then_: Then)
    | Deleting(ids: set<Id>, then_: Then)

  datatype Job = Job(operation: Operation, epoch: nat, pc: Pc, aborted: bool)

  /** What the surroundings decide at a step: the clock, which element a loop visits next (or a fresh
      id), the randomness of an ingest and of encryption. */
  datatype Choice = Choice(now: int, next: Id, plan: Plan, seeds: nat -> Seed)

  datatype Outcome = Go(pc: Pc) | Done(unlocked: bool) | Disabled

  function Stagings(g: Graph): set<Id> {
    set id | id in g && g[id].Staging?
  }

  function NextPurge(g: Graph, phase: Phase, cutoff: int, unlocking: bool, c: Choice): Outcome
    decreases match phase case Workspaces(_) => 3 case Documents(_) => 2 case Grants(_) => 1 case Receipts => 0
  {
    match phase
    case Workspaces(todo) =>
      if todo == {} then NextPurge(g, Documents(ExpiredDocuments(g, cutoff)), cutoff, unlocking, c)
      else if c.next !in todo then Disabled
      else Go(Deleting(WorkspaceIds(g, c.next), Purging(Workspaces(todo - {c.next}), cutoff, unlocking)))
    case Documents(todo) =>
      if todo == {} then NextPurge(g, Grants(ExpiredGrants(g, cutoff)), cutoff, unlocking, c)
      else if c.next !in todo then Disabled
      else Go(Deleting(SourceIds(g, c.next), Purging(Documents(todo - {c.next}), cutoff, unlocking)))
    case Grants(todo) =>
      if todo == {} then NextPurge(g, Receipts, cutoff, unlocking, c)
      else if c.next !in todo then Disabled
      else Go(Deleting({c.next} + DependentIds(g, SourcesOf(g, c.next)),
                       Purging(Grants(todo - {c.next}), cutoff, unlocking)))
    case Receipts =>
      Go(Deleting(ExpiredReceipts(g, cutoff), if unlocking then FinishUnlock else Finish))
  }

  /** #recoverStaging: a complete stage only loses its marker, an incomplete one everything it lists.
      An unlock purges afterwards, an import does not. */
  function NextRecovery(g: Graph, stages: set<Id>, purges: bool, c: Choice): Outcome {
    if stages == {} then
      if purges then NextPurge(g, Workspaces(ExpiredWorkspaces(g, c.now)), c.now, true, c) else Done(true)
    else if c.next !in stages || !IsKind(g, c.next, StagingKind) then Disabled
    else
      var listed := IdSet(g[c.next].recordIds);
      var ids := if listed <= g.Keys then {c.next} else listed + {c.next};
      Go(Deleting(ids, Recovering(stages - {c.next}, purges)))
  }

  function Continue(g: Graph, job: Job, then_: Then, c: Choice): Outcome {
    match then_
    case Finish => Done(false)
    case FinishUnlock => Done(true)
    case Recovering(stages, purges) => NextRecovery(g, stages, purges, c)
    case Purging(phase, cutoff, unlocking) => NextPurge(g, phase, cutoff, unlocking, c)
    case CommitIngest(plan) =>
      if |plan.embeddingIds| > |plan.chunkIds| then Disabled
      else if job.aborted then Go(Deleting(plan.CompensatedIds(), RestoreExisting(plan)))
      else Go(Encrypting(plan.Unit(), CleanStaging(plan)))
    case CleanStaging(plan) => Go(Deleting({plan.stagingId}, Finish))
    case RestoreExisting(plan) =>
      (match plan.existing
       case Some(body) => Go(Encrypting([(plan.documentId, body)], Finish))
       case None => Done(false))
    case DropDependents(sources) => Go(Deleting(DependentIds(g, sources), Finish))
  }

  /** The target an ingest names is missing, or an undeleted document of its workspace. */
  predicate TargetAvailable(g: Graph, op: Operation)
    requires op.Ingest?
  {
    op.target.Some? && op.target.value in g ==>
      var body := g[op.target.value];
      body.Document? && body.workspaceId == op.workspaceId && !body.deleted
  }

  function ExistingDocument(g: Graph, op: Operation): Option<Body>
    requires op.Ingest?
  {
    if op.target.Some? && op.target.value in g then Some(g[op.target.value]) else None
  }

  predicate Deduplicated(g: Graph, op: Operation)
    requires op.Ingest?
  {
    var existing := ExistingDocument(g, op);
    existing.Some? && existing.value.Document? && IsKind(g, existing.value.currentRevisionId, RevisionKind)
    && g[existing.value.currentRevisionId].fingerprint == op.fingerprint
  }

  /** The plan an ingest makes once its text is fingerprinted, chunked and embedded. */
  ghost predicate PlanFor(g: Graph, op: Operation, plan: Plan)
    requires op.Ingest?
  {
    && plan.workspaceId == op.workspaceId && plan.fingerprint == op.fingerprint
    && plan.existing == ExistingDocument(g, op)
    && (op.target.Some? ==> plan.documentId == op.target.value)
    && plan.FreshIds(g) && plan.stagingId !in g
  }

  function Revoked(grant: Body, revoked: int): Body
    requires grant.Grant?
  {
    Grant(grant.workspaceId, grant.sourceIds, grant.expiresAt, revoked)
  }

  function BeginSave(g: Graph, id: Id, body: Body): Outcome {
    if id in g || !(body.Workspace? || (Standalone(body) && !body.Staging?)) then Disabled
    else Go(Encrypting([(id, body)], Finish))
  }

  function BeginIngest(g: Graph, workspaceId: Id, aborted: bool): Outcome {
    if aborted || !IsKind(g, workspaceId, WorkspaceKind) || g[workspaceId].deleted then Done(false)
    else Go(Preparing)
  }

  function BeginRevoke(g: Graph, grantId: Id, revoked: int): Outcome {
    if !IsKind(g, grantId, GrantKind) then Done(false)
    else Go(Encrypting([(grantId, Revoked(g[grantId], revoked))], DropDependents(SourcesOf(g, grantId))))
  }

  /** The operations that need the key material. */
  function BeginUnlocked(g: Graph, job: Job, c: Choice): Outcome {
    match job.operation
    case ChangePassphrase(passphrase) => Go(Rewrapping(passphrase))
    case Save(body) => BeginSave(g, c.next, body)
    case Ingest(workspaceId, _, _) => BeginIngest(g, workspaceId, job.aborted)
    case DeleteSource(documentId) =>
      if !IsKind(g, documentId, DocumentKind) then Done(false)
      else Go(Deleting(SourceIds(g, documentId), Finish))
    case DeleteWorkspace(workspaceId) => Go(Deleting(WorkspaceIds(g, workspaceId), Finish))
    case PurgeExpired => NextPurge(g, Workspaces(ExpiredWorkspaces(g, c.now)), c.now, false, c)
    case RevokeGrant(grantId, revoked) => BeginRevoke(g, grantId, revoked)
    case _ => Disabled
  }

  /** An operation's code up to its first await. */
  function Begin(m: Memory, job: Job, c: Choice): Outcome {
    var g := m.records;
    match job.operation
    case Unlock(_) => Go(Loading)
    case Create(wrapping) => Go(Checking(wrapping))
    case Import(archive, passphrase) => Go(Opening(archive, passphrase))
    case DeleteVault => Go(Clearing)
    case _ => if m.key.None? then Done(false) else BeginUnlocked(g, job, c)
  }

  // Runs.

  /** The store's header, if there is a vault, and its records; the vault object in use; and the
      operations requested of it in order. */
  datatype World = World(vault: Option<Wrapping>, disk: seq<Encrypted>, memory: Memory, queue: seq<Job>)

  datatype Event =
    | Request(operation: Operation)
    | Abort(job: nat)
    | Advance(choice: Choice)
    | LockNow
    | Crash

  /** The vault's data key; whatever where there is no vault. */
  function KeyOf(w: World): Key {
    if w.vault.Some? then w.vault.value.dataKey else 0
  }

  function Resolve(w: World, job: Job, outcome: Outcome): World
    requires w.queue != []
  {
    match outcome
    case Go(pc) => w.(queue := [job.(pc := pc)] + w.queue[1..])
    case Done(unlocked) =>
      w.(queue := w.queue[1..],
         memory := if unlocked then w.memory.(epoch := w.memory.epoch + 1) else w.memory)
    case Disabled => w
  }

  function Abandon(w: World): World
    requires w.queue != []
  {
    w.(queue := w.queue[1..])
  }

  /** The first operation from where it waits to where it waits next. A store call that was issued
      takes effect even when the vault has been locked since; the operation then throws. */
  ghost function Step(w: World, c: Choice): World
    requires w.queue != []
  {
    var job := w.queue[0];
    var live := job.epoch == w.memory.epoch;
    match job.pc
    case Queued =>
      if !live then Abandon(w)
      else
        // deleteVault() locks before its first await.
        var memory := if job.operation.DeleteVault? then Locked(w.memory) else w.memory;
        Resolve(w.(memory := memory), job, Begin(w.memory, job, c))
    case Checking(wrapping) =>
      if !live || w.vault.Some? then Abandon(w) else Resolve(w, job, Go(Deriving(wrapping)))
    case Deriving(wrapping) =>
      if !live then Abandon(w) else Resolve(w, job, Go(Replacing(wrapping, [], [])))
    case Opening(archive, passphrase) =>
      var loaded := Migration.DecryptAll(archive.wrapping.dataKey, archive.records);
      if !live || passphrase != archive.wrapping.passphrase || !Readable(archive.wrapping.dataKey, archive.records)
         || loaded.None?
      then Abandon(w)
      else Resolve(w, job, Go(Replacing(archive.wrapping, archive.records, loaded.value)))
    case Replacing(wrapping, records, loaded) =>
      var stored := w.(vault := Some(wrapping), disk := records);
      if !live then Abandon(stored)
      else
        var memory := Unlocked(w.memory, wrapping.dataKey, loaded);
        var outcome := NextRecovery(memory.records, Stagings(memory.records), false, c);
        if outcome.Disabled? then w else Resolve(stored.(memory := memory), job, outcome)
    case Rewrapping(passphrase) =>
      if !live || w.vault.None? then Abandon(w)
      else Resolve(w, job, Go(Rewriting(w.vault.value.(passphrase := passphrase))))
    case Rewriting(wrapping) => Abandon(w.(vault := Some(wrapping)))
    case Clearing => Abandon(w.(vault := None, disk := []))
    case Loading =>
      var loaded := Migration.DecryptAll(KeyOf(w), w.disk);
      if !live || w.vault.None? || !job.operation.Unlock? || job.operation.passphrase != w.vault.value.passphrase
         || loaded.None?
      then Abandon(w)
      else
        var memory := Unlocked(w.memory, KeyOf(w), loaded.value);
        var outcome := NextRecovery(memory.records, Stagings(memory.records), true, c);
        if outcome.Disabled? then w else Resolve(w.(memory := memory), job, outcome)
    case Preparing =>
      if !live || job.aborted || !job.operation.Ingest? || !TargetAvailable(w.memory.records, job.operation)
         || Deduplicated(w.memory.records, job.operation)
      then Abandon(w)
      else if !PlanFor(w.memory.records, job.operation, c.plan) then w
      else Resolve(w, job, Go(Encrypting([(c.plan.stagingId, Staging(c.plan.StagedIds()))], CommitIngest(c.plan))))
    case Encrypting(added, then_) =>
      if !live then Abandon(w) else Resolve(w, job, Go(Putting(added, then_)))
    case Putting(added, then_) =>
      var stored := w.(disk := PutAll(w.disk, Sealing(KeyOf(w), added, c.seeds)));
      if !live then Abandon(stored)
      else
        var memory := Saved(w.memory, added);
        var outcome := Continue(memory.records, job, then_, c);
        if outcome.Disabled? then w else Resolve(stored.(memory := memory), job, outcome)
    case Deleting(ids, then_) =>
      var stored := w.(disk := Without(w.disk, ids));
      if !live then Abandon(stored)
      else
        var memory := Deleted(w.memory, ids);
        var outcome := Continue(memory.records, job, then_, c);
        if outcome.Disabled? then w else Resolve(stored.(memory := memory), job, outcome)
  }

  ghost function Apply(w: World, e: Event): World {
    match e
    case Request(operation) => w.(queue := w.queue + [Job(operation, w.memory.epoch, Queued, false)])
    case Abort(i) => if i >= |w.queue| then w else w.(queue := w.queue[i := w.queue[i].(aborted := true)])
    case Advance(c) => if w.queue == [] then w else Step(w, c)
    case LockNow => w.(memory := Locked(w.memory))
    case Crash => w.(memory := Closed, queue := [])
  }

  ghost function Run(w: World, events: seq<Event>): World {
    if events == [] then w
    else Apply(Run(w, events[..|events| - 1]), events[|events| - 1])
  }

  const NoVault := World(None, [], Closed, [])

  ghost function Plaintext(w: World): Graph {
    View(KeyOf(w), w.disk)
  }

  // The invariant.

  /** The records other than staging records. */
  function Core(g: Graph): Graph {
    map id | id in g && !g[id].Staging? :: g[id]
  }

  /** Either nothing a staging record lists is there, or all of it. */
  ghost predicate StageOk(g: Graph, recordIds: seq<Id>) {
    || (forall id :: id in recordIds ==> id !in g)
    || (forall id :: id in recordIds ==> id in g && !g[id].Staging?)
  }

  ghost predicate StagesOk(g: Graph) {
    forall s :: s in g && g[s].Staging? ==> StageOk(g, g[s].recordIds)
  }

  ghost predicate Sound(g: Graph) {
    SourceGraph(g) && StagesOk(g)
  }

  ghost predicate PhaseOk(g: Graph, phase: Phase) {
    match phase
    case Workspaces(todo) => forall id :: id in todo && id in g ==> g[id].Workspace?
    case Grants(todo) => forall id :: id in todo && id in g ==> g[id].Grant?
    case _ => true
  }

  /** What holds of the stored plaintext once a pending write has taken effect. */
  ghost predicate Settled(g: Graph, then_: Then) {
    && Sound(g)
    && match then_
       case Recovering(stages, _) => Stagings(g) == stages
       case Purging(phase, _, _) => Stagings(g) == {} && PhaseOk(g, phase)
       case CommitIngest(plan) =>
         && plan.Ready(g) && Stagings(g) == {plan.stagingId}
         && g[plan.stagingId] == Staging(plan.StagedIds())
       case CleanStaging(plan) => Stagings(g) == {plan.stagingId}
       case RestoreExisting(plan) =>
         Stagings(g) == {} &&
         (plan.existing.Some? ==> plan.documentId in g && g[plan.documentId] == plan.existing.value)
       case _ => Stagings(g) == {}
  }

  /** A write is the whole unit of an ingest, its staging record, or one record of another kind. */
  ghost predicate WriteOk(g: Graph, added: seq<(Id, Body)>, then_: Then) {
    match then_
    case CommitIngest(plan) => added == [(plan.stagingId, Staging(plan.StagedIds()))] && plan.stagingId !in g
    case CleanStaging(plan) => plan.Ready(g) && added == plan.Unit()
    case _ =>
      |added| == 1 && !added[0].1.Staging? &&
      ((added[0].0 in g && g[added[0].0] == added[0].1)
       || ((added[0].1.Workspace? || Standalone(added[0].1)) && (added[0].0 in g ==> Standalone(g[added[0].0]))))
  }

  ghost predicate PcOk(g: Graph, pc: Pc, live: bool) {
    match pc
    case Encrypting(added, then_) => live ==> WriteOk(g, added, then_) && Settled(Extend(g, added), then_)
    case Putting(added, then_) => WriteOk(g, added, then_) && Settled(Extend(g, added), then_)
    case Deleting(ids, then_) =>
      Settled(g - ids, then_) && (then_.Recovering? || then_.RestoreExisting? ==> Core(g - ids) == Core(g))
    case Replacing(wrapping, records, loaded) =>
      && Readable(wrapping.dataKey, records) && Sound(View(wrapping.dataKey, records))
      && Migration.DecryptAll(wrapping.dataKey, records) == Some(loaded)
    case _ => true
  }

  /** No write of records is pending. */
  predicate AtRest(pc: Pc) {
    !pc.Encrypting? && !pc.Putting? && !pc.Deleting?
  }

  /** The operation got here without needing the vault's key. */
  predicate Keyless(pc: Pc) {
    pc.Queued? || pc.Loading? || pc.Checking? || pc.Deriving? || pc.Opening? || pc.Replacing?
  }

  ghost predicate MemoryOk(w: World) {
    match w.memory.key
    case None => w.memory.records == map[]
    case Some(key) => w.vault.Some? && key == KeyOf(w) && w.memory.records == Plaintext(w)
  }

  ghost predicate HeadOk(w: World, job: Job) {
    var live := job.epoch == w.memory.epoch;
    && PcOk(Plaintext(w), job.pc, live)
    && (!job.pc.Queued? && !live ==> w.memory.key.None?)
    && (!Keyless(job.pc) && live ==> w.memory.key.Some?)
    && (job.pc.Clearing? ==> w.memory.key.None?)
    && (job.pc.Rewriting? ==> w.vault.Some? && job.pc.wrapping.dataKey == KeyOf(w))
    && (w.memory.key.Some? && AtRest(job.pc) ==> Stagings(Plaintext(w)) == {})
    && (job.pc.Preparing? && live && job.operation.Ingest? ==> IsKind(Plaintext(w), job.operation.workspaceId, WorkspaceKind))
  }

  ghost predicate Inv(w: World) {
    && Readable(KeyOf(w), w.disk)
    && Sound(Plaintext(w))
    && MemoryOk(w)
    && (forall i :: 0 <= i < |w.queue| ==> w.queue[i].epoch <= w.memory.epoch)
    && (forall i :: 0 < i < |w.queue| ==> w.queue[i].pc == Queued)
    && (w.queue == [] && w.memory.key.Some? ==> Stagings(Plaintext(w)) == {})
    && (w.queue != [] ==> HeadOk(w, w.queue[0]))
  }

  /** deleteWorkspace is called with the id of a document, revision or chunk: see
      VaultGraph.DeletingWorkspaceKeepsGraph. Or an archive is imported whose own records are not
      sound, which no import checks. */
  ghost predicate Misused(w: World, e: Event) {
    && e.Advance? && w.queue != []
    && var job := w.queue[0];
       || (job.pc.Queued? && job.operation.DeleteWorkspace?
           && HeldByOthers(w.memory.records, job.operation.workspaceId))
       || (job.pc.Opening? && !Sound(View(job.pc.archive.wrapping.dataKey, job.pc.archive.records)))
  }
}
