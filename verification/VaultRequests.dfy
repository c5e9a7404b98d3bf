/** What each request has done once it is through: over every undisturbed run from a vault at rest, told
    by the fields of the records (packages/memory/src/vault.ts). */
module VaultRequests {
  import opened Prelude
  import opened Records
  import opened Storage
  import opened VaultGraph
  import opened VaultStore
  import opened Vault
  import opened VaultSafety
  import opened VaultPurge
  import Migration

  // What a request leaves.

  function WithoutDocument(g: Graph, d: Id): Graph {
    map id | id in g && !OfDocument(id, g[id], d) :: g[id]
  }

  function WithoutWorkspace(g: Graph, w: Id): Graph {
    map id | id in g && !InWorkspace(id, g[id], w) :: g[id]
  }

  /** The revocation is stored, and what derives from the grant's sources is gone. */
  function AfterRevocation(g: Graph, r: Id, revoked: int): Graph
    requires r in g && g[r].Grant?
  {
    var grant := Grant(g[r].workspaceId, g[r].sourceIds, g[r].expiresAt, revoked);
    map id | id in g && !DerivesFrom(g[id], g[r].sourceIds) :: if id == r then grant else g[id]
  }

  /** An ingest does nothing: there is no such workspace, the target is not a document of it, or the text
      is the one of its current revision. */
  predicate Skips(g: Graph, workspaceId: Id, target: Option<Id>, fingerprint: int) {
    || !(workspaceId in g && g[workspaceId].Workspace? && !g[workspaceId].deleted)
    || (target.Some? && target.value in g &&
        var body := g[target.value];
        || !(body.Document? && body.workspaceId == workspaceId && !body.deleted)
        || (body.currentRevisionId in g && g[body.currentRevisionId].Revision?
            && g[body.currentRevisionId].fingerprint == fingerprint))
  }

  function NewIds(p: Plan): seq<Id> {
    [p.revisionId] + p.chunkIds + p.embeddingIds
  }

  /** The ids of an ingest's revision, chunks and embeddings are new and all different. */
  ghost predicate AreNew(g: Graph, p: Plan) {
    && |p.embeddingIds| <= |p.chunkIds|
    && (forall i, j :: 0 <= i < j < |NewIds(p)| ==> NewIds(p)[i] != NewIds(p)[j])
    && (forall id :: id in NewIds(p) ==> id !in g && id != p.documentId)
  }

  /** The records have gained one revision of this text, with its chunks and their embeddings, of the
      target document if there is one and else of a new one, and are otherwise as they were. */
  ghost predicate Gained(g: Graph, h: Graph, workspaceId: Id, target: Option<Id>, fingerprint: int, p: Plan) {
    && AreNew(g, p) && (target.Some? ==> p.documentId == target.value) && (target.None? ==> p.documentId !in g)
    && h.Keys == g.Keys + {p.documentId} + (set id | id in NewIds(p))
    && (forall id :: id in g && id != p.documentId ==> h[id] == g[id])
    && h[p.documentId] == Document(workspaceId, Earlier(g, p.documentId) + [p.revisionId], p.revisionId, p.retentionUntil, false, p.content)
    && h[p.revisionId] == Revision(p.documentId, workspaceId, fingerprint, p.chunkIds, p.content)
    && (forall c :: c in p.chunkIds ==> h[c] == Chunk(p.documentId, p.revisionId, workspaceId, p.content))
    && (forall i :: 0 <= i < |p.embeddingIds| ==>
          h[p.embeddingIds[i]] == Embedding(p.chunkIds[i], p.documentId, p.revisionId, workspaceId, p.content))
  }

  function Earlier(g: Graph, d: Id): seq<Id> {
    if d in g && g[d].Document? then g[d].revisionIds else []
  }

  predicate SameStore(w: World, u: World) {
    u.vault == w.vault && u.disk == w.disk && u.memory == w.memory
  }

  predicate StaysOpen(w: World, u: World) {
    w.memory.key.Some? && u.vault == w.vault && u.memory.key == w.memory.key && u.memory.epoch == w.memory.epoch
  }

  /** The passphrase opens the archive, and its records decrypt. */
  ghost predicate Opens(archive: Archive, passphrase: nat) {
    passphrase == archive.wrapping.passphrase && Readable(archive.wrapping.dataKey, archive.records)
  }

  ghost predicate PurgedAt(times: set<int>, g: Graph, h: Graph) {
    exists t :: t in times && h == Retained(g, t)
  }

  /** The vault has been opened anew. */
  predicate Opened(w: World, u: World, wrapping: Wrapping) {
    u.vault == Some(wrapping) && u.memory.key == Some(wrapping.dataKey) && u.memory.epoch == w.memory.epoch + 1
  }

  /** The request does nothing to the vault at all. */
  ghost predicate Refused(w: World, op: Operation) {
    match op
    case Create(_) => w.vault.Some?
    case Unlock(passphrase) => w.vault.None? || passphrase != w.vault.value.passphrase
    case Import(archive, passphrase) => !Opens(archive, passphrase)
    case DeleteVault => false
    case Ingest(workspaceId, target, fingerprint) => w.memory.key.None? || Skips(Plaintext(w), workspaceId, target, fingerprint)
    case DeleteSource(d) => w.memory.key.None? || !IsKind(Plaintext(w), d, DocumentKind)
    case RevokeGrant(r, _) => w.memory.key.None? || !IsKind(Plaintext(w), r, GrantKind)
    case _ => w.memory.key.None?
  }

  /** What the request has done when it is through; `aborts` when it may have been cancelled. */
  ghost predicate Served(w: World, op: Operation, aborts: bool, times: set<int>, u: World) {
    var g, h := Plaintext(w), Plaintext(u);
    if Refused(w, op) then SameStore(w, u)
    else
      match op
      case Create(wrapping) => Opened(w, u, wrapping) && u.disk == []
      case Unlock(_) => Opened(w, u, w.vault.value) && PurgedAt(times, Core(g), h)
      case Import(archive, _) => Opened(w, u, archive.wrapping) && h == Core(View(archive.wrapping.dataKey, archive.records))
      case ChangePassphrase(passphrase) =>
        w.vault.Some? && u.vault == Some(Wrapping(passphrase, w.vault.value.dataKey)) && u.disk == w.disk && u.memory == w.memory
      case DeleteVault => u.vault == None && u.disk == [] && u.memory == Memory(None, map[], w.memory.epoch + 1)
      case Save(body) => StaysOpen(w, u) && exists id: Id :: id !in g && h == g[id := body]
      case Ingest(workspaceId, target, fingerprint) =>
        StaysOpen(w, u) && ((aborts && h == g) || exists p: Plan :: Gained(g, h, workspaceId, target, fingerprint, p))
      case DeleteSource(d) => StaysOpen(w, u) && h == WithoutDocument(g, d)
      case DeleteWorkspace(x) => StaysOpen(w, u) && h == WithoutWorkspace(g, x)
      case PurgeExpired => StaysOpen(w, u) && PurgedAt(times, g, h)
      case RevokeGrant(r, revoked) => StaysOpen(w, u) && h == AfterRevocation(g, r, revoked)
  }

  // Where it stands on the way.

  ghost predicate Planned(g: Graph, op: Operation, p: Plan)
    requires op.Ingest?
  {
    && PlanFor(g, op, p) && IsKind(g, op.workspaceId, WorkspaceKind) && TargetAvailable(g, op)
    && !Skips(g, op.workspaceId, op.target, op.fingerprint)
  }

  ghost predicate Writes(g: Graph, op: Operation, aborts: bool, h: Graph, added: seq<(Id, Body)>, then_: Then) {
    match op
    case Save(body) => then_ == Finish && h == g && |added| == 1 && added[0].0 !in g && added[0].1 == body
    case RevokeGrant(r, revoked) =>
      && h == g && IsKind(g, r, GrantKind) && then_ == DropDependents(set s | s in g[r].sourceIds)
      && added == [(r, Grant(g[r].workspaceId, g[r].sourceIds, g[r].expiresAt, revoked))]
    case Ingest(_, _, _) =>
      (match then_
       case CommitIngest(p) => Planned(g, op, p) && h == g && added == [(p.stagingId, Staging(p.StagedIds()))]
       case CleanStaging(p) => Planned(g, op, p) && h == g[p.stagingId := Staging(p.StagedIds())] && added == p.Unit()
       case Finish =>
         && aborts && !Skips(g, op.workspaceId, op.target, op.fingerprint) && h == g
         && |added| == 1 && added[0].0 in g && added[0].1 == g[added[0].0]
       case _ => false)
    case _ => false
  }

  /** What the records will be once the pending deletion is through. */
  ghost predicate Deletes(g: Graph, op: Operation, aborts: bool, times: set<int>, h: Graph, ids: set<Id>, then_: Then) {
    match op
    case Unlock(_) =>
      || (then_.Recovering? && then_.purges && Core(h - ids) == Core(g))
      || (exists t :: t in times && PendingPurge(Core(g), t, true, h, Deleting(ids, then_)))
    case Import(archive, _) =>
      then_.Recovering? && !then_.purges && Core(h - ids) == Core(View(archive.wrapping.dataKey, archive.records))
    case PurgeExpired => exists t :: t in times && PendingPurge(g, t, false, h, Deleting(ids, then_))
    case DeleteSource(d) => then_ == Finish && IsKind(g, d, DocumentKind) && h - ids == WithoutDocument(g, d)
    case DeleteWorkspace(x) => then_ == Finish && h - ids == WithoutWorkspace(g, x)
    case RevokeGrant(r, revoked) => then_ == Finish && IsKind(g, r, GrantKind) && h - ids == AfterRevocation(g, r, revoked)
    case Ingest(workspaceId, target, fingerprint) =>
      && !Skips(g, op.workspaceId, op.target, op.fingerprint)
      && (|| (then_ == Finish && exists p: Plan :: Gained(g, h - ids, workspaceId, target, fingerprint, p))
          || (aborts && then_.RestoreExisting? && Planned(g, op, then_.plan) && h - ids == g))
    case _ => false
  }

  ghost predicate At(w: World, op: Operation, aborts: bool, times: set<int>, u: World, pc: Pc) {
    var g, h := Plaintext(w), Plaintext(u);
    match pc
    case Queued => SameStore(w, u)
    case Checking(wrapping) => op == Create(wrapping) && SameStore(w, u)
    case Deriving(wrapping) => op == Create(wrapping) && SameStore(w, u) && w.vault.None?
    case Opening(archive, passphrase) => op == Import(archive, passphrase) && SameStore(w, u)
    case Replacing(wrapping, records, loaded) =>
      && SameStore(w, u)
      && (|| (op == Create(wrapping) && w.vault.None? && records == [])
          || (op.Import? && Opens(op.archive, op.passphrase) && wrapping == op.archive.wrapping && records == op.archive.records))
    case Rewrapping(passphrase) => op == ChangePassphrase(passphrase) && SameStore(w, u) && w.memory.key.Some?
    case Rewriting(wrapping) =>
      && op.ChangePassphrase? && SameStore(w, u) && w.memory.key.Some? && w.vault.Some?
      && wrapping == Wrapping(op.passphrase, w.vault.value.dataKey)
    case Clearing => op.DeleteVault? && u.vault == w.vault && u.disk == w.disk && u.memory == Memory(None, map[], w.memory.epoch + 1)
    case Loading => op.Unlock? && SameStore(w, u)
    case Preparing =>
      && op.Ingest? && SameStore(w, u) && w.memory.key.Some?
      && op.workspaceId in g && g[op.workspaceId].Workspace? && !g[op.workspaceId].deleted
    case Encrypting(added, then_) => StaysOpen(w, u) && Writes(g, op, aborts, h, added, then_)
    case Putting(added, then_) => StaysOpen(w, u) && Writes(g, op, aborts, h, added, then_)
    case Deleting(ids, then_) => Holds(w, op, u) && Deletes(g, op, aborts, times, h, ids, then_)
  }

  /** The vault is open: as it was, or on what the request has opened it. */
  ghost predicate Holds(w: World, op: Operation, u: World) {
    match op
    case Unlock(passphrase) => !Refused(w, op) && HasOpened(w, u, w.vault.value)
    case Import(archive, passphrase) => !Refused(w, op) && HasOpened(w, u, archive.wrapping)
    case _ => StaysOpen(w, u)
  }

  predicate HasOpened(w: World, u: World, wrapping: Wrapping) {
    u.vault == Some(wrapping) && u.memory.key == Some(wrapping.dataKey) && u.memory.epoch == w.memory.epoch
  }

  ghost predicate Underway(w: World, op: Operation, aborts: bool, times: set<int>, u: World) {
    && |u.queue| == 1 && u.queue[0].operation == op && (u.queue[0].aborted ==> aborts)
    && (u.queue[0].pc.Clearing? || u.queue[0].epoch == u.memory.epoch)
    && At(w, op, aborts, times, u, u.queue[0].pc)
  }

  /** Anywhere in the run of a request. */
  ghost predicate Midway(w: World, op: Operation, aborts: bool, times: set<int>, u: World) {
    if u.queue == [] then Served(w, op, aborts, times, u) else Underway(w, op, aborts, times, u)
  }

  /** What the vault itself does not check: see VaultSafety.ImportIsUnchecked and
      VaultGraph.DeletingWorkspaceKeepsGraph. */
  ghost predicate Proper(w: World, op: Operation) {
    && (op.DeleteWorkspace? ==> !HeldByOthers(w.memory.records, op.workspaceId))
    && (op.Import? ==> Sound(View(op.archive.wrapping.dataKey, op.archive.records)))
  }

  lemma StaysInv(w: World, op: Operation, aborts: bool, times: set<int>, u: World, c: Choice)
    requires Proper(w, op) && Inv(u) && u.queue != [] && Underway(w, op, aborts, times, u)
    ensures Inv(Step(u, c))
  {
    AdvanceKeepsInv(u, c);
  }

  // From request to first await.

  /** Standing still is no move at all. */
  lemma Resolved(u: World, outcome: Outcome)
    requires |u.queue| == 1
    ensures outcome.Disabled? ==> Resolve(u, u.queue[0], outcome) == u
    ensures outcome.Go? ==> Resolve(u, u.queue[0], outcome) == u.(queue := [u.queue[0].(pc := outcome.pc)])
    ensures outcome.Done? ==> Resolve(u, u.queue[0], outcome) ==
                                u.(queue := [], memory := if outcome.unlocked then u.memory.(epoch := u.memory.epoch + 1) else u.memory)
    ensures Abandon(u) == u.(queue := [])
  {
  }

  lemma WorkspaceLeaves(g: Graph, x: Id)
    ensures g - WorkspaceIds(g, x) == WithoutWorkspace(g, x)
  {
    SameKeysAndValues(g - WorkspaceIds(g, x), WithoutWorkspace(g, x));
  }

  lemma DocumentLeaves(g: Graph, d: Id)
    requires SourceGraph(g) && IsKind(g, d, DocumentKind)
    ensures g - SourceIds(g, d) == WithoutDocument(g, d)
  {
    SourceIdsExactly(g, d);
    SameKeysAndValues(g - SourceIds(g, d), WithoutDocument(g, d));
  }

  ghost predicate BeginOk(w: World, op: Operation, aborts: bool, times: set<int>, u: World, outcome: Outcome) {
    match outcome
    case Go(pc) => !pc.Queued? && !pc.Clearing? && At(w, op, aborts, times, u, pc)
    case Done(unlocked) => !unlocked && (Refused(w, op) || (op.Ingest? && aborts && w.memory.key.Some?))
    case Disabled => true
  }

  /** What a write to an open vault begins with. */
  lemma BeginsWrite(w: World, op: Operation, aborts: bool, times: set<int>, u: World, job: Job, c: Choice)
    requires w.memory.key.Some? && SameStore(w, u) && job.operation == op && (job.aborted ==> aborts)
    requires op.Save? || op.Ingest? || op.ChangePassphrase? || op.RevokeGrant?
    ensures BeginOk(w, op, aborts, times, u, BeginUnlocked(Plaintext(w), job, c))
  {
  }

  lemma BeginsDeletion(w: World, op: Operation, aborts: bool, times: set<int>, u: World, job: Job, c: Choice)
    requires w.memory.key.Some? && SourceGraph(Plaintext(w)) && SameStore(w, u) && job.operation == op
    requires op.DeleteSource? || op.DeleteWorkspace?
    ensures BeginOk(w, op, aborts, times, u, BeginUnlocked(Plaintext(w), job, c))
  {
    match op {
      case DeleteSource(d) =>
        if IsKind(Plaintext(w), d, DocumentKind) {
          DocumentLeaves(Plaintext(w), d);
        }
      case DeleteWorkspace(x) => WorkspaceLeaves(Plaintext(w), x);
    }
  }

  lemma BeginsPurge(w: World, aborts: bool, times: set<int>, u: World, job: Job, c: Choice)
    requires w.memory.key.Some? && SourceGraph(Plaintext(w)) && SameStore(w, u) && job.operation == PurgeExpired && c.now in times
    ensures BeginOk(w, PurgeExpired, aborts, times, u, BeginUnlocked(Plaintext(w), job, c))
  {
    var g := Plaintext(w);
    WorkspacesBegin(g, c.now);
    PurgeStep(g, c.now, g, Workspaces(ExpiredWorkspaces(g, c.now)), false, c);
  }

  lemma Begins(w: World, op: Operation, aborts: bool, times: set<int>, u: World, job: Job, c: Choice)
    requires Inv(w) && SameStore(w, u) && job.operation == op && (job.aborted ==> aborts) && c.now in times
    requires !op.DeleteVault?
    ensures BeginOk(w, op, aborts, times, u, Begin(u.memory, job, c))
  {
    if w.memory.key.Some? {
      assert u.memory.records == Plaintext(w);
      match op {
        case DeleteSource(_) => BeginsDeletion(w, op, aborts, times, u, job, c);
        case DeleteWorkspace(_) => BeginsDeletion(w, op, aborts, times, u, job, c);
        case PurgeExpired => BeginsPurge(w, aborts, times, u, job, c);
        case Save(_) => BeginsWrite(w, op, aborts, times, u, job, c);
        case Ingest(_, _, _) => BeginsWrite(w, op, aborts, times, u, job, c);
        case ChangePassphrase(_) => BeginsWrite(w, op, aborts, times, u, job, c);
        case RevokeGrant(_, _) => BeginsWrite(w, op, aborts, times, u, job, c);
        case _ =>
      }
    }
  }

  lemma QueuedGoesOn(w: World, op: Operation, aborts: bool, times: set<int>, u: World, c: Choice)
    requires Inv(w) && Underway(w, op, aborts, times, u) && u.queue[0].pc.Queued? && c.now in times
    ensures Midway(w, op, aborts, times, Step(u, c))
  {
    if op.DeleteVault? {
      assert Step(u, c) == u.(memory := Locked(u.memory), queue := [u.queue[0].(pc := Clearing)]);
    } else {
      Begins(w, op, aborts, times, u, u.queue[0], c);
      BegunGoesOn(w, op, aborts, times, u, Begin(u.memory, u.queue[0], c));
    }
  }

  lemma BegunGoesOn(w: World, op: Operation, aborts: bool, times: set<int>, u: World, outcome: Outcome)
    requires Underway(w, op, aborts, times, u) && u.queue[0].pc.Queued? && !op.DeleteVault?
    requires BeginOk(w, op, aborts, times, u, outcome)
    ensures Midway(w, op, aborts, times, Resolve(u, u.queue[0], outcome))
  {
    if outcome.Done? {
      NothingDone(w, op, aborts, times, u);
    }
    GoesOn(w, op, aborts, times, u, u, outcome);
  }

  /** A request that was refused, or an ingest cancelled before it wrote. */
  lemma NothingDone(w: World, op: Operation, aborts: bool, times: set<int>, u: World)
    requires SameStore(w, u) && (Refused(w, op) || (op.Ingest? && aborts && w.memory.key.Some?))
    ensures Served(w, op, aborts, times, u.(queue := []))
  {
    assert Plaintext(u.(queue := [])) == Plaintext(w);
  }

  /** The world a request that is through leaves. */
  function Through(stored: World, unlocked: bool): World {
    stored.(queue := [], memory := if unlocked then stored.memory.(epoch := stored.memory.epoch + 1) else stored.memory)
  }

  /** An outcome carried out over what has been stored. */
  lemma GoesOn(w: World, op: Operation, aborts: bool, times: set<int>, u: World, stored: World, outcome: Outcome)
    requires Underway(w, op, aborts, times, u) && stored.queue == u.queue && u.queue[0].epoch == stored.memory.epoch
    requires match outcome
             case Go(pc) => !pc.Clearing? && At(w, op, aborts, times, stored, pc)
             case Done(unlocked) => Served(w, op, aborts, times, Through(stored, unlocked))
             case Disabled => stored == u
    ensures Midway(w, op, aborts, times, Resolve(stored, u.queue[0], outcome))
  {
    Resolved(stored, outcome);
    if outcome.Go? {
      AtAnyQueue(w, op, aborts, times, stored, [u.queue[0].(pc := outcome.pc)], outcome.pc);
    }
  }

  lemma AtAnyQueue(w: World, op: Operation, aborts: bool, times: set<int>, u: World, queue: seq<Job>, pc: Pc)
    ensures At(w, op, aborts, times, u, pc) == At(w, op, aborts, times, u.(queue := queue), pc)
  {
    assert Plaintext(u) == Plaintext(u.(queue := queue));
  }

  // Headers, and the loading of a store.

  lemma HeaderGoesOn(w: World, op: Operation, aborts: bool, times: set<int>, u: World, c: Choice)
    requires Underway(w, op, aborts, times, u) && (w.memory.key.Some? ==> w.vault.Some?)
    requires var pc := u.queue[0].pc;
             pc.Checking? || pc.Deriving? || pc.Rewrapping? || pc.Rewriting? || pc.Clearing?
    ensures Midway(w, op, aborts, times, Step(u, c))
  {
  }

  lemma OpeningGoesOn(w: World, op: Operation, aborts: bool, times: set<int>, u: World, c: Choice)
    requires Underway(w, op, aborts, times, u) && u.queue[0].pc.Opening?
    ensures Midway(w, op, aborts, times, Step(u, c))
  {
    var archive := op.archive;
    if Opens(archive, op.passphrase) {
      LoadingIsViewing(archive.wrapping.dataKey, archive.records);
      var loaded := Migration.DecryptAll(archive.wrapping.dataKey, archive.records).value;
      GoesOn(w, op, aborts, times, u, u, Go(Replacing(archive.wrapping, archive.records, loaded)));
    } else {
      NothingDone(w, op, aborts, times, u);
    }
  }

  /** Each step of the recovery leaves the records other than staging records as they are, and the purge
      that follows begins over them. */
  lemma RecoveryStep(h: Graph, purges: bool, c: Choice)
    requires Sound(h)
    ensures match NextRecovery(h, Stagings(h), purges, c)
            case Go(pc) =>
              && pc.Deleting?
              && (|| (pc.then_.Recovering? && pc.then_.purges == purges && Core(h - pc.ids) == Core(h))
                  || (purges && PendingPurge(Core(h), c.now, true, h, pc)))
            case Done(unlocked) => unlocked && !purges && Core(h) == h
            case Disabled => true
  {
    if Stagings(h) == {} {
      assert forall id :: id in h ==> id !in Stagings(h);
      assert Core(h) == h;
      if purges {
        WorkspacesBegin(h, c.now);
        PurgeStep(h, c.now, h, Workspaces(ExpiredWorkspaces(h, c.now)), true, c);
      }
    } else if c.next in Stagings(h) {
      RecoverOne(h, c.next);
    }
  }

  /** A store just loaded, and its recovery. */
  lemma LoadedGoesOn(w: World, op: Operation, aborts: bool, times: set<int>, u: World, stored: World, c: Choice)
    requires Underway(w, op, aborts, times, u) && stored.queue == u.queue && u.queue[0].epoch == stored.memory.epoch
    requires (op.Unlock? || op.Import?) && !Refused(w, op) && c.now in times
    requires Holds(w, op, stored) && stored.memory.records == Plaintext(stored) && Sound(Plaintext(stored))
    requires Core(Plaintext(stored)) == if op.Unlock? then Core(Plaintext(w)) else Core(View(op.archive.wrapping.dataKey, op.archive.records))
    ensures var h := Plaintext(stored);
            var outcome := NextRecovery(h, Stagings(h), op.Unlock?, c);
            outcome.Disabled? || Midway(w, op, aborts, times, Resolve(stored, u.queue[0], outcome))
  {
    var h := Plaintext(stored);
    var outcome := NextRecovery(h, Stagings(h), op.Unlock?, c);
    RecoveryStep(h, op.Unlock?, c);
    if !outcome.Disabled? {
      if outcome.Done? {
        assert Plaintext(Through(stored, true)) == h;
      }
      GoesOn(w, op, aborts, times, u, stored, outcome);
    }
  }

  lemma LoadingGoesOn(w: World, op: Operation, aborts: bool, times: set<int>, u: World, c: Choice)
    requires Inv(u) && Underway(w, op, aborts, times, u) && u.queue[0].pc.Loading? && c.now in times
    ensures Midway(w, op, aborts, times, Step(u, c))
  {
    LoadingIsViewing(KeyOf(u), u.disk);
    if Refused(w, op) {
      NothingDone(w, op, aborts, times, u);
    } else {
      var loaded := Migration.DecryptAll(KeyOf(u), u.disk).value;
      var stored := u.(memory := Unlocked(u.memory, KeyOf(u), loaded));
      assert Plaintext(stored) == Plaintext(u) == Plaintext(w);
      LoadedGoesOn(w, op, aborts, times, u, stored, c);
    }
  }

  lemma ReplacingGoesOn(w: World, op: Operation, aborts: bool, times: set<int>, u: World, c: Choice)
    requires Inv(u) && Underway(w, op, aborts, times, u) && u.queue[0].pc.Replacing? && c.now in times
    ensures Midway(w, op, aborts, times, Step(u, c))
  {
    var pc := u.queue[0].pc;
    LoadingIsViewing(pc.wrapping.dataKey, pc.records);
    var stored := u.(vault := Some(pc.wrapping), disk := pc.records, memory := Unlocked(u.memory, pc.wrapping.dataKey, pc.loaded));
    assert Plaintext(stored) == View(pc.wrapping.dataKey, pc.records);
    if op.Create? {
      assert stored.memory.records == map[];
      GoesOn(w, op, aborts, times, u, stored, Done(true));
    } else {
      LoadedGoesOn(w, op, aborts, times, u, stored, c);
    }
  }

  // Ingests.

  lemma SkipsExactly(g: Graph, op: Operation)
    requires op.Ingest? && op.workspaceId in g && g[op.workspaceId].Workspace? && !g[op.workspaceId].deleted
    ensures Skips(g, op.workspaceId, op.target, op.fingerprint) <==> !TargetAvailable(g, op) || Deduplicated(g, op)
  {
  }

  lemma PreparingGoesOn(w: World, op: Operation, aborts: bool, times: set<int>, u: World, c: Choice)
    requires Underway(w, op, aborts, times, u) && u.queue[0].pc.Preparing? && u.memory.records == Plaintext(w)
    ensures Midway(w, op, aborts, times, Step(u, c))
  {
    var g := Plaintext(w);
    SkipsExactly(g, op);
    if u.queue[0].aborted || Skips(g, op.workspaceId, op.target, op.fingerprint) {
      NothingDone(w, op, aborts, times, u);
    } else if PlanFor(g, op, c.plan) {
      GoesOn(w, op, aborts, times, u, u, Go(Encrypting([(c.plan.stagingId, Staging(c.plan.StagedIds()))], CommitIngest(c.plan))));
    }
  }

  lemma PlannedIsReady(g: Graph, op: Operation, p: Plan)
    requires op.Ingest? && Planned(g, op, p)
    ensures p.Ready(g) && p.stagingId !in g
    ensures var staged := g[p.stagingId := Staging(p.StagedIds())]; p.Ready(staged)
  {
  }

  lemma StagedAreNew(g: Graph, p: Plan)
    requires p.FreshIds(g) && (p.existing.Some? ==> p.documentId in g)
    ensures AreNew(g, p) && p.stagingId !in NewIds(p)
  {
    var staged, n := p.StagedIds(), if p.existing.Some? then 0 else 1;
    assert staged[n..] == NewIds(p);
    forall i | 0 <= i < |NewIds(p)|
      ensures NewIds(p)[i] == staged[n + i]
    {
    }
    assert p.existing.None? ==> staged[0] == p.documentId;
    assert forall id :: id in NewIds(p) ==> id in staged;
  }

  /** The staged unit of a plan, once its staging record is gone, is what an ingest is to leave. */
  lemma UnitIsGained(g: Graph, op: Operation, p: Plan)
    requires op.Ingest? && Planned(g, op, p)
    ensures var staged := g[p.stagingId := Staging(p.StagedIds())];
            Gained(g, Extend(staged, p.Unit()) - {p.stagingId}, op.workspaceId, op.target, op.fingerprint, p)
  {
    var staged := g[p.stagingId := Staging(p.StagedIds())];
    PlannedIsReady(g, op, p);
    IngestedGraph(staged, p);
    StagedAreNew(g, p);
    IngestedKeysAre(g, Extend(staged, p.Unit()), p);
    IngestedIsGained(g, Extend(staged, p.Unit()), op, p);
  }

  lemma IngestedKeysAre(g: Graph, h: Graph, p: Plan)
    requires |p.embeddingIds| <= |p.chunkIds| && IsIngested(g[p.stagingId := Staging(p.StagedIds())], h, p)
    requires p.stagingId !in g && p.stagingId != p.documentId && p.stagingId !in NewIds(p)
    ensures (h - {p.stagingId}).Keys == g.Keys + {p.documentId} + (set id | id in NewIds(p))
  {
    forall id: Id
      ensures id in p.StagedIds() || id == p.documentId <==> id in NewIds(p) || id == p.documentId
    {
    }
  }

  lemma IngestedIsGained(g: Graph, h: Graph, op: Operation, p: Plan)
    requires op.Ingest? && PlanFor(g, op, p) && AreNew(g, p) && p.stagingId !in NewIds(p)
    requires p.existing.Some? ==> p.existing.value.Document?
    requires (h - {p.stagingId}).Keys == g.Keys + {p.documentId} + (set id | id in NewIds(p))
    requires IsIngested(g[p.stagingId := Staging(p.StagedIds())], h, p)
    ensures Gained(g, h - {p.stagingId}, op.workspaceId, op.target, op.fingerprint, p)
  {
    assert p.existing.None? ==> p.documentId in p.StagedIds();
    forall i | 0 <= i < |p.embeddingIds|
      ensures p.embeddingIds[i] in NewIds(p)
    {
    }
  }

  // Writes and deletions.

  lemma EncryptingGoesOn(w: World, op: Operation, aborts: bool, times: set<int>, u: World, c: Choice)
    requires Underway(w, op, aborts, times, u) && u.queue[0].pc.Encrypting?
    ensures Midway(w, op, aborts, times, Step(u, c))
  {
    GoesOn(w, op, aborts, times, u, u, Go(Putting(u.queue[0].pc.added, u.queue[0].pc.then_)));
  }

  /** What follows a write or a deletion that is through is as it should be. */
  ghost predicate FollowsOk(w: World, op: Operation, aborts: bool, times: set<int>, stored: World, outcome: Outcome) {
    match outcome
    case Go(pc) => !pc.Clearing? && At(w, op, aborts, times, stored, pc)
    case Done(unlocked) => Served(w, op, aborts, times, Through(stored, unlocked))
    case Disabled => true
  }

  lemma SaveFollows(w: World, op: Operation, aborts: bool, times: set<int>, stored: World, job: Job, added: seq<(Id, Body)>, c: Choice)
    requires op.Save? && StaysOpen(w, stored) && Writes(Plaintext(w), op, aborts, Plaintext(w), added, Finish)
    requires Plaintext(stored) == Extend(Plaintext(w), added)
    ensures FollowsOk(w, op, aborts, times, stored, Continue(Plaintext(stored), job, Finish, c))
  {
    assert added == [(added[0].0, added[0].1)];
    ExtendOne(Plaintext(w), added[0].0, added[0].1);
    assert Plaintext(Through(stored, false)) == Plaintext(stored);
  }

  lemma RevocationLeaves(g: Graph, r: Id, revoked: int)
    requires IsKind(g, r, GrantKind)
    ensures var h := g[r := Grant(g[r].workspaceId, g[r].sourceIds, g[r].expiresAt, revoked)];
            h - DependentIds(h, set s | s in g[r].sourceIds) == AfterRevocation(g, r, revoked)
  {
    var h := g[r := Grant(g[r].workspaceId, g[r].sourceIds, g[r].expiresAt, revoked)];
    var sources := set s | s in g[r].sourceIds;
    forall id | id in h
      ensures id in DependentIds(h, sources) <==> DerivesFrom(g[id], g[r].sourceIds)
    {
      DependsIsDerives(h[id], g[r].sourceIds);
    }
    SameKeysAndValues(h - DependentIds(h, sources), AfterRevocation(g, r, revoked));
  }

  lemma RevokeFollows(w: World, op: Operation, aborts: bool, times: set<int>, stored: World, job: Job, added: seq<(Id, Body)>, then_: Then, c: Choice)
    requires op.RevokeGrant? && StaysOpen(w, stored) && Writes(Plaintext(w), op, aborts, Plaintext(w), added, then_)
    requires Plaintext(stored) == Extend(Plaintext(w), added)
    ensures FollowsOk(w, op, aborts, times, stored, Continue(Plaintext(stored), job, then_, c))
  {
    ExtendOne(Plaintext(w), added[0].0, added[0].1);
    RevocationLeaves(Plaintext(w), op.grantId, op.revoked);
  }

  lemma CompensationRestores(g: Graph, op: Operation, p: Plan)
    requires op.Ingest? && Planned(g, op, p)
    ensures g[p.stagingId := Staging(p.StagedIds())] - p.CompensatedIds() == g
  {
    PlannedIsReady(g, op, p);
    SameKeysAndValues(g[p.stagingId := Staging(p.StagedIds())] - p.CompensatedIds(), g);
  }

  lemma StageFollows(w: World, op: Operation, aborts: bool, times: set<int>, stored: World, job: Job, p: Plan, c: Choice)
    requires op.Ingest? && StaysOpen(w, stored) && Planned(Plaintext(w), op, p) && (job.aborted ==> aborts)
    requires Plaintext(stored) == Plaintext(w)[p.stagingId := Staging(p.StagedIds())]
    ensures FollowsOk(w, op, aborts, times, stored, Continue(Plaintext(stored), job, CommitIngest(p), c))
  {
    CompensationRestores(Plaintext(w), op, p);
  }

  lemma UnitFollows(w: World, op: Operation, aborts: bool, times: set<int>, stored: World, job: Job, p: Plan, c: Choice)
    requires op.Ingest? && StaysOpen(w, stored) && Planned(Plaintext(w), op, p)
    requires Plaintext(stored) == Extend(Plaintext(w)[p.stagingId := Staging(p.StagedIds())], p.Unit())
    ensures FollowsOk(w, op, aborts, times, stored, Continue(Plaintext(stored), job, CleanStaging(p), c))
  {
    UnitIsDeletedNext(Plaintext(w), op, aborts, times, p);
  }

  lemma UnitIsDeletedNext(g: Graph, op: Operation, aborts: bool, times: set<int>, p: Plan)
    requires op.Ingest? && Planned(g, op, p)
    ensures Deletes(g, op, aborts, times, Extend(g[p.stagingId := Staging(p.StagedIds())], p.Unit()), {p.stagingId}, Finish)
  {
    UnitIsGained(g, op, p);
  }

  lemma RestoredFollows(w: World, op: Operation, aborts: bool, times: set<int>, stored: World, job: Job, added: seq<(Id, Body)>, c: Choice)
    requires op.Ingest? && StaysOpen(w, stored) && Writes(Plaintext(w), op, aborts, Plaintext(w), added, Finish)
    requires Plaintext(stored) == Extend(Plaintext(w), added)
    ensures FollowsOk(w, op, aborts, times, stored, Continue(Plaintext(stored), job, Finish, c))
  {
    assert added == [(added[0].0, added[0].1)];
    ExtendOne(Plaintext(w), added[0].0, added[0].1);
    assert Plaintext(Through(stored, false)) == Plaintext(stored);
    assert Plaintext(stored) == Plaintext(w);
  }

  lemma WrittenFollows(w: World, op: Operation, aborts: bool, times: set<int>, h: Graph, stored: World, job: Job,
                       added: seq<(Id, Body)>, then_: Then, c: Choice)
    requires StaysOpen(w, stored) && Writes(Plaintext(w), op, aborts, h, added, then_) && (job.aborted ==> aborts)
    requires Plaintext(stored) == Extend(h, added)
    ensures FollowsOk(w, op, aborts, times, stored, Continue(Plaintext(stored), job, then_, c))
  {
    match op {
      case Save(_) => SaveFollows(w, op, aborts, times, stored, job, added, c);
      case RevokeGrant(_, _) => RevokeFollows(w, op, aborts, times, stored, job, added, then_, c);
      case Ingest(_, _, _) =>
        match then_ {
          case CommitIngest(p) =>
            ExtendOne(h, p.stagingId, Staging(p.StagedIds()));
            StageFollows(w, op, aborts, times, stored, job, p, c);
          case CleanStaging(p) => UnitFollows(w, op, aborts, times, stored, job, p, c);
          case Finish => RestoredFollows(w, op, aborts, times, stored, job, added, c);
        }
    }
  }

  lemma PurgeFollows(w: World, op: Operation, aborts: bool, times: set<int>, stored: World, job: Job, t: int, unlocking: bool,
                     h: Graph, ids: set<Id>, then_: Then, c: Choice)
    requires if unlocking then op.Unlock? && !Refused(w, op) else op.PurgeExpired?
    requires Holds(w, op, stored) && SourceGraph(Plaintext(stored)) && Plaintext(stored) == h - ids && t in times
    requires PendingPurge(if unlocking then Core(Plaintext(w)) else Plaintext(w), t, unlocking, h, Deleting(ids, then_))
    ensures FollowsOk(w, op, aborts, times, stored, Continue(Plaintext(stored), job, then_, c))
  {
    var g := if unlocking then Core(Plaintext(w)) else Plaintext(w);
    assert Plaintext(Through(stored, unlocking)) == Plaintext(stored);
    if then_.Purging? {
      PurgeStep(g, t, Plaintext(stored), then_.phase, unlocking, c);
    }
  }

  /** The recovery goes on, ends, or gives way to the purge. */
  lemma RecoveryFollows(w: World, op: Operation, aborts: bool, times: set<int>, stored: World, job: Job, then_: Then, c: Choice)
    requires (op.Unlock? || op.Import?) && !Refused(w, op) && Holds(w, op, stored) && c.now in times
    requires then_.Recovering? && then_.purges == op.Unlock? && Settled(Plaintext(stored), then_)
    requires Core(Plaintext(stored)) == if op.Unlock? then Core(Plaintext(w)) else Core(View(op.archive.wrapping.dataKey, op.archive.records))
    ensures FollowsOk(w, op, aborts, times, stored, Continue(Plaintext(stored), job, then_, c))
  {
    RecoveryStep(Plaintext(stored), op.Unlock?, c);
    assert Plaintext(Through(stored, true)) == Plaintext(stored);
  }

  lemma RestoreFollows(w: World, op: Operation, aborts: bool, times: set<int>, stored: World, job: Job, p: Plan, c: Choice)
    requires op.Ingest? && aborts && StaysOpen(w, stored) && Planned(Plaintext(w), op, p) && Plaintext(stored) == Plaintext(w)
    ensures FollowsOk(w, op, aborts, times, stored, Continue(Plaintext(stored), job, RestoreExisting(p), c))
  {
    assert Plaintext(Through(stored, false)) == Plaintext(stored);
  }

  lemma FinishFollows(w: World, op: Operation, aborts: bool, times: set<int>, h: Graph, stored: World, job: Job, ids: set<Id>, c: Choice)
    requires !op.Unlock? && !op.Import? && !op.PurgeExpired?
    requires StaysOpen(w, stored) && Deletes(Plaintext(w), op, aborts, times, h, ids, Finish) && Plaintext(stored) == h - ids
    ensures FollowsOk(w, op, aborts, times, stored, Continue(Plaintext(stored), job, Finish, c))
  {
    assert Plaintext(Through(stored, false)) == Plaintext(stored);
  }

  lemma DeletedFollows(w: World, op: Operation, aborts: bool, times: set<int>, h: Graph, stored: World, job: Job,
                       ids: set<Id>, then_: Then, c: Choice)
    requires Holds(w, op, stored) && Deletes(Plaintext(w), op, aborts, times, h, ids, then_) && c.now in times
    requires Plaintext(stored) == h - ids && Settled(Plaintext(stored), then_)
    ensures FollowsOk(w, op, aborts, times, stored, Continue(Plaintext(stored), job, then_, c))
  {
    if then_.Recovering? && (op.Unlock? || op.Import?) {
      RecoveryFollows(w, op, aborts, times, stored, job, then_, c);
    } else if op.Unlock? {
      var t :| t in times && PendingPurge(Core(Plaintext(w)), t, true, h, Deleting(ids, then_));
      PurgeFollows(w, op, aborts, times, stored, job, t, true, h, ids, then_, c);
    } else if op.PurgeExpired? {
      var t :| t in times && PendingPurge(Plaintext(w), t, false, h, Deleting(ids, then_));
      PurgeFollows(w, op, aborts, times, stored, job, t, false, h, ids, then_, c);
    } else if then_.RestoreExisting? {
      RestoreFollows(w, op, aborts, times, stored, job, then_.plan, c);
    } else {
      FinishFollows(w, op, aborts, times, h, stored, job, ids, c);
    }
  }

  lemma FollowingGoesOn(w: World, op: Operation, aborts: bool, times: set<int>, u: World, stored: World, outcome: Outcome)
    requires Underway(w, op, aborts, times, u) && stored.queue == u.queue && u.queue[0].epoch == stored.memory.epoch
    requires FollowsOk(w, op, aborts, times, stored, outcome)
    ensures outcome.Disabled? || Midway(w, op, aborts, times, Resolve(stored, u.queue[0], outcome))
  {
    if !outcome.Disabled? {
      GoesOn(w, op, aborts, times, u, stored, outcome);
    }
  }

  lemma PuttingGoesOn(w: World, op: Operation, aborts: bool, times: set<int>, u: World, c: Choice)
    requires Readable(KeyOf(u), u.disk) && u.memory.records == Plaintext(u)
    requires Underway(w, op, aborts, times, u) && u.queue[0].pc.Putting?
    ensures Midway(w, op, aborts, times, Step(u, c))
  {
    var job, pc := u.queue[0], u.queue[0].pc;
    StoringIsExtending(KeyOf(u), u.disk, pc.added, c.seeds);
    var stored := u.(disk := PutAll(u.disk, Sealing(KeyOf(u), pc.added, c.seeds)), memory := Saved(u.memory, pc.added));
    assert Plaintext(stored) == Extend(Plaintext(u), pc.added) == stored.memory.records;
    WrittenFollows(w, op, aborts, times, Plaintext(u), stored, job, pc.added, pc.then_, c);
    FollowingGoesOn(w, op, aborts, times, u, stored, Continue(stored.memory.records, job, pc.then_, c));
  }

  lemma DeletingGoesOn(w: World, op: Operation, aborts: bool, times: set<int>, u: World, c: Choice)
    requires Readable(KeyOf(u), u.disk) && u.memory.records == Plaintext(u) && c.now in times
    requires Underway(w, op, aborts, times, u) && u.queue[0].pc.Deleting?
    requires Settled(Plaintext(u) - u.queue[0].pc.ids, u.queue[0].pc.then_)
    ensures Midway(w, op, aborts, times, Step(u, c))
  {
    var job, pc := u.queue[0], u.queue[0].pc;
    RemovingIsForgetting(KeyOf(u), u.disk, pc.ids);
    var stored := u.(disk := Without(u.disk, pc.ids), memory := Deleted(u.memory, pc.ids));
    assert Plaintext(stored) == Plaintext(u) - pc.ids == stored.memory.records;
    DeletedFollows(w, op, aborts, times, Plaintext(u), stored, job, pc.ids, pc.then_, c);
    FollowingGoesOn(w, op, aborts, times, u, stored, Continue(stored.memory.records, job, pc.then_, c));
  }

  // Whole runs.

  lemma LoadGoesOn(w: World, op: Operation, aborts: bool, times: set<int>, u: World, c: Choice)
    requires Inv(u) && Underway(w, op, aborts, times, u) && c.now in times
    requires u.queue[0].pc.Loading? || u.queue[0].pc.Replacing? || u.queue[0].pc.Opening?
    ensures Midway(w, op, aborts, times, Step(u, c))
  {
    match u.queue[0].pc {
      case Loading => LoadingGoesOn(w, op, aborts, times, u, c);
      case Replacing(_, _, _) => ReplacingGoesOn(w, op, aborts, times, u, c);
      case Opening(_, _) => OpeningGoesOn(w, op, aborts, times, u, c);
    }
  }

  /** An open vault's memory is its store, and a pending deletion leaves what it should. */
  lemma OpenVault(w: World, op: Operation, aborts: bool, times: set<int>, u: World)
    requires Inv(u) && Underway(w, op, aborts, times, u)
    requires u.queue[0].pc.Preparing? || u.queue[0].pc.Putting? || u.queue[0].pc.Deleting?
    ensures u.memory.key.Some? && u.memory.records == Plaintext(u) && Readable(KeyOf(u), u.disk)
    ensures var pc := u.queue[0].pc; pc.Deleting? ==> Settled(Plaintext(u) - pc.ids, pc.then_)
    ensures u.queue[0].pc.Preparing? ==> Plaintext(u) == Plaintext(w)
  {
  }

  lemma WriteGoesOn(w: World, op: Operation, aborts: bool, times: set<int>, u: World, c: Choice)
    requires Inv(u) && Underway(w, op, aborts, times, u) && c.now in times
    requires var pc := u.queue[0].pc; pc.Preparing? || pc.Encrypting? || pc.Putting? || pc.Deleting?
    ensures Midway(w, op, aborts, times, Step(u, c))
  {
    if u.queue[0].pc.Encrypting? {
      EncryptingGoesOn(w, op, aborts, times, u, c);
    } else {
      OpenVault(w, op, aborts, times, u);
      match u.queue[0].pc {
        case Preparing => PreparingGoesOn(w, op, aborts, times, u, c);
        case Putting(_, _) => PuttingGoesOn(w, op, aborts, times, u, c);
        case Deleting(_, _) => DeletingGoesOn(w, op, aborts, times, u, c);
      }
    }
  }

  lemma StepGoesOn(w: World, op: Operation, aborts: bool, times: set<int>, u: World, c: Choice)
    requires Inv(w) && Inv(u) && Underway(w, op, aborts, times, u) && c.now in times
    ensures Midway(w, op, aborts, times, Step(u, c))
  {
    var pc := u.queue[0].pc;
    if pc.Queued? {
      QueuedGoesOn(w, op, aborts, times, u, c);
    } else if pc.Loading? || pc.Replacing? || pc.Opening? {
      LoadGoesOn(w, op, aborts, times, u, c);
    } else if pc.Preparing? || pc.Encrypting? || pc.Putting? || pc.Deleting? {
      WriteGoesOn(w, op, aborts, times, u, c);
    } else {
      HeaderGoesOn(w, op, aborts, times, u, c);
    }
  }

  /** Nothing happens but the request's own steps, at these times, and its cancellation if it may be. */
  ghost predicate Undisturbed(events: seq<Event>, aborts: bool, times: set<int>) {
    forall i :: 0 <= i < |events| ==>
      (events[i].Advance? && events[i].choice.now in times) || (aborts && events[i].Abort?)
  }

  lemma AbortGoesOn(w: World, op: Operation, times: set<int>, u: World, i: nat)
    requires Underway(w, op, true, times, u)
    ensures Midway(w, op, true, times, Apply(u, Abort(i)))
  {
    if i == 0 {
      AtAnyQueue(w, op, true, times, u, [u.queue[0].(aborted := true)], u.queue[0].pc);
      assert Apply(u, Abort(0)) == u.(queue := [u.queue[0].(aborted := true)]);
    }
  }

  lemma {:induction false} RunGoesOn(w: World, op: Operation, aborts: bool, times: set<int>, events: seq<Event>)
    requires Inv(w) && w.queue == [] && Proper(w, op) && Undisturbed(events, aborts, times)
    ensures var u := Run(Apply(w, Request(op)), events); Inv(u) && Midway(w, op, aborts, times, u)
  {
    if events == [] {
      RequestKeepsInv(w, op);
      Requested(w, op, aborts, times);
    } else {
      var n := |events| - 1;
      RunGoesOn(w, op, aborts, times, events[..n]);
      EventGoesOn(w, op, aborts, times, Run(Apply(w, Request(op)), events[..n]), events[n]);
    }
  }

  lemma Requested(w: World, op: Operation, aborts: bool, times: set<int>)
    requires w.queue == []
    ensures Underway(w, op, aborts, times, Apply(w, Request(op)))
  {
  }

  lemma EventGoesOn(w: World, op: Operation, aborts: bool, times: set<int>, u: World, e: Event)
    requires Inv(w) && Inv(u) && Proper(w, op) && Midway(w, op, aborts, times, u)
    requires (e.Advance? && e.choice.now in times) || (aborts && e.Abort?)
    ensures Inv(Apply(u, e)) && Midway(w, op, aborts, times, Apply(u, e))
  {
    if u.queue != [] {
      if e.Advance? {
        StaysInv(w, op, aborts, times, u, e.choice);
        StepGoesOn(w, op, aborts, times, u, e.choice);
      } else {
        AbortKeepsInv(u, e.job);
        AbortGoesOn(w, op, times, u, e.job);
      }
    }
  }

  /** A request to a vault at rest, undisturbed until it is through, has done exactly what it is for, and
      nothing at all when it is refused; memory and store agree. */
  lemma RequestIsServed(w: World, op: Operation, aborts: bool, times: set<int>, events: seq<Event>)
    requires Inv(w) && w.queue == [] && Proper(w, op) && Undisturbed(events, aborts, times)
    requires Run(Apply(w, Request(op)), events).queue == []
    ensures var u := Run(Apply(w, Request(op)), events);
            && Served(w, op, aborts, times, u)
            && (u.memory.key.Some? ==> u.memory.records == Plaintext(u)) && (u.memory.key.None? ==> u.memory.records == map[])
  {
    RunGoesOn(w, op, aborts, times, events);
  }

  // Cancelled ingests.

  /** Before the ingest has begun to write its unit, or on the way back. */
  predicate Uncommitted(pc: Pc) {
    match pc
    case Queued => true
    case Preparing => true
    case Encrypting(_, then_) => then_.CommitIngest? || then_.Finish?
    case Putting(_, then_) => then_.CommitIngest? || then_.Finish?
    case Deleting(_, then_) => then_.RestoreExisting?
    case _ => false
  }

  ghost predicate Withdrawn(w: World, op: Operation, times: set<int>, u: World) {
    if u.queue == [] then Plaintext(u) == Plaintext(w) && u.vault == w.vault && u.memory.key == w.memory.key
    else Underway(w, op, true, times, u) && u.queue[0].aborted && Uncommitted(u.queue[0].pc)
  }

  lemma WithdrawnBegins(w: World, op: Operation, times: set<int>, u: World, c: Choice)
    requires op.Ingest? && Underway(w, op, true, times, u) && u.queue[0].aborted
    requires u.queue[0].pc.Queued? || u.queue[0].pc.Preparing? || u.queue[0].pc.Encrypting?
    requires Uncommitted(u.queue[0].pc)
    ensures var v := Step(u, c);
            if v.queue == [] then SameStore(u, v) && SameStore(w, u)
            else v.queue[0].aborted && Uncommitted(v.queue[0].pc)
  {
  }

  ghost predicate StaysWithdrawn(w: World, v: World) {
    if v.queue == [] then Plaintext(v) == Plaintext(w) && v.vault == w.vault && v.memory.key == w.memory.key
    else v.queue[0].aborted && Uncommitted(v.queue[0].pc)
  }

  lemma WithdrawnPuts(w: World, op: Operation, times: set<int>, u: World, c: Choice)
    requires op.Ingest? && Underway(w, op, true, times, u) && u.queue[0].aborted && Uncommitted(u.queue[0].pc)
    requires Readable(KeyOf(u), u.disk) && u.memory.records == Plaintext(u) && u.queue[0].pc.Putting?
    ensures StaysWithdrawn(w, Step(u, c))
  {
    var pc := u.queue[0].pc;
    StoringIsExtending(KeyOf(u), u.disk, pc.added, c.seeds);
    if pc.then_.Finish? {
      assert pc.added == [(pc.added[0].0, pc.added[0].1)];
      ExtendOne(Plaintext(u), pc.added[0].0, pc.added[0].1);
    }
  }

  lemma WithdrawnDeletes(w: World, op: Operation, times: set<int>, u: World, c: Choice)
    requires op.Ingest? && Underway(w, op, true, times, u) && u.queue[0].aborted && Uncommitted(u.queue[0].pc)
    requires Readable(KeyOf(u), u.disk) && u.memory.records == Plaintext(u) && u.queue[0].pc.Deleting?
    ensures StaysWithdrawn(w, Step(u, c))
  {
    RemovingIsForgetting(KeyOf(u), u.disk, u.queue[0].pc.ids);
  }

  lemma WithdrawnStep(w: World, op: Operation, times: set<int>, u: World, c: Choice)
    requires Inv(u) && op.Ingest? && u.queue != [] && Withdrawn(w, op, times, u)
    ensures StaysWithdrawn(w, Step(u, c))
  {
    if u.queue[0].pc.Putting? || u.queue[0].pc.Deleting? {
      OpenVault(w, op, true, times, u);
      if u.queue[0].pc.Putting? {
        WithdrawnPuts(w, op, times, u, c);
      } else {
        WithdrawnDeletes(w, op, times, u, c);
      }
    } else {
      WithdrawnBegins(w, op, times, u, c);
      if Step(u, c).queue == [] {
        assert Plaintext(Step(u, c)) == Plaintext(w);
      }
    }
  }

  lemma WithdrawnAbort(w: World, op: Operation, times: set<int>, v: World, i: nat)
    requires v.queue != [] && Withdrawn(w, op, times, v) && Midway(w, op, true, times, Apply(v, Abort(i)))
    ensures Withdrawn(w, op, times, Apply(v, Abort(i)))
  {
  }

  lemma WithdrawnAdvance(w: World, op: Operation, times: set<int>, v: World, c: Choice)
    requires Inv(v) && op.Ingest? && v.queue != [] && Withdrawn(w, op, times, v) && Midway(w, op, true, times, Step(v, c))
    ensures Withdrawn(w, op, times, Step(v, c))
  {
    WithdrawnStep(w, op, times, v, c);
  }

  lemma WithdrawnEvent(w: World, op: Operation, times: set<int>, v: World, e: Event)
    requires Inv(w) && Inv(v) && op.Ingest? && Withdrawn(w, op, times, v)
    requires (e.Advance? && e.choice.now in times) || e.Abort?
    ensures Inv(Apply(v, e)) && Withdrawn(w, op, times, Apply(v, e))
  {
    if v.queue != [] {
      EventGoesOn(w, op, true, times, v, e);
      if e.Advance? {
        WithdrawnAdvance(w, op, times, v, e.choice);
      } else {
        WithdrawnAbort(w, op, times, v, e.job);
      }
    }
  }

  lemma WithdrawnAtOnce(w: World, op: Operation, times: set<int>, before: seq<Event>, u: World)
    requires Inv(w) && w.queue == [] && op.Ingest? && Undisturbed(before, true, times)
    requires u == Run(Apply(w, Request(op)), before) && u.queue != [] && Uncommitted(u.queue[0].pc)
    ensures Inv(Apply(u, Abort(0))) && Withdrawn(w, op, times, Apply(u, Abort(0)))
  {
    RunGoesOn(w, op, true, times, before);
    EventGoesOn(w, op, true, times, u, Abort(0));
  }

  lemma {:induction false} WithdrawnRun(w: World, op: Operation, times: set<int>, u: World, after: seq<Event>)
    requires Inv(w) && op.Ingest? && Undisturbed(after, true, times) && Inv(u) && Withdrawn(w, op, times, u)
    ensures Inv(Run(u, after)) && Withdrawn(w, op, times, Run(u, after))
  {
    if after != [] {
      var n := |after| - 1;
      WithdrawnRun(w, op, times, u, after[..n]);
      WithdrawnEvent(w, op, times, Run(u, after[..n]), after[n]);
    }
  }

  /** An ingest cancelled before it has begun to write its unit: once it is through, the records are those
      from before it, in the store and in memory. */
  lemma CancelledIngestLeavesNothing(w: World, op: Operation, times: set<int>, before: seq<Event>, after: seq<Event>)
    requires Inv(w) && w.queue == [] && op.Ingest? && Undisturbed(before, true, times) && Undisturbed(after, true, times)
    requires var u := Run(Apply(w, Request(op)), before); u.queue != [] && Uncommitted(u.queue[0].pc)
    ensures var v := Run(Apply(Run(Apply(w, Request(op)), before), Abort(0)), after);
            v.queue == [] ==> Plaintext(v) == Plaintext(w) && v.memory.key == w.memory.key && v.memory.records == w.memory.records
  {
    var u := Run(Apply(w, Request(op)), before);
    WithdrawnAtOnce(w, op, times, before, u);
    WithdrawnRun(w, op, times, Apply(u, Abort(0)), after);
  }
}
