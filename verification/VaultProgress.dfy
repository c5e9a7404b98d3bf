/** Every request gets through: from a vault at rest, whatever the clock and the randomness, some
    undisturbed run of it ends (packages/memory/src/vault.ts). */
module VaultProgress {
  import opened Prelude
  import opened Records
  import opened Storage
  import opened VaultGraph
  import opened VaultStore
  import opened Vault
  import opened VaultSafety
  import opened VaultPurge
  import opened VaultRequests
  import Migration

  // What is still to come.

  function After(then_: Then): nat {
    match then_
    case Recovering(_, _) => 9
    case Purging(Workspaces(_), _, _) => 8
    case Purging(Documents(_), _, _) => 7
    case Purging(Grants(_), _, _) => 6
    case Purging(Receipts, _, _) => 5
    case CommitIngest(_) => 4
    case CleanStaging(_) => 3
    case RestoreExisting(_) => 3
    case DropDependents(_) => 2
    case Finish => 1
    case FinishUnlock => 1
  }

  function Stage(pc: Pc): nat {
    match pc
    case Queued => 50
    case Checking(_) => 42
    case Deriving(_) => 41
    case Opening(_, _) => 41
    case Replacing(_, _, _) => 40
    case Rewrapping(_) => 41
    case Rewriting(_) => 40
    case Clearing => 40
    case Loading => 40
    case Preparing => 40
    case Encrypting(_, then_) => 3 * After(then_) + 2
    case Putting(_, then_) => 3 * After(then_) + 1
    case Deleting(_, then_) => 3 * After(then_)
  }

  function Todo(pc: Pc): nat {
    match pc
    case Deleting(_, Recovering(stages, _)) => |stages|
    case Deleting(_, Purging(Workspaces(todo), _, _)) => |todo|
    case Deleting(_, Purging(Documents(todo), _, _)) => |todo|
    case Deleting(_, Purging(Grants(todo), _, _)) => |todo|
    case _ => 0
  }

  predicate Sooner(pc: Pc, stage: nat, todo: nat) {
    Stage(pc) < stage || (Stage(pc) == stage && Todo(pc) < todo)
  }

  // What the surroundings can choose.

  lemma {:induction false} Bound(ids: set<Id>) returns (n: Id)
    ensures forall id :: id in ids ==> id < n
    decreases |ids|
  {
    if ids == {} {
      n := 0;
    } else {
      var id :| id in ids;
      var m := Bound(ids - {id});
      n := if id < m then m else id + 1;
      assert forall x :: x in ids ==> x == id || x in ids - {id};
    }
  }

  ghost predicate PurgeGoesOn(h: Graph, phase: Phase, cutoff: int, unlocking: bool, base: Choice, c: Choice) {
    && c.now == base.now
    && var outcome := NextPurge(h, phase, cutoff, unlocking, c);
       outcome.Go? && Sooner(outcome.pc, 3 * After(Purging(phase, cutoff, unlocking)), Remaining(phase))
  }

  function Remaining(phase: Phase): nat {
    match phase
    case Workspaces(todo) => |todo|
    case Documents(todo) => |todo|
    case Grants(todo) => |todo|
    case Receipts => 0
  }

  lemma GrantsCanGoOn(h: Graph, todo: set<Id>, cutoff: int, unlocking: bool, base: Choice) returns (c: Choice)
    ensures PurgeGoesOn(h, Grants(todo), cutoff, unlocking, base, c)
  {
    c := base;
    if todo != {} {
      var x :| x in todo;
      c := base.(next := x);
      GrantIsNext(h, todo, cutoff, unlocking, base, c);
    }
  }

  lemma GrantIsNext(h: Graph, todo: set<Id>, cutoff: int, unlocking: bool, base: Choice, c: Choice)
    requires c.next in todo && c.now == base.now
    ensures PurgeGoesOn(h, Grants(todo), cutoff, unlocking, base, c)
  {
    var then_ := Purging(Grants(todo - {c.next}), cutoff, unlocking);
    assert |todo - {c.next}| < |todo|;
    assert forall ids: set<Id> :: Sooner(Deleting(ids, then_), 18, |todo|);
  }

  lemma DocumentsCanGoOn(h: Graph, todo: set<Id>, cutoff: int, unlocking: bool, base: Choice) returns (c: Choice)
    ensures PurgeGoesOn(h, Documents(todo), cutoff, unlocking, base, c)
  {
    if todo == {} {
      c := GrantsCanGoOn(h, ExpiredGrants(h, cutoff), cutoff, unlocking, base);
    } else {
      var x :| x in todo;
      c := base.(next := x);
    }
  }

  lemma WorkspacesCanGoOn(h: Graph, todo: set<Id>, cutoff: int, unlocking: bool, base: Choice) returns (c: Choice)
    ensures PurgeGoesOn(h, Workspaces(todo), cutoff, unlocking, base, c)
  {
    if todo == {} {
      c := DocumentsCanGoOn(h, ExpiredDocuments(h, cutoff), cutoff, unlocking, base);
    } else {
      var x :| x in todo;
      c := base.(next := x);
    }
  }

  /** A purge with something left to do can do it. */
  lemma PurgeCanGoOn(h: Graph, phase: Phase, cutoff: int, unlocking: bool, base: Choice) returns (c: Choice)
    ensures PurgeGoesOn(h, phase, cutoff, unlocking, base, c)
  {
    match phase {
      case Workspaces(todo) => c := WorkspacesCanGoOn(h, todo, cutoff, unlocking, base);
      case Documents(todo) => c := DocumentsCanGoOn(h, todo, cutoff, unlocking, base);
      case Grants(todo) => c := GrantsCanGoOn(h, todo, cutoff, unlocking, base);
      case Receipts => c := base;
    }
  }

  lemma RecoveryCanGoOn(h: Graph, purges: bool, base: Choice) returns (c: Choice)
    ensures c.now == base.now
    ensures match NextRecovery(h, Stagings(h), purges, c)
            case Go(pc) => Sooner(pc, 27, |Stagings(h)|)
            case Done(_) => true
            case Disabled => false
  {
    c := base;
    if Stagings(h) == {} {
      if purges {
        c := PurgeCanGoOn(h, Workspaces(ExpiredWorkspaces(h, base.now)), base.now, true, base);
      }
    } else {
      var s :| s in Stagings(h);
      c := base.(next := s);
    }
  }

  lemma PlanCanBeMade(g: Graph, op: Operation, base: Choice) returns (c: Choice)
    requires op.Ingest? && TargetAvailable(g, op)
    ensures c.now == base.now && PlanFor(g, op, c.plan)
  {
    var n := Bound(g.Keys + if op.target.Some? then {op.target.value} else {});
    var d := if op.target.Some? then op.target.value else n;
    var plan := Plan(op.workspaceId, d, ExistingDocument(g, op), n + 1, [], [], n + 2, op.fingerprint, None, 0);
    c := base.(plan := plan);
  }

  /** A request the interface can make: no caller saves a part of an ingest. */
  predicate Makeable(op: Operation) {
    op.Save? ==> op.body.Workspace? || (Standalone(op.body) && !op.body.Staging?)
  }

  // One step nearer.

  ghost predicate Nearer(u: World, v: World)
    requires u.queue != []
  {
    v.queue == [] || Sooner(v.queue[0].pc, Stage(u.queue[0].pc), Todo(u.queue[0].pc))
  }

  lemma BeginCanGoOn(w: World, op: Operation, times: set<int>, u: World, base: Choice) returns (c: Choice)
    requires Underway(w, op, false, times, u) && u.queue[0].pc.Queued? && Makeable(op)
    ensures c.now == base.now && Nearer(u, Step(u, c))
  {
    c := base;
    var g := u.memory.records;
    if u.memory.key.Some? {
      if op.PurgeExpired? {
        c := PurgeCanGoOn(g, Workspaces(ExpiredWorkspaces(g, base.now)), base.now, false, base);
      } else if op.Save? {
        var n := Bound(g.Keys);
        c := base.(next := n);
      }
    }
    BeginIsNearer(u, c);
  }

  lemma BeginIsNearer(u: World, c: Choice)
    requires |u.queue| == 1 && u.queue[0].pc.Queued? && u.queue[0].epoch == u.memory.epoch
    requires u.queue[0].operation.DeleteVault? || BeginsWell(Begin(u.memory, u.queue[0], c))
    ensures Nearer(u, Step(u, c))
  {
  }

  predicate BeginsWell(outcome: Outcome) {
    !outcome.Disabled? && (outcome.Go? ==> Stage(outcome.pc) < 50)
  }

  lemma LoadCanGoOn(w: World, op: Operation, times: set<int>, u: World, base: Choice) returns (c: Choice)
    requires Inv(u) && Underway(w, op, false, times, u) && (u.queue[0].pc.Loading? || u.queue[0].pc.Replacing?)
    ensures c.now == base.now && Nearer(u, Step(u, c))
  {
    var pc := u.queue[0].pc;
    if pc.Loading? {
      LoadingIsViewing(KeyOf(u), u.disk);
      c := RecoveryCanGoOn(Plaintext(u), true, base);
    } else {
      LoadingIsViewing(pc.wrapping.dataKey, pc.records);
      c := RecoveryCanGoOn(View(pc.wrapping.dataKey, pc.records), false, base);
    }
  }

  lemma PrepareCanGoOn(w: World, op: Operation, times: set<int>, u: World, base: Choice) returns (c: Choice)
    requires Underway(w, op, false, times, u) && u.queue[0].pc.Preparing?
    ensures c.now == base.now && Nearer(u, Step(u, c))
  {
    c := base;
    if TargetAvailable(u.memory.records, op) {
      c := PlanCanBeMade(u.memory.records, op, base);
    }
  }

  /** What follows a write or a deletion comes sooner than it. */
  ghost predicate FollowsSooner(then_: Then, todo: nat, outcome: Outcome) {
    !outcome.Disabled? && (outcome.Go? ==> Sooner(outcome.pc, 3 * After(then_), todo))
  }

  lemma WrittenCanGoOn(g: Graph, op: Operation, h: Graph, added: seq<(Id, Body)>, then_: Then, k: Graph, job: Job, c: Choice)
    requires Writes(g, op, false, h, added, then_) && !job.aborted
    ensures FollowsSooner(then_, 0, Continue(k, job, then_, c))
  {
  }

  lemma DeletedCanGoOn(g: Graph, op: Operation, times: set<int>, h: Graph, ids: set<Id>, then_: Then, job: Job, base: Choice) returns (c: Choice)
    requires Deletes(g, op, false, times, h, ids, then_) && Settled(h - ids, then_)
    ensures c.now == base.now && FollowsSooner(then_, Todo(Deleting(ids, then_)), Continue(h - ids, job, then_, c))
  {
    c := base;
    if then_.Recovering? {
      c := RecoveryCanGoOn(h - ids, then_.purges, base);
    } else if then_.Purging? {
      c := PurgeCanGoOn(h - ids, then_.phase, then_.cutoff, then_.unlocking, base);
    }
  }

  lemma FollowingIsNearer(u: World, stored: World, outcome: Outcome)
    requires |u.queue| == 1 && stored.queue == u.queue && (u.queue[0].pc.Putting? || u.queue[0].pc.Deleting?)
    requires FollowsSooner(u.queue[0].pc.then_, Todo(u.queue[0].pc), outcome)
    ensures Nearer(u, Resolve(stored, u.queue[0], outcome))
  {
    Resolved(stored, outcome);
  }

  lemma PutCanGoOn(w: World, op: Operation, times: set<int>, u: World, c: Choice)
    requires Underway(w, op, false, times, u) && u.queue[0].pc.Putting?
    ensures Nearer(u, Step(u, c))
  {
    var job, pc := u.queue[0], u.queue[0].pc;
    var stored := u.(disk := PutAll(u.disk, Sealing(KeyOf(u), pc.added, c.seeds)), memory := Saved(u.memory, pc.added));
    WrittenCanGoOn(Plaintext(w), op, Plaintext(u), pc.added, pc.then_, stored.memory.records, job, c);
    FollowingIsNearer(u, stored, Continue(stored.memory.records, job, pc.then_, c));
  }

  lemma DeleteCanGoOn(w: World, op: Operation, times: set<int>, u: World, base: Choice) returns (c: Choice)
    requires Inv(u) && Underway(w, op, false, times, u) && u.queue[0].pc.Deleting?
    ensures c.now == base.now && Nearer(u, Step(u, c))
  {
    var job, pc := u.queue[0], u.queue[0].pc;
    OpenVault(w, op, false, times, u);
    c := DeletedCanGoOn(Plaintext(w), op, times, Plaintext(u), pc.ids, pc.then_, job, base);
    var stored := u.(disk := Without(u.disk, pc.ids), memory := Deleted(u.memory, pc.ids));
    FollowingIsNearer(u, stored, Continue(stored.memory.records, job, pc.then_, c));
  }

  lemma OtherCanGoOn(w: World, op: Operation, times: set<int>, u: World, c: Choice)
    requires Underway(w, op, false, times, u)
    requires var pc := u.queue[0].pc;
             !pc.Queued? && !pc.Loading? && !pc.Replacing? && !pc.Preparing? && !pc.Putting? && !pc.Deleting?
    ensures Nearer(u, Step(u, c))
  {
  }

  lemma CanGoOn(w: World, op: Operation, times: set<int>, u: World, base: Choice) returns (c: Choice)
    requires Inv(u) && Underway(w, op, false, times, u) && Makeable(op)
    ensures c.now == base.now && Nearer(u, Step(u, c))
  {
    var pc := u.queue[0].pc;
    c := base;
    if pc.Queued? {
      c := BeginCanGoOn(w, op, times, u, base);
    } else if pc.Loading? || pc.Replacing? {
      c := LoadCanGoOn(w, op, times, u, base);
    } else if pc.Preparing? {
      c := PrepareCanGoOn(w, op, times, u, base);
    } else if pc.Putting? {
      PutCanGoOn(w, op, times, u, base);
    } else if pc.Deleting? {
      c := DeleteCanGoOn(w, op, times, u, base);
    } else {
      OtherCanGoOn(w, op, times, u, base);
    }
  }

  // To the end.

  function StageOf(u: World): nat {
    if u.queue == [] then 0 else 1 + Stage(u.queue[0].pc)
  }

  function TodoOf(u: World): nat {
    if u.queue == [] then 0 else Todo(u.queue[0].pc)
  }

  lemma OneStepNearer(w: World, op: Operation, past: seq<Event>, base: Choice, u: World) returns (c: Choice)
    requires Inv(w) && w.queue == [] && Proper(w, op) && Makeable(op) && Undisturbed(past, false, {base.now})
    requires u == Run(Apply(w, Request(op)), past) && u.queue != []
    ensures c.now == base.now && Apply(u, Advance(c)) == Step(u, c) && Nearer(u, Step(u, c))
  {
    RunGoesOn(w, op, false, {base.now}, past);
    c := CanGoOn(w, op, {base.now}, u, base);
  }

  lemma {:induction false} GetsThrough(w: World, op: Operation, past: seq<Event>, base: Choice, u: World) returns (events: seq<Event>)
    requires Inv(w) && w.queue == [] && Proper(w, op) && Makeable(op) && Undisturbed(past, false, {base.now})
    requires u == Run(Apply(w, Request(op)), past)
    ensures Undisturbed(events, false, {base.now}) && Run(Apply(w, Request(op)), events).queue == []
    decreases StageOf(u), TodoOf(u)
  {
    events := past;
    if u.queue != [] {
      var c := OneStepNearer(w, op, past, base, u);
      RunSnoc(Apply(w, Request(op)), past, Advance(c));
      events := GetsThrough(w, op, past + [Advance(c)], base, Step(u, c));
    }
  }

  /** Every request the interface can make of a vault at rest gets through, whatever the time and the
      randomness: some undisturbed run ends with it served. */
  lemma RequestGetsThrough(w: World, op: Operation, base: Choice) returns (events: seq<Event>)
    requires Inv(w) && w.queue == [] && Proper(w, op) && Makeable(op)
    ensures Undisturbed(events, false, {base.now})
    ensures var u := Run(Apply(w, Request(op)), events); u.queue == [] && Served(w, op, false, {base.now}, u)
  {
    events := GetsThrough(w, op, [], base, Apply(w, Request(op)));
    RequestIsServed(w, op, false, {base.now}, events);
  }

  // The purge.

  /** A purge of an open vault, undisturbed and with the clock standing: the records it leaves are
      exactly those the rule retains, and nothing is left whose time has passed. */
  lemma PurgeIsExact(w: World, now: int, events: seq<Event>)
    requires Inv(w) && w.queue == [] && w.memory.key.Some? && Undisturbed(events, false, {now})
    requires Run(Apply(w, Request(PurgeExpired)), events).queue == []
    ensures var u := Run(Apply(w, Request(PurgeExpired)), events);
            && u.memory.records == Plaintext(u) == Retained(Plaintext(w), now) && u.memory.key == w.memory.key
            && forall id :: id in u.memory.records ==> !Past(u.memory.records[id], now)
  {
    RequestIsServed(w, PurgeExpired, false, {now}, events);
    NothingPastIsRetained(Plaintext(w), now);
  }

  /** And so does the purge of an unlock, over the records without what the recovery clears away. */
  lemma UnlockPurgesExactly(w: World, now: int, events: seq<Event>)
    requires Inv(w) && w.queue == [] && w.vault.Some? && Undisturbed(events, false, {now})
    requires Run(Apply(w, Request(Unlock(w.vault.value.passphrase))), events).queue == []
    ensures var u := Run(Apply(w, Request(Unlock(w.vault.value.passphrase))), events);
            && u.memory.records == Plaintext(u) == Retained(Core(Plaintext(w)), now)
            && u.memory.key == Some(w.vault.value.dataKey)
            && forall id :: id in u.memory.records ==> !Past(u.memory.records[id], now)
  {
    RequestIsServed(w, Unlock(w.vault.value.passphrase), false, {now}, events);
    NothingPastIsRetained(Core(Plaintext(w)), now);
  }
}
