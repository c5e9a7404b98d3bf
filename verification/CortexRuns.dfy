/** What the task lifecycle keeps over every interleaving. */
module CortexRuns {
  import opened Prelude
  import opened Cortex

  lemma InvocationsSnoc(log: seq<Entry>, e: Entry, id: string)
    ensures Invocations(log + [e], id) == Invocations(log, id) + if InvokesFor(e, id) then 1 else 0
  {
    assert (log + [e])[..|log|] == log;
  }

  lemma LogSnoc(log: seq<Entry>, e: Entry)
    requires LogOk(log) && EntryOk(log, e)
    ensures LogOk(log + [e])
  {
    var longer := log + [e];
    forall k | 0 <= k < |longer|
      ensures EntryOk(longer[..k], longer[k])
    {
      assert longer[..k] == log[..k];
      assert log[..|log|] == log;
    }
  }

  lemma BackedGrows(log: seq<Entry>, e: Entry, input: Proposal)
    requires Backed(log, input)
    ensures Backed(log + [e], input)
  {
    var p :| p in log && p.Proposed? && p.proposal.request == input.request && p.proposal.route == input.route;
    assert p in log + [e];
  }

  /** An operation that ends without calling an executor. */
  lemma LeaveOk(s: System, t: Ticket)
    requires Inv(s) && t in s.running
    ensures Inv(Leave(s, t))
  {
  }

  /** An entry other than an invocation or a return. */
  lemma NoteOk(s: System, e: Entry)
    requires Inv(s) && (e.Proposed? || e.Decided?)
    ensures Inv(s.(log := s.log + [e]))
  {
    var w := s.(log := s.log + [e]);
    LogSnoc(s.log, e);
    forall id
      ensures Invocations(w.log, id) == Invocations(s.log, id)
    {
      InvocationsSnoc(s.log, e, id);
    }
    forall t | t in w.running
      ensures RunningOk(w, t)
    {
      assert RunningOk(s, t);
      match s.running[t] {
        case AwaitCurrentEnvironment(input) => BackedGrows(s.log, e, input);
        case CompareRoutes(input, _) => BackedGrows(s.log, e, input);
        case _ =>
      }
    }
  }

  /** An operation that moves on to its next await, still before any executor. */
  lemma WaitOk(s: System, t: Ticket, pc: Pc)
    requires Inv(s) && t in s.running && IdOf(pc) == IdOf(s.running[t])
    requires Reserves(pc) ==> Reserves(s.running[t])
    requires RunningOk(Wait(s, t, pc), t)
    ensures Inv(Wait(s, t, pc))
  {
    RunningJoins(s, Wait(s, t, pc), t);
  }

  /** A finished proposal is stored. */
  lemma StoreOk(s: System, p: Proposal)
    requires Inv(s) && StoredOk(s.log, p) && p.request.id !in s.core.active
    ensures Inv(s.(core := s.core.(proposals := s.core.proposals[p.request.id := p])))
  {
    var w := s.(core := s.core.(proposals := s.core.proposals[p.request.id := p]));
    assert ControllersOk(w);
    assert ProposalsOk(w) by {
      forall u | u in w.running
        ensures RunningOk(w, u)
      {
        assert RunningOk(s, u);
      }
    }
  }

  lemma ProposedOk(s: System, t: Ticket, c: Choice)
    requires Inv(s) && t in s.running && s.running[t].AwaitFingerprint? && c.ok
    ensures Inv(Next(s, t, c))
  {
    var proposal := s.running[t].proposal;
    assert RunningOk(s, t);
    NoteOk(s, Proposed(proposal));
    var noted := s.(log := s.log + [Proposed(proposal)]);
    LeaveOk(noted, t);
    assert Proposed(proposal) in noted.log;
    StoreOk(Leave(noted, t), proposal);
  }

  /** The executor of a reserved request that has not run yet may be called. */
  lemma InvokeOk(s: System, e: Entry)
    requires Inv(s) && e.Invoked? && EntryOk(s.log, e)
    requires Invocations(s.log, e.request.id) == 0
    requires s.core.state != DisposedState ==> e.request.id in s.core.executed
    requires forall u :: u in s.running && Reserves(s.running[u]) ==> IdOf(s.running[u]) != e.request.id
    ensures Inv(s.(log := s.log + [e]))
  {
    var w := s.(log := s.log + [e]);
    LogSnoc(s.log, e);
    forall id
      ensures Invocations(w.log, id) == Invocations(s.log, id) + if id == e.request.id then 1 else 0
    {
      InvocationsSnoc(s.log, e, id);
    }
    forall u | u in w.running
      ensures RunningOk(w, u)
    {
      assert RunningOk(s, u);
      match s.running[u] {
        case AwaitCurrentEnvironment(input) => BackedGrows(s.log, e, input);
        case CompareRoutes(input, _) => BackedGrows(s.log, e, input);
        case _ =>
      }
    }
  }

  lemma InvokedOk(s: System, t: Ticket, c: Choice)
    requires Inv(s) && t in s.running && s.running[t].CompareRoutes? && c.ok
    requires var pc := s.running[t];
             pc.decided == pc.input.route && pc.input.route.kind != OnlineModel && pc.input.route.kind != Unavailable
    ensures Inv(Next(s, t, c))
  {
    var input := s.running[t].input;
    assert RunningOk(s, t);
    WaitOk(s, t, AwaitExecutor(input));
    InvokeOk(Wait(s, t, AwaitExecutor(input)), Invoked(t, input.request, input.route));
  }

  lemma ReturnedOk(s: System, t: Ticket, c: Choice)
    requires Inv(s) && t in s.running && s.running[t].AwaitExecutor? && c.ok && t !in s.core.aborted
    ensures Inv(Next(s, t, c))
  {
    LeaveOk(s, t);
    var left := Leave(s, t);
    var w := Next(s, t, c);
    var e := Returned(t);
    LogSnoc(s.log, e);
    forall id
      ensures Invocations(w.log, id) == Invocations(s.log, id)
    {
      InvocationsSnoc(s.log, e, id);
    }
    forall u | u in w.running
      ensures RunningOk(w, u)
    {
      assert RunningOk(left, u);
      match left.running[u] {
        case AwaitCurrentEnvironment(input) => BackedGrows(s.log, e, input);
        case CompareRoutes(input, _) => BackedGrows(s.log, e, input);
        case _ =>
      }
    }
  }

  lemma NextOk(s: System, t: Ticket, c: Choice)
    requires Inv(s) && t in s.running
    ensures Inv(Next(s, t, c))
  {
    LeaveOk(s, t);
    assert RunningOk(s, t);
    match s.running[t] {
      case AwaitEnvironment(request) =>
        if t !in s.core.aborted && c.route.Some? {
          WaitOk(s, t, AwaitFingerprint(Proposal(request, c.route.value, (request, c.route.value))));
        }
      case AwaitFingerprint(_) =>
        if c.ok {
          ProposedOk(s, t, c);
        }
      case CheckFingerprint(input, stored) =>
        if c.ok && (input.request, input.route) == stored.fingerprint && input.fingerprint == stored.fingerprint {
          assert Backed(s.log, input);
          WaitOk(s, t, AwaitCurrentEnvironment(input));
        }
      case AwaitCurrentEnvironment(input) =>
        if t !in s.core.aborted && c.route.Some? {
          DecidedOk(s, t, c.route.value);
        }
      case CompareRoutes(input, decided) =>
        if c.ok && decided == input.route && input.route.kind != OnlineModel && input.route.kind != Unavailable {
          InvokedOk(s, t, c);
        }
      case AwaitExecutor(_) =>
        if c.ok && t !in s.core.aborted {
          ReturnedOk(s, t, c);
        }
    }
  }

  lemma DecidedOk(s: System, t: Ticket, route: Route)
    requires Inv(s) && t in s.running && s.running[t].AwaitCurrentEnvironment?
    ensures Inv(Wait(s.(log := s.log + [Decided(t, route)]), t, CompareRoutes(s.running[t].input, route)))
  {
    var e := Decided(t, route);
    var noted := s.(log := s.log + [e]);
    var pc := CompareRoutes(s.running[t].input, route);
    NoteOk(s, e);
    DecidedRunningOk(s, t, route);
    WaitOk(noted, t, pc);
  }

  lemma DecidedRunningOk(s: System, t: Ticket, route: Route)
    requires t in s.running && s.running[t].AwaitCurrentEnvironment? && RunningOk(s, t)
    ensures RunningOk(Wait(s.(log := s.log + [Decided(t, route)]), t, CompareRoutes(s.running[t].input, route)), t)
  {
    var e := Decided(t, route);
    BackedGrows(s.log, e, s.running[t].input);
    assert e in s.log + [e];
  }

  /** The running operations keep their own conditions while the log and they themselves stay. */
  lemma RunningStays(s: System, w: System)
    requires Inv(s) && w.log == s.log
    requires forall t :: t in w.running ==> t in s.running && w.running[t] == s.running[t]
    ensures forall t :: t in w.running ==> RunningOk(w, t)
  {
    forall t | t in w.running
      ensures RunningOk(w, t)
    {
      assert RunningOk(s, t);
    }
  }

  lemma RunningJoins(s: System, w: System, t: Ticket)
    requires Inv(s) && w.log == s.log && w.running.Keys == s.running.Keys + {t} && RunningOk(w, t)
    requires forall u :: u in s.running && u != t ==> w.running[u] == s.running[u]
    ensures forall u :: u in w.running ==> RunningOk(w, u)
  {
    forall u | u in w.running
      ensures RunningOk(w, u)
    {
      if u != t {
        assert RunningOk(s, u);
      }
    }
  }

  lemma ProposeSignalledOk(s: System, t: Ticket, request: Request)
    requires Inv(s) && t !in s.tickets && MayPropose(s.core, request.id)
    ensures Inv(Apply(s, Propose(t, request, true)))
  {
    RunningStays(s, Apply(s, Propose(t, request, true)));
  }

  lemma ProposeRunningOk(s: System, t: Ticket, request: Request)
    requires Inv(s) && t !in s.tickets && MayPropose(s.core, request.id)
    ensures Inv(Apply(s, Propose(t, request, false)))
  {
    RunningJoins(s, Apply(s, Propose(t, request, false)), t);
    ProposeControllersOk(s, t, request);
    ProposeInvocationsOk(s, t, request);
    ProposeReturnsOk(s, t, request);
  }

  lemma ProposeControllersOk(s: System, t: Ticket, request: Request)
    requires Inv(s) && t !in s.tickets && MayPropose(s.core, request.id)
    ensures ControllersOk(Apply(s, Propose(t, request, false)))
  {
  }

  lemma ProposeInvocationsOk(s: System, t: Ticket, request: Request)
    requires Inv(s) && t !in s.tickets && MayPropose(s.core, request.id)
    ensures InvocationsOk(Apply(s, Propose(t, request, false)))
  {
  }

  lemma ProposeReturnsOk(s: System, t: Ticket, request: Request)
    requires Inv(s) && t !in s.tickets && MayPropose(s.core, request.id)
    ensures ReturnsOk(Apply(s, Propose(t, request, false)))
  {
  }

  lemma ProposeOk(s: System, t: Ticket, request: Request, signalled: bool)
    requires Inv(s)
    ensures Inv(Apply(s, Propose(t, request, signalled)))
  {
    if t !in s.tickets && MayPropose(s.core, request.id) {
      if signalled {
        ProposeSignalledOk(s, t, request);
      } else {
        ProposeRunningOk(s, t, request);
      }
    }
  }

  lemma ExecuteSignalledOk(s: System, t: Ticket, input: Proposal)
    requires Inv(s) && t !in s.tickets && MayExecute(s.core, input.request.id)
    ensures Inv(Apply(s, Execute(t, input, true)))
  {
    RunningStays(s, Apply(s, Execute(t, input, true)));
  }

  lemma ExecuteRunningOk(s: System, t: Ticket, input: Proposal)
    requires Inv(s) && t !in s.tickets && MayExecute(s.core, input.request.id)
    ensures Inv(Apply(s, Execute(t, input, false)))
  {
    var w := Apply(s, Execute(t, input, false));
    RunningJoins(s, w, t);
    ExecuteControllersOk(s, t, input);
    ExecuteInvocationsOk(s, t, input);
  }

  lemma ExecuteControllersOk(s: System, t: Ticket, input: Proposal)
    requires Inv(s) && t !in s.tickets && MayExecute(s.core, input.request.id)
    ensures ControllersOk(Apply(s, Execute(t, input, false)))
  {
  }

  lemma ExecuteInvocationsOk(s: System, t: Ticket, input: Proposal)
    requires InvocationsOk(s) && s.running.Keys <= s.tickets && t !in s.tickets && MayExecute(s.core, input.request.id)
    ensures InvocationsOk(Apply(s, Execute(t, input, false)))
  {
  }

  lemma ExecuteOk(s: System, t: Ticket, input: Proposal, signalled: bool)
    requires Inv(s)
    ensures Inv(Apply(s, Execute(t, input, signalled)))
  {
    if t !in s.tickets && MayExecute(s.core, input.request.id) {
      if signalled {
        ExecuteSignalledOk(s, t, input);
      } else {
        ExecuteRunningOk(s, t, input);
      }
    }
  }

  lemma AbortOk(s: System, more: set<Ticket>)
    requires Inv(s) && forall t :: t in more ==> t in s.running || s.core.initializing == Some(t)
    ensures Inv(s.(core := s.core.(aborted := s.core.aborted + more)))
  {
    var w := s.(core := s.core.(aborted := s.core.aborted + more));
    forall u | u in w.running
      ensures RunningOk(w, u)
    {
      assert RunningOk(s, u);
    }
  }

  lemma DisposeOk(s: System)
    requires Inv(s)
    ensures Inv(Apply(s, Dispose))
  {
    if s.core.state != DisposedState {
      var more := s.core.active.Values + if s.core.initializing.Some? then {s.core.initializing.value} else {};
      AbortOk(s, more);
      var w := Apply(s, Dispose);
      forall u | u in w.running
        ensures RunningOk(w, u)
      {
        assert RunningOk(s, u);
      }
    }
  }

  lemma EventOk(s: System, e: Event)
    requires Inv(s)
    ensures Inv(Apply(s, e))
  {
    match e {
      case Initialize(t) => InitializeOk(s, t);
      case InitializeDone(t, succeeded) => InitializeDoneOk(s, t, succeeded);
      case Propose(t, request, signalled) => ProposeOk(s, t, request, signalled);
      case Execute(t, input, signalled) => ExecuteOk(s, t, input, signalled);
      case Continue(t, choice) =>
        if t in s.running {
          NextOk(s, t, choice);
        }
      case Cancel(id) =>
        if id in s.core.active {
          AbortOk(s, {s.core.active[id]});
        }
      case Signal(t) => AbortOk(s, if t in s.running then {t} else {});
      case Dispose => DisposeOk(s);
    }
  }

  lemma InitializeOk(s: System, t: Ticket)
    requires Inv(s)
    ensures Inv(Apply(s, Initialize(t)))
  {
    RunningStays(s, Apply(s, Initialize(t)));
  }

  lemma ClearedOk(s: System)
    requires Inv(s)
    ensures Inv(s.(core := s.core.(initializing := None)))
  {
    RunningStays(s, s.(core := s.core.(initializing := None)));
  }

  lemma StateSetOk(s: System, state: Lifecycle)
    requires Inv(s) && s.core.state != DisposedState && state != DisposedState
    ensures Inv(s.(core := s.core.(state := state)))
  {
    RunningStays(s, s.(core := s.core.(state := state)));
  }

  lemma InitializeDoneOk(s: System, t: Ticket, succeeded: bool)
    requires Inv(s)
    ensures Inv(Apply(s, InitializeDone(t, succeeded)))
  {
    ClearedOk(s);
    var cleared := s.(core := s.core.(initializing := None));
    if s.core.state != DisposedState {
      StateSetOk(cleared, if succeeded then Ready else New);
    }
  }

  lemma {:induction false} LifecycleStaysSound(events: seq<Event>)
    ensures Inv(Run(events))
  {
    if events != [] {
      LifecycleStaysSound(events[..|events| - 1]);
      EventOk(Run(events[..|events| - 1]), events[|events| - 1]);
    }
  }

  /** An executor is invoked at most once per request id in the life of the instance, its disposal included. */
  lemma ExecutedAtMostOnce(events: seq<Event>, id: string)
    ensures Invocations(Run(events).log, id) <= 1
  {
    LifecycleStaysSound(events);
  }

  /** An executor runs only for a proposal the instance stored, on the very request and route of it,
      and only when the route decided afresh for this execution is that route and a local one. */
  lemma ExecutedAsProposed(events: seq<Event>, k: nat)
    requires k < |Run(events).log| && Run(events).log[k].Invoked?
    ensures EntryOk(Run(events).log[..k], Run(events).log[k])
  {
    LifecycleStaysSound(events);
  }

  /** An execution aborted before its executor finished never returns output. */
  lemma AbortedNeverReturns(events: seq<Event>, t: Ticket)
    requires t in Run(events).core.aborted
    ensures Returned(t) !in Run(events).log
  {
    LifecycleStaysSound(events);
  }

  lemma RunSnoc(events: seq<Event>, e: Event)
    ensures Run(events + [e]) == Apply(Run(events), e)
  {
    assert (events + [e])[..|events|] == events;
  }

  // What an execution comes to.

  predicate HasInvoked(log: seq<Entry>, t: Ticket) {
    exists k :: 0 <= k < |log| && log[k].Invoked? && log[k].ticket == t
  }

  /** Executors start for known operations, and one is under way exactly for each invoked operation
      that still runs. */
  ghost predicate ExecutorsOk(s: System) {
    && s.running.Keys <= s.tickets
    && (forall t :: HasInvoked(s.log, t) ==> t in s.tickets)
    && (forall t :: t in s.running ==> (HasInvoked(s.log, t) <==> s.running[t].AwaitExecutor?))
  }

  lemma HasInvokedSnoc(log: seq<Entry>, e: Entry, t: Ticket)
    ensures HasInvoked(log + [e], t) <==> HasInvoked(log, t) || (e.Invoked? && e.ticket == t)
  {
    var longer := log + [e];
    assert longer[|log|] == e;
    if HasInvoked(log, t) {
      var k :| 0 <= k < |log| && log[k].Invoked? && log[k].ticket == t;
      assert longer[k] == log[k];
    }
  }

  lemma ExecutorsNext(s: System, u: Ticket, c: Choice)
    requires ExecutorsOk(s) && u in s.running
    ensures ExecutorsOk(Next(s, u, c))
  {
    var w := Next(s, u, c);
    if w.log != s.log {
      var e := w.log[|s.log|];
      assert w.log == s.log + [e];
      forall t
        ensures HasInvoked(w.log, t) <==> HasInvoked(s.log, t) || (e.Invoked? && e.ticket == t)
      {
        HasInvokedSnoc(s.log, e, t);
      }
    }
  }

  lemma {:induction false} ExecutorsStayOk(events: seq<Event>)
    ensures ExecutorsOk(Run(events))
  {
    if events != [] {
      var s, e := Run(events[..|events| - 1]), events[|events| - 1];
      ExecutorsStayOk(events[..|events| - 1]);
      if e.Continue? && e.ticket in s.running {
        ExecutorsNext(s, e.ticket, e.choice);
      }
    }
  }

  /** In every run: once an operation's executor has been invoked, the operation's next step is its
      last, and it returns output exactly when the call succeeds and the operation is not aborted. */
  lemma InvokedReturnsExactly(events: seq<Event>, t: Ticket, c: Choice)
    requires t in Run(events).running && HasInvoked(Run(events).log, t)
    ensures var s, w := Run(events), Run(events + [Continue(t, c)]);
            && t !in w.running && IdOf(s.running[t]) !in w.core.active
            && w.log == s.log + (if c.ok && t !in s.core.aborted then [Returned(t)] else [])
  {
    ExecutorsStayOk(events);
    RunSnoc(events, Continue(t, c));
  }

  /** In every run: an execution that has not been aborted starts its executor, three steps after it
      began, exactly when its input carries the fingerprint of the stored proposal and is what that was
      made for, the route decided afresh is the proposed one, that route is local, and no call fails;
      otherwise it ends, and its request can be executed no more. */
  lemma ExecutesExactly(events: seq<Event>, t: Ticket, first: Choice, second: Choice, third: Choice)
    requires var s := Run(events); t in s.running && s.running[t].CheckFingerprint? && t !in s.core.aborted
    ensures var s := Run(events);
            var (input, stored) := (s.running[t].input, s.running[t].stored);
            var w := Run(events + [Continue(t, first)] + [Continue(t, second)] + [Continue(t, third)]);
            if && first.ok && (input.request, input.route) == stored.fingerprint == input.fingerprint
               && second.route == Some(input.route) && third.ok
               && (input.route.kind == Deterministic || input.route.kind == LocalModel)
            then w.log == s.log + [Decided(t, input.route), Invoked(t, input.request, input.route)] && t in w.running
            else t !in w.running && !HasInvoked(w.log, t)
  {
    ExecutorsStayOk(events);
    var one := events + [Continue(t, first)];
    var two := one + [Continue(t, second)];
    RunSnoc(events, Continue(t, first));
    RunSnoc(one, Continue(t, second));
    RunSnoc(two, Continue(t, third));
    var s, a, b := Run(events), Run(one), Run(two);
    ExecutesSteps(s, t, first, second, third);
  }

  lemma ExecutesSteps(s: System, t: Ticket, first: Choice, second: Choice, third: Choice)
    requires t in s.running && s.running[t].CheckFingerprint? && t !in s.core.aborted && !HasInvoked(s.log, t)
    ensures var (input, stored) := (s.running[t].input, s.running[t].stored);
            var w := Apply(Apply(Apply(s, Continue(t, first)), Continue(t, second)), Continue(t, third));
            if && first.ok && (input.request, input.route) == stored.fingerprint == input.fingerprint
               && second.route == Some(input.route) && third.ok
               && (input.route.kind == Deterministic || input.route.kind == LocalModel)
            then w.log == s.log + [Decided(t, input.route), Invoked(t, input.request, input.route)] && t in w.running
            else t !in w.running && !HasInvoked(w.log, t)
  {
    var input, stored := s.running[t].input, s.running[t].stored;
    var a := Apply(s, Continue(t, first));
    if first.ok && (input.request, input.route) == stored.fingerprint == input.fingerprint {
      assert a == Wait(s, t, AwaitCurrentEnvironment(input));
      var b := Apply(a, Continue(t, second));
      if second.route.Some? {
        HasInvokedSnoc(s.log, Decided(t, second.route.value), t);
        assert b == Wait(s.(log := s.log + [Decided(t, second.route.value)]), t, CompareRoutes(input, second.route.value));
      }
    }
  }

  /** In every run: a proposal is stored, two steps after it began, exactly when it was not aborted before
      its environment came, a route was decided, and the fingerprint could be computed; it holds that
      request and route. */
  lemma ProposesExactly(events: seq<Event>, t: Ticket, first: Choice, second: Choice)
    requires var s := Run(events); t in s.running && s.running[t].AwaitEnvironment?
    ensures var s, w := Run(events), Run(events + [Continue(t, first)] + [Continue(t, second)]);
            var request := s.running[t].request;
            && t !in w.running
            && (if t !in s.core.aborted && first.route.Some? && second.ok
                then var proposal := Proposal(request, first.route.value, (request, first.route.value));
                     w.log == s.log + [Proposed(proposal)] && w.core.proposals == s.core.proposals[request.id := proposal]
                else w.log == s.log && w.core.proposals == s.core.proposals)
  {
    var one := events + [Continue(t, first)];
    RunSnoc(events, Continue(t, first));
    RunSnoc(one, Continue(t, second));
    var s := Run(events);
    if t !in s.core.aborted && first.route.Some? {
      var request := s.running[t].request;
      var proposal := Proposal(request, first.route.value, (request, first.route.value));
      assert Run(one) == Wait(s, t, AwaitFingerprint(proposal));
    }
  }

  /** A caller's signal, and a cancellation of its request, abort a running operation of a live instance. */
  lemma RunningCanBeAborted(events: seq<Event>, t: Ticket)
    requires var s := Run(events); t in s.running && s.core.state != DisposedState
    ensures t in Run(events + [Signal(t)]).core.aborted
    ensures t in Run(events + [Cancel(IdOf(Run(events).running[t]))]).core.aborted
    ensures t in Run(events + [Dispose]).core.aborted
  {
    var s := Run(events);
    OwnsController(events, t);
    RunSnoc(events, Signal(t));
    RunSnoc(events, Cancel(IdOf(s.running[t])));
    RunSnoc(events, Dispose);
    ControllerIsAborted(s, t, IdOf(s.running[t]));
  }

  lemma ControllerIsAborted(s: System, t: Ticket, id: string)
    requires id in s.core.active && s.core.active[id] == t && s.core.state != DisposedState
    ensures t in Apply(s, Cancel(id)).core.aborted && t in Apply(s, Dispose).core.aborted
  {
    assert t in s.core.active.Values;
  }

  lemma OwnsController(events: seq<Event>, t: Ticket)
    requires var s := Run(events); t in s.running && s.core.state != DisposedState
    ensures var s := Run(events); IdOf(s.running[t]) in s.core.active && s.core.active[IdOf(s.running[t])] == t
  {
    LifecycleStaysSound(events);
  }

  /** One event of a disposed instance. */
  lemma DisposedStep(s: System, e: Event)
    requires s.core.state == DisposedState
    ensures Apply(s, e).core.state == DisposedState
    ensures Apply(s, e).running.Keys <= s.running.Keys
  {
  }

  /** Disposal is final: from then on, whatever happens, the instance stays disposed, no operation
      begins, and none is found to cancel. */
  lemma {:induction false} DisposedIsTerminal(events: seq<Event>, later: seq<Event>)
    requires Run(events).core.state == DisposedState
    ensures Run(events + later).core.state == DisposedState && Run(events + later).core.active == map[]
    ensures Run(events + later).running.Keys <= Run(events).running.Keys
    decreases |later|
  {
    DisposedStays(events, later);
    LifecycleStaysSound(events + later);
  }

  lemma {:induction false} DisposedStays(events: seq<Event>, later: seq<Event>)
    requires Run(events).core.state == DisposedState
    ensures Run(events + later).core.state == DisposedState
    ensures Run(events + later).running.Keys <= Run(events).running.Keys
    decreases |later|
  {
    if later == [] {
      assert events + later == events;
    } else {
      var last := |later| - 1;
      DisposedStays(events, later[..last]);
      assert events + later == events + later[..last] + [later[last]];
      RunSnoc(events + later[..last], later[last]);
      DisposedStep(Run(events + later[..last]), later[last]);
    }
  }

  // One gap: nothing checks the signal between the decision of the fresh route and the executor.

  /** The execution has had its last check of the signal before its executor, and nothing that is
      already decided will stop it. */
  predicate PastLastCheck(s: System, t: Ticket) {
    && t in s.running
    && var pc := s.running[t];
       pc.CompareRoutes? && pc.decided == pc.input.route
       && (pc.input.route.kind == Deterministic || pc.input.route.kind == LocalModel)
  }

  predicate InvokedSince(before: seq<Entry>, after: seq<Entry>, t: Ticket) {
    exists k :: |before| <= k < |after| && after[k].Invoked? && after[k].ticket == t
  }

  /** Aborted in time: the ticket is in use, so no later operation can have it. */
  predicate Stopped(s: System, t: Ticket) {
    t in s.core.aborted && t in s.tickets && !PastLastCheck(s, t)
  }

  lemma StoppedStep(s: System, e: Event, t: Ticket)
    requires Stopped(s, t)
    ensures Stopped(Apply(s, e), t)
    ensures s.log <= Apply(s, e).log && !InvokedSince(s.log, Apply(s, e).log, t)
  {
    if e.Continue? && e.ticket in s.running {
      StoppedNext(s, e.ticket, e.choice, t);
    }
  }

  lemma StoppedNext(s: System, u: Ticket, c: Choice, t: Ticket)
    requires Stopped(s, t) && u in s.running
    ensures Stopped(Next(s, u, c), t)
    ensures s.log <= Next(s, u, c).log && !InvokedSince(s.log, Next(s, u, c).log, t)
  {
  }

  lemma {:induction false} StoppedStays(events: seq<Event>, later: seq<Event>, t: Ticket)
    requires Stopped(Run(events), t)
    ensures Stopped(Run(events + later), t) && Run(events).log <= Run(events + later).log
    ensures !InvokedSince(Run(events).log, Run(events + later).log, t)
    decreases |later|
  {
    if later == [] {
      assert events + later == events;
    } else {
      var last := |later| - 1;
      StoppedStays(events, later[..last], t);
      assert events + later == events + later[..last] + [later[last]];
      RunSnoc(events + later[..last], later[last]);
      var s, w := Run(events + later[..last]), Run(events + later);
      StoppedStep(s, later[last], t);
      forall k | |Run(events).log| <= k < |w.log| && w.log[k].Invoked?
        ensures w.log[k].ticket != t
      {
        if k < |s.log| {
          assert s.log[k] == w.log[k];
        }
      }
    }
  }

  lemma {:induction false} AbortedAreTickets(events: seq<Event>)
    ensures Run(events).core.aborted <= Run(events).tickets
  {
    if events != [] {
      var before := events[..|events| - 1];
      AbortedAreTickets(before);
      LifecycleStaysSound(before);
      AbortedStep(Run(before), events[|events| - 1]);
    }
  }

  lemma AbortedStep(s: System, e: Event)
    requires ControllersOk(s) && s.core.aborted <= s.tickets
    ensures Apply(s, e).core.aborted <= Apply(s, e).tickets
  {
  }

  /** In any run, an aborted operation's executor can still start later exactly when the operation
      already stands past its last check, with the fresh route equal to the proposed local one. */
  lemma AbortedStillInvokesExactlyPastLastCheck(events: seq<Event>, t: Ticket)
    requires t in Run(events).core.aborted
    ensures PastLastCheck(Run(events), t) <==>
            exists later :: InvokedSince(Run(events).log, Run(events + later).log, t)
  {
    var s := Run(events);
    if PastLastCheck(s, t) {
      var e := Continue(t, Choice(None, true));
      RunSnoc(events, e);
      var w := Run(events + [e]);
      assert w.log[|s.log|].Invoked? && w.log[|s.log|].ticket == t;
      assert InvokedSince(s.log, w.log, t);
    } else {
      AbortedAreTickets(events);
      forall later
        ensures !InvokedSince(s.log, Run(events + later).log, t)
      {
        StoppedStays(events, later, t);
      }
    }
  }

  /** A run that reaches the gap: a request is proposed and executed, and cancelled while the
      fingerprints of its two routes are computed. */
  function CancelledWhileComparing(request: Request, route: Route): seq<Event> {
    var decides := Choice(Some(route), true);
    var proposal := Proposal(request, route, (request, route));
    [Initialize(0), InitializeDone(0, true),
     Propose(1, request, false), Continue(1, decides), Continue(1, decides),
     Execute(2, proposal, false), Continue(2, decides), Continue(2, decides),
     Cancel(request.id)]
  }

  lemma ProposedRun(request: Request, route: Route)
    ensures var s := Run(CancelledWhileComparing(request, route)[..5]);
            var proposal := Proposal(request, route, (request, route));
            s == System(Fresh.(state := Ready, proposals := map[request.id := proposal]), map[], {0, 1}, [Proposed(proposal)])
  {
    var events := CancelledWhileComparing(request, route);
    var proposal := Proposal(request, route, (request, route));
    assert events[..2] == [Initialize(0), InitializeDone(0, true)];
    RunSnoc([], Initialize(0));
    RunSnoc([Initialize(0)], InitializeDone(0, true));
    assert Run(events[..2]) == System(Fresh.(state := Ready), map[], {0}, []);
    RunSnoc(events[..2], events[2]);
    assert events[..3] == events[..2] + [events[2]];
    RunSnoc(events[..3], events[3]);
    assert events[..4] == events[..3] + [events[3]];
    assert Run(events[..4]).running == map[1 := AwaitFingerprint(proposal)];
    RunSnoc(events[..4], events[4]);
    assert events[..5] == events[..4] + [events[4]];
    assert Run(events[..5]).running == map[] && Run(events[..5]).core.active == map[];
  }

  /** The undisturbed life of a request: proposed, executed and answered. */
  function Undisturbed(request: Request, route: Route): seq<Event> {
    var decides := Choice(Some(route), true);
    var proposal := Proposal(request, route, (request, route));
    [Initialize(0), InitializeDone(0, true),
     Propose(1, request, false), Continue(1, decides), Continue(1, decides),
     Execute(2, proposal, false), Continue(2, decides), Continue(2, decides), Continue(2, decides), Continue(2, decides)]
  }

  /** It ends with the output of its one executor, for every request and local route. */
  lemma UndisturbedReturns(request: Request, route: Route)
    requires route.kind == Deterministic || route.kind == LocalModel
    ensures var s := Run(Undisturbed(request, route));
            var proposal := Proposal(request, route, (request, route));
            && s.log == [Proposed(proposal), Decided(2, route), Invoked(2, request, route), Returned(2)]
            && s.running == map[] && s.core.active == map[] && s.core.proposals == map[] && s.core.executed == {request.id}
  {
    var events, decides := Undisturbed(request, route), Choice(Some(route), true);
    var proposal := Proposal(request, route, (request, route));
    ProposedRun(request, route);
    assert events[..5] == CancelledWhileComparing(request, route)[..5];
    RunSnoc(events[..5], events[5]);
    assert events[..6] == events[..5] + [events[5]];
    var s := Run(events[..6]);
    assert s.running == map[2 := CheckFingerprint(proposal, proposal)];
    assert events[..9] == events[..6] + [Continue(2, decides)] + [Continue(2, decides)] + [Continue(2, decides)];
    UndisturbedInvokes(events[..6], request, route);
    RunSnoc(events[..9], events[9]);
    assert events == events[..9] + [events[9]];
  }

  lemma UndisturbedInvokes(events: seq<Event>, request: Request, route: Route)
    requires route.kind == Deterministic || route.kind == LocalModel
    requires var proposal := Proposal(request, route, (request, route));
             Run(events).running == map[2 := CheckFingerprint(proposal, proposal)] && 2 !in Run(events).core.aborted
    ensures var decides := Continue(2, Choice(Some(route), true));
            var proposal := Proposal(request, route, (request, route));
            var w := Run(events + [decides] + [decides] + [decides]);
            w == Run(events).(running := map[2 := AwaitExecutor(proposal)],
                              log := Run(events).log + [Decided(2, route), Invoked(2, request, route)])
  {
    var decides := Continue(2, Choice(Some(route), true));
    var proposal := Proposal(request, route, (request, route));
    RunSnoc(events, decides);
    RunSnoc(events + [decides], decides);
    RunSnoc(events + [decides] + [decides], decides);
    var s := Run(events);
    var a := s.(running := map[2 := AwaitCurrentEnvironment(proposal)]);
    CheckStep(s, request, route);
    DecideStep(a, request, route);
    InvokeStep(a.(running := map[2 := CompareRoutes(proposal, route)], log := s.log + [Decided(2, route)]), request, route);
    assert s.log + [Decided(2, route)] + [Invoked(2, request, route)] == s.log + [Decided(2, route), Invoked(2, request, route)];
  }

  lemma CheckStep(s: System, request: Request, route: Route)
    requires var proposal := Proposal(request, route, (request, route));
             s.running == map[2 := CheckFingerprint(proposal, proposal)]
    ensures var proposal := Proposal(request, route, (request, route));
            Apply(s, Continue(2, Choice(Some(route), true))) == s.(running := map[2 := AwaitCurrentEnvironment(proposal)])
  {
  }

  lemma DecideStep(s: System, request: Request, route: Route)
    requires s.running == map[2 := AwaitCurrentEnvironment(Proposal(request, route, (request, route)))] && 2 !in s.core.aborted
    ensures var proposal := Proposal(request, route, (request, route));
            Apply(s, Continue(2, Choice(Some(route), true))) ==
            s.(running := map[2 := CompareRoutes(proposal, route)], log := s.log + [Decided(2, route)])
  {
  }

  lemma InvokeStep(s: System, request: Request, route: Route)
    requires s.running == map[2 := CompareRoutes(Proposal(request, route, (request, route)), route)]
    requires route.kind == Deterministic || route.kind == LocalModel
    ensures var proposal := Proposal(request, route, (request, route));
            Apply(s, Continue(2, Choice(Some(route), true))) ==
            s.(running := map[2 := AwaitExecutor(proposal)], log := s.log + [Invoked(2, request, route)])
  {
  }

  /** The executor starts for the cancelled request, whatever the request and its local route. */
  lemma CancelledStillInvokes(request: Request, route: Route)
    requires route.kind == Deterministic || route.kind == LocalModel
    ensures var s := Run(CancelledWhileComparing(request, route) + [Continue(2, Choice(None, true))]);
            2 in s.core.aborted && s.log != [] && s.log[|s.log| - 1] == Invoked(2, request, route)
  {
    var events := CancelledWhileComparing(request, route);
    var proposal := Proposal(request, route, (request, route));
    ProposedRun(request, route);
    RunSnoc(events[..5], events[5]);
    assert events[..6] == events[..5] + [events[5]];
    assert Run(events[..6]).running == map[2 := CheckFingerprint(proposal, proposal)];
    RunSnoc(events[..6], events[6]);
    assert events[..7] == events[..6] + [events[6]];
    RunSnoc(events[..7], events[7]);
    assert events[..8] == events[..7] + [events[7]];
    assert Run(events[..8]).running == map[2 := CompareRoutes(proposal, route)];
    RunSnoc(events[..8], events[8]);
    assert events == events[..8] + [events[8]];
    RunSnoc(events, Continue(2, Choice(None, true)));
  }
}
