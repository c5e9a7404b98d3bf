/** The task lifecycle (packages/core/src/cortex.ts): propose and execute cut at their awaits, over
    every interleaving with cancellation and disposal. */
module Cortex {
  import opened Prelude

  datatype Lifecycle = New | Initializing | Ready | DisposedState

  datatype Request = Request(id: string, body: int)

  datatype RouteKind = Deterministic | LocalModel | OnlineModel | Unavailable

  datatype Route = Route(kind: RouteKind, details: int)

  /** The fingerprint of a request and a route is taken as injective: it is the pair itself. */
  datatype Proposal = Proposal(request: Request, route: Route, fingerprint: (Request, Route))

  type Ticket = nat

  /** The instance's fields. An abort controller is its operation's ticket; `aborted` holds those
      that have been aborted. */
  datatype Core = Core(state: Lifecycle, initializing: Option<Ticket>, proposals: map<string, Proposal>,
                       active: map<string, Ticket>, executed: set<string>, aborted: set<Ticket>)

  const Fresh := Core(New, None, map[], map[], {}, {})

  // The synchronous pieces.

  function Initialized(c: Core, t: Ticket): Core {
    if c.state == New && c.initializing.None? then c.(state := Initializing, initializing := Some(t)) else c
  }

  /** After the injected hook returned or threw. */
  function InitializationEnded(c: Core, t: Ticket, succeeded: bool): Core {
    var cleared := if c.initializing == Some(t) then c.(initializing := None) else c;
    if t in c.aborted || c.state == DisposedState then cleared
    else cleared.(state := if succeeded then Ready else New)
  }

  predicate MayPropose(c: Core, id: string) {
    c.state == Ready && id !in c.proposals && id !in c.active && id !in c.executed
  }

  predicate MayExecute(c: Core, id: string) {
    c.state == Ready && id in c.proposals && id !in c.executed
  }

  function Registered(c: Core, id: string, t: Ticket, signalled: bool): Core {
    c.(active := c.active[id := t], aborted := if signalled then c.aborted + {t} else c.aborted)
  }

  /** execute() reserves the request before its first await. */
  function Reserved(c: Core, id: string, t: Ticket, signalled: bool): Core {
    Registered(c.(executed := c.executed + {id}, proposals := c.proposals - {id}), id, t, signalled)
  }

  function Ended(c: Core, id: string): Core {
    c.(active := c.active - {id})
  }

  function CancelledCore(c: Core, id: string): Core {
    if id in c.active then c.(aborted := c.aborted + {c.active[id]}) else c
  }

  function DisposedCore(c: Core): Core {
    if c.state == DisposedState then c
    else
      c.(state := DisposedState, proposals := map[], active := map[], executed := {},
         aborted := c.aborted + c.active.Values + if c.initializing.Some? then {c.initializing.value} else {})
  }

  class CortexImpl {
    var state: Lifecycle
    var initializing: Option<Ticket>
    var proposals: map<string, Proposal>
    var active: map<string, Ticket>
    var executed: set<string>
    var aborted: set<Ticket>

    constructor ()
      ensures Value() == Fresh
    {
      state, initializing, proposals, active, executed, aborted := New, None, map[], map[], {}, {};
    }

    ghost function Value(): Core
      reads this
    {
      Core(state, initializing, proposals, active, executed, aborted)
    }

    method BeginInitialize(t: Ticket)
      modifies this
      ensures Value() == Initialized(old(Value()), t)
    {
      if state == New && initializing.None? {
        state := Initializing;
        initializing := Some(t);
      }
    }

    method EndInitialize(t: Ticket, succeeded: bool)
      modifies this
      ensures Value() == InitializationEnded(old(Value()), t, succeeded)
    {
      if t !in aborted && state != DisposedState {
        state := if succeeded then Ready else New;
      }
      if initializing == Some(t) {
        initializing := None;
      }
    }

    method BeginPropose(request: Request, t: Ticket, signalled: bool) returns (ok: bool)
      modifies this
      ensures ok <==> MayPropose(old(Value()), request.id)
      ensures Value() == if ok then Registered(old(Value()), request.id, t, signalled) else old(Value())
    {
      if state != Ready || request.id in proposals || request.id in active || request.id in executed {
        return false;
      }
      active := active[request.id := t];
      if signalled {
        aborted := aborted + {t};
      }
      return true;
    }

    method EndPropose(proposal: Proposal)
      modifies this
      ensures Value() == Ended(old(Value()).(proposals := old(proposals)[proposal.request.id := proposal]), proposal.request.id)
    {
      proposals := proposals[proposal.request.id := proposal];
      active := active - {proposal.request.id};
    }

    method BeginExecute(id: string, t: Ticket, signalled: bool) returns (stored: Option<Proposal>)
      modifies this
      ensures stored.Some? <==> MayExecute(old(Value()), id)
      ensures stored.Some? ==> stored.value == old(proposals)[id]
      ensures Value() == if stored.Some? then Reserved(old(Value()), id, t, signalled) else old(Value())
    {
      if state != Ready || id !in proposals || id in executed {
        return None;
      }
      stored := Some(proposals[id]);
      executed := executed + {id};
      proposals := proposals - {id};
      active := active[id := t];
      if signalled {
        aborted := aborted + {t};
      }
    }

    /** The finally block of propose and execute. */
    method End(id: string)
      modifies this
      ensures Value() == Ended(old(Value()), id)
    {
      active := active - {id};
    }

    method Cancel(id: string) returns (found: bool)
      modifies this
      ensures found <==> id in old(active)
      ensures Value() == CancelledCore(old(Value()), id)
    {
      if id !in active {
        return false;
      }
      aborted := aborted + {active[id]};
      return true;
    }

    method Dispose()
      modifies this
      ensures Value() == DisposedCore(old(Value()))
    {
      if state == DisposedState {
        return;
      }
      if initializing.Some? {
        aborted := aborted + {initializing.value};
      }
      ghost var before := aborted;
      var todo := active.Keys;
      while todo != {}
        invariant todo <= active.Keys
        invariant aborted == before + (set id | id in active.Keys - todo :: active[id])
        invariant state == old(state) && initializing == old(initializing) && active == old(active)
        decreases todo
      {
        var id :| id in todo;
        aborted := aborted + {active[id]};
        todo := todo - {id};
      }
      active := map[];
      proposals := map[];
      executed := {};
      state := DisposedState;
    }
  }

  // Operations in flight.

  datatype Pc =
    | AwaitEnvironment(request: Request)
    | AwaitFingerprint(proposal: Proposal)
    | CheckFingerprint(input: Proposal, stored: Proposal)
    | AwaitCurrentEnvironment(input: Proposal)
    | CompareRoutes(input: Proposal, decided: Route)
    | AwaitExecutor(input: Proposal)

  datatype Entry =
    | Proposed(proposal: Proposal)
    | Decided(ticket: Ticket, route: Route)
    | Invoked(ticket: Ticket, request: Request, route: Route)
    | Returned(ticket: Ticket)

  datatype System = System(core: Core, running: map<Ticket, Pc>, tickets: set<Ticket>, log: seq<Entry>)

  /** The route the router decides from the current environment, if that succeeds; and whether the
      pending call (fingerprint, executor lookup, executor, output check) succeeds. */
  datatype Choice = Choice(route: Option<Route>, ok: bool)

  datatype Event =
    | Initialize(ticket: Ticket)
    | InitializeDone(ticket: Ticket, succeeded: bool)
    | Propose(ticket: Ticket, request: Request, signalled: bool)
    | Execute(ticket: Ticket, input: Proposal, signalled: bool)
    | Continue(ticket: Ticket, choice: Choice)
    | Cancel(id: string)
    | Signal(ticket: Ticket)
    | Dispose

  function IdOf(pc: Pc): string {
    match pc
    case AwaitEnvironment(request) => request.id
    case AwaitFingerprint(proposal) => proposal.request.id
    case CheckFingerprint(input, _) => input.request.id
    case AwaitCurrentEnvironment(input) => input.request.id
    case CompareRoutes(input, _) => input.request.id
    case AwaitExecutor(input) => input.request.id
  }

  /** An operation throws or returns: its finally block runs. */
  function Leave(s: System, t: Ticket): System
    requires t in s.running
  {
    s.(running := s.running - {t}, core := Ended(s.core, IdOf(s.running[t])))
  }

  function Wait(s: System, t: Ticket, pc: Pc): System {
    s.(running := s.running[t := pc])
  }

  function Next(s: System, t: Ticket, c: Choice): System
    requires t in s.running
  {
    var aborted := t in s.core.aborted;
    match s.running[t]
    case AwaitEnvironment(request) =>
      if aborted || c.route.None? then Leave(s, t)
      else Wait(s, t, AwaitFingerprint(Proposal(request, c.route.value, (request, c.route.value))))
    case AwaitFingerprint(proposal) =>
      if !c.ok then Leave(s, t)
      else
        var left := Leave(s, t);
        left.(core := left.core.(proposals := s.core.proposals[proposal.request.id := proposal]),
              log := s.log + [Proposed(proposal)])
    case CheckFingerprint(input, stored) =>
      if !c.ok || (input.request, input.route) != stored.fingerprint || input.fingerprint != stored.fingerprint
      then Leave(s, t)
      else Wait(s, t, AwaitCurrentEnvironment(input))
    case AwaitCurrentEnvironment(input) =>
      if aborted || c.route.None? then Leave(s, t)
      else Wait(s.(log := s.log + [Decided(t, c.route.value)]), t, CompareRoutes(input, c.route.value))
    case CompareRoutes(input, decided) =>
      if !c.ok || decided != input.route || input.route.kind == OnlineModel || input.route.kind == Unavailable
      then Leave(s, t)
      else Wait(s.(log := s.log + [Invoked(t, input.request, input.route)]), t, AwaitExecutor(input))
    case AwaitExecutor(_) =>
      var left := Leave(s, t);
      if aborted || !c.ok then left else left.(log := s.log + [Returned(t)])
  }

  function Apply(s: System, e: Event): System {
    match e
    case Initialize(t) =>
      if t in s.tickets then s else s.(core := Initialized(s.core, t), tickets := s.tickets + {t})
    case InitializeDone(t, succeeded) =>
      if s.core.initializing != Some(t) then s else s.(core := InitializationEnded(s.core, t, succeeded))
    case Propose(t, request, signalled) =>
      if t in s.tickets || !MayPropose(s.core, request.id) then s
      else if signalled then
        s.(tickets := s.tickets + {t}, core := Ended(Registered(s.core, request.id, t, true), request.id))
      else
        s.(tickets := s.tickets + {t}, core := Registered(s.core, request.id, t, false),
           running := s.running[t := AwaitEnvironment(request)])
    case Execute(t, input, signalled) =>
      if t in s.tickets || !MayExecute(s.core, input.request.id) then s
      else if signalled then
        s.(tickets := s.tickets + {t}, core := Ended(Reserved(s.core, input.request.id, t, true), input.request.id))
      else
        s.(tickets := s.tickets + {t}, core := Reserved(s.core, input.request.id, t, false),
           running := s.running[t := CheckFingerprint(input, s.core.proposals[input.request.id])])
    case Continue(t, choice) => if t in s.running then Next(s, t, choice) else s
    case Cancel(id) => s.(core := CancelledCore(s.core, id))
    case Signal(t) => if t in s.running then s.(core := s.core.(aborted := s.core.aborted + {t})) else s
    case Dispose => s.(core := DisposedCore(s.core))
  }

  function Run(events: seq<Event>): System {
    if events == [] then System(Fresh, map[], {}, [])
    else Apply(Run(events[..|events| - 1]), events[|events| - 1])
  }

  // The invariant.

  predicate Reserves(pc: Pc) {
    pc.CheckFingerprint? || pc.AwaitCurrentEnvironment? || pc.CompareRoutes?
  }

  predicate InvokesFor(e: Entry, id: string) {
    e.Invoked? && e.request.id == id
  }

  function Invocations(log: seq<Entry>, id: string): nat {
    if log == [] then 0
    else Invocations(log[..|log| - 1], id) + if InvokesFor(log[|log| - 1], id) then 1 else 0
  }

  /** The operation has a stored proposal for exactly its request and route. */
  predicate Backed(log: seq<Entry>, input: Proposal) {
    exists p :: p in log && p.Proposed? && p.proposal.request == input.request && p.proposal.route == input.route
  }

  predicate StoredOk(log: seq<Entry>, p: Proposal) {
    Proposed(p) in log && p.fingerprint == (p.request, p.route)
  }

  ghost predicate RunningOk(s: System, t: Ticket)
    requires t in s.running
  {
    match s.running[t]
    case AwaitFingerprint(proposal) => proposal.fingerprint == (proposal.request, proposal.route)
    case CheckFingerprint(input, stored) => StoredOk(s.log, stored) && stored.request.id == input.request.id
    case AwaitCurrentEnvironment(input) => Backed(s.log, input)
    case CompareRoutes(input, decided) => Backed(s.log, input) && Decided(t, decided) in s.log
    case _ => true
  }

  /** Controllers: each running operation of a live instance owns the one under its request id. */
  ghost predicate ControllersOk(s: System) {
    && s.running.Keys <= s.tickets
    && (forall id :: id in s.core.active ==> s.core.active[id] in s.running && IdOf(s.running[s.core.active[id]]) == id)
    && (s.core.initializing.Some? ==> s.core.initializing.value in s.tickets && s.core.initializing.value !in s.running)
    && (if s.core.state == DisposedState then s.core.active == map[]
        else
          && (forall t :: t in s.running ==> IdOf(s.running[t]) in s.core.active && s.core.active[IdOf(s.running[t])] == t)
          && s.core.proposals.Keys !! s.core.active.Keys)
  }

  ghost predicate ProposalsOk(s: System) {
    && (forall id :: id in s.core.proposals ==> StoredOk(s.log, s.core.proposals[id]) && s.core.proposals[id].request.id == id)
    && (forall t :: t in s.running ==> RunningOk(s, t))
  }

  ghost predicate InvocationsOk(s: System) {
    && (forall id :: Invocations(s.log, id) <= 1)
    && (forall t :: t in s.running && Reserves(s.running[t]) ==> Invocations(s.log, IdOf(s.running[t])) == 0)
    && (forall t, u :: t in s.running && u in s.running && t != u && Reserves(s.running[t]) && Reserves(s.running[u]) ==>
          IdOf(s.running[t]) != IdOf(s.running[u]))
    && (s.core.state != DisposedState ==>
          && (forall t :: t in s.running && Reserves(s.running[t]) ==> IdOf(s.running[t]) in s.core.executed)
          && (forall id :: Invocations(s.log, id) >= 1 ==> id in s.core.executed))
  }

  ghost predicate ReturnsOk(s: System) {
    && (forall t :: Returned(t) in s.log ==> t !in s.core.aborted && t in s.tickets && t !in s.running)
    && (s.core.initializing.Some? ==> Returned(s.core.initializing.value) !in s.log)
  }

  /** An executor runs only for a stored proposal whose freshly decided route is the proposed one. */
  ghost predicate EntryOk(before: seq<Entry>, e: Entry) {
    e.Invoked? ==>
      && Decided(e.ticket, e.route) in before
      && (e.route.kind == Deterministic || e.route.kind == LocalModel)
      && exists p :: p in before && p.Proposed? && p.proposal.request == e.request && p.proposal.route == e.route
  }

  ghost predicate LogOk(log: seq<Entry>) {
    forall k :: 0 <= k < |log| ==> EntryOk(log[..k], log[k])
  }

  ghost predicate Inv(s: System) {
    ControllersOk(s) && ProposalsOk(s) && InvocationsOk(s) && ReturnsOk(s) && LogOk(s.log)
  }
}
