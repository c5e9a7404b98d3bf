/** The checkpointed workflow interpreter (packages/workflows/src/interpreter.ts): one run, started
    once and resumed any number of times, cut at every checkpoint save, review and dispatch. The log
    records what left the process. */
module Interpreter {
  import opened Prelude
  import opened References
  import opened Approvals

  datatype Effect = Read | LocalWrite | ExternalWrite

  datatype Idempotency = ReadOnly | Keyed | NoIdempotency

  datatype Descriptor = Descriptor(effect: Effect, idempotency: Idempotency)

  /** The fingerprint of the run, the plan, the step and the tool. */
  datatype Key = Key(runId: string, workflowId: string, plan: nat, stepId: string, tool: string)

  datatype ActiveStep = ActiveStep(stepId: string, effect: Effect, idempotency: Idempotency, key: Option<Key>)

  datatype RunState = Created | Running | Paused | Succeeded | FailedRun | Cancelled | OutcomeUnknown

  datatype Checkpoint = Checkpoint(state: RunState, next: nat, values: Values, active: Option<ActiveStep>)

  /** A validated workflow and what the interpreter was built with. */
  datatype Setup = Setup(runId: string, workflowId: string, plan: nat, steps: seq<Step>,
                         inputs: set<string>, tools: map<string, Descriptor>, exporter: bool, lifetime: nat)

  datatype Entry =
    | Answered(handle: string, binding: Binding, expiresAt: int, approved: bool)
    | Used(handle: string, binding: Binding, at: int, step: nat)
    | Dispatched(step: nat, effect: Effect, idempotency: Idempotency, key: Option<Key>,
                 arguments: Json, consumed: Option<string>)

  /** Where the run waits. Each constructor holds the checkpoint variable of `run`. */
  datatype Pc =
    | Idle
    | Loading(given: map<string, Json>)
    | Refusing(cp: Checkpoint)
    | Creating(cp: Checkpoint)
    | Starting(cp: Checkpoint)
    | Working(cp: Checkpoint)
    | Reviewing(cp: Checkpoint, handle: string)
    | Marking(cp: Checkpoint, marker: ActiveStep, arguments: Json, consumed: Option<string>)
    | Pending(cp: Checkpoint)
    | Completing(cp: Checkpoint, completed: Checkpoint)
    | Failing(cp: Checkpoint, goesOn: bool)
    | Ending(cp: Checkpoint)

  datatype System = System(started: bool, store: Option<Checkpoint>, pc: Pc,
                           handles: Handles, issued: set<string>, log: seq<Entry>)

  datatype Fault = NoFault | FailsBefore | FailsAfter

  /** What the surroundings decide: save faults, authority, cancellation, the deadline, the clock, a
      fresh handle id, the approver's answer, and the result (or failure) of whatever is awaited. */
  datatype Choice = Choice(fault: Fault, authorized: bool, cancelled: bool, late: bool, now: int,
                           handle: string, answer: Option<bool>, result: Option<Json>)

  /** A start or a resume without the authority the workflow asks for throws before it does anything. */
  datatype Event =
    | Start(given: map<string, Json>, authorized: bool)
    | Resume(given: map<string, Json>, authorized: bool)
    | Advance(choice: Choice)
    | Crash(brokerLost: bool)
    | OtherApproval(handle: string, binding: Binding, expiresAt: int, approved: bool)
    | Revoke(handle: string)

  // Saving.

  function SavedStore(s: System, cp: Checkpoint, fault: Fault): System {
    if fault == FailsBefore then s else s.(store := Some(cp))
  }

  function InitialCheckpoint(given: map<string, Json>): Checkpoint {
    Checkpoint(Created, 0, InitialValues(given), None)
  }

  /** A write with no idempotency was marked as dispatched and never completed. */
  predicate Unresolved(cp: Checkpoint) {
    cp.active.Some? && cp.active.value.effect != Read && cp.active.value.idempotency == NoIdempotency
  }

  // The loop of run().

  function Top(setup: Setup, s: System, cp: Checkpoint, c: Choice): System {
    if cp.next >= |setup.steps| then s.(pc := Ending(cp.(state := Succeeded, next := |setup.steps|, active := None)))
    else if !c.authorized then s.(pc := Idle)
    else if c.cancelled then s.(pc := Ending(cp.(state := Cancelled)))
    else if c.late then s.(pc := Ending(cp.(state := Paused)))
    else s.(pc := Starting(cp.(state := Running)))
  }

  predicate DispatchedWrite(setup: Setup, cp: Checkpoint)
    requires cp.next < |setup.steps|
  {
    cp.active.Some? && cp.active.value.stepId == setup.steps[cp.next].id && cp.active.value.effect != Read
  }

  /** The catch block of the loop. */
  function Fail(setup: Setup, s: System, cp: Checkpoint, c: Choice): System {
    if cp.next >= |setup.steps| then s.(pc := Idle)
    else
      var dispatched := DispatchedWrite(setup, cp);
      var unknown := dispatched && cp.active.value.idempotency == NoIdempotency;
      var state := if unknown then OutcomeUnknown else if c.cancelled then Cancelled else FailedRun;
      var failed := if dispatched then cp.(state := state) else cp.(state := state, active := None);
      s.(pc := Failing(failed, setup.steps[cp.next].continues && !unknown && !dispatched))
  }

  function Complete(setup: Setup, s: System, cp: Checkpoint, value: Json, c: Choice): System {
    if cp.next >= |setup.steps| then s.(pc := Idle)
    else
      s.(pc := Completing(cp, Checkpoint(Running, cp.next + 1, Record(setup.steps[cp.next], value, cp.values), None)))
  }

  // Approvals.

  function NamePrefix(s: string): nat {
    if s == [] || !IsNameChar(s[0]) then 0 else 1 + NamePrefix(s[1..])
  }

  lemma {:induction false} NamePrefixFits(s: string)
    ensures NamePrefix(s) <= |s|
  {
    if s != [] {
      NamePrefixFits(s[1..]);
    }
  }

  /** The step id an approval reference begins with. */
  function ApprovalStepId(ref: string): string {
    if StartsWith(ref, "steps.") && |ref| > 6 && IsLetter(ref[6])
    then NamePrefixFits(ref[6..]); ref[6..][..NamePrefix(ref[6..])]
    else "unknown"
  }

  function ScopeOf(steps: seq<Step>, id: string): string {
    if steps == [] then "unspecified"
    else if steps[0].id == id then if steps[0].scope.Some? then steps[0].scope.value else "unspecified"
    else ScopeOf(steps[1..], id)
  }

  /** What an approval step asks the approver to approve. */
  function RequestedBinding(setup: Setup, step: Step, value: Json): Binding {
    Binding(setup.runId, setup.workflowId, step.id,
            if step.scope.Some? then step.scope.value else "unspecified", setup.plan, value)
  }

  /** What a write demands of the handle it consumes. */
  function ExpectedBinding(setup: Setup, ref: string, arguments: Json): Binding {
    var id := ApprovalStepId(ref);
    Binding(setup.runId, setup.workflowId, id, ScopeOf(setup.steps, id), setup.plan, arguments)
  }

  /** Consumes the handle the step refers to; the handle, when the broker accepted it. */
  function ConsumeApproval(setup: Setup, s: System, cp: Checkpoint, step: Step, arguments: Json, c: Choice): (System, Option<string>) {
    if step.approvalRef.None? then (s, None)
    else
      var value := ResolveReference(step.approvalRef.value, cp.values);
      if value.None? || !value.value.Text? then (s, None)
      else
        var handle := value.value.s;
        var expected := ExpectedBinding(setup, step.approvalRef.value, arguments);
        var s' := s.(handles := Consumed(s.handles, handle, expected, c.now));
        if Usable(s.handles, handle, expected, c.now)
        then (s'.(log := s.log + [Used(handle, expected, c.now, cp.next)]), Some(handle))
        else (s', None)
  }

  // executeStep up to its first await.

  function EnterExport(setup: Setup, s: System, cp: Checkpoint, step: Step, c: Choice): System {
    var value := ResolveInput(step.input, cp.values);
    if value.None? then Fail(setup, s, cp, c)
    else
      var (s', handle) := ConsumeApproval(setup, s, cp, step, value.value, c);
      if handle.None? || c.result.None? then Fail(setup, s', cp, c)
      else if setup.exporter
      then s'.(pc := Marking(cp, ActiveStep(step.id, LocalWrite, NoIdempotency, None), value.value, handle))
      else Complete(setup, s', cp, c.result.value, c)
  }

  /** A keyed write that an earlier process marked and never completed. */
  predicate ResumedKeyedWrite(cp: Checkpoint, step: Step, tool: Descriptor) {
    && cp.active.Some? && cp.active.value.stepId == step.id && cp.active.value.effect == tool.effect
    && cp.active.value.idempotency == Keyed && cp.active.value.key.Some?
  }

  function WriteKey(setup: Setup, cp: Checkpoint, step: Step, tool: Descriptor): Option<Key>
    requires step.op.Tool?
  {
    if tool.idempotency != Keyed then None
    else if cp.active.Some? && cp.active.value.stepId == step.id && cp.active.value.key.Some? then cp.active.value.key
    else Some(Key(setup.runId, setup.workflowId, setup.plan, step.id, step.op.tool))
  }

  function EnterTool(setup: Setup, s: System, cp: Checkpoint, step: Step, c: Choice): System
    requires step.op.Tool?
  {
    var input := ResolveInput(step.input, cp.values);
    var resolved := ResolveArguments(step.arguments, cp.values);
    if input.None? || step.op.tool !in setup.tools || !c.authorized || resolved.None? then Fail(setup, s, cp, c)
    else
      var tool := setup.tools[step.op.tool];
      var arguments := Object(resolved.value);
      var resumed := ResumedKeyedWrite(cp, step, tool);
      var key := WriteKey(setup, cp, step, tool);
      if tool.effect == Read then
        s.(pc := Pending(cp), log := s.log + [Dispatched(cp.next, Read, tool.idempotency, key, arguments, None)])
      else if resumed then
        s.(pc := Marking(cp, ActiveStep(step.id, tool.effect, tool.idempotency, key), arguments, None))
      else
        var (s', handle) := ConsumeApproval(setup, s, cp, step, arguments, c);
        if handle.None? then Fail(setup, s', cp, c)
        else s'.(pc := Marking(cp, ActiveStep(step.id, tool.effect, tool.idempotency, key), arguments, handle))
  }

  function EnterApproval(setup: Setup, s: System, cp: Checkpoint, step: Step, c: Choice): System {
    var value := ResolveInput(step.input, cp.values);
    if value.None? then Fail(setup, s, cp, c)
    else
      s.(pc := Reviewing(cp, c.handle), issued := s.issued + {c.handle},
         handles := Requested(s.handles, c.handle, RequestedBinding(setup, step, value.value), c.now + setup.lifetime))
  }

  function Enter(setup: Setup, s: System, cp: Checkpoint, c: Choice): System {
    if cp.next >= |setup.steps| then s.(pc := Idle)
    else
      var step := setup.steps[cp.next];
      match step.op
      case Adapter => if ResolveInput(step.input, cp.values).None? then Fail(setup, s, cp, c) else s.(pc := Working(cp))
      case Approval => EnterApproval(setup, s, cp, step, c)
      case Export => EnterExport(setup, s, cp, step, c)
      case Tool(_) => EnterTool(setup, s, cp, step, c)
  }

  function Reply(setup: Setup, s: System, cp: Checkpoint, c: Choice): System {
    if c.result.None? then Fail(setup, s, cp, c) else Complete(setup, s, cp, c.result.value, c)
  }

  function Answer(setup: Setup, s: System, cp: Checkpoint, handle: string, c: Choice): System {
    if c.answer.None? || handle !in s.handles then Fail(setup, s, cp, c)
    else
      var reviewed := s.(handles := Reviewed(s.handles, handle, c.answer.value).value,
                         log := s.log + [Answered(handle, s.handles[handle].binding, s.handles[handle].expiresAt, c.answer.value)]);
      if !c.answer.value then Fail(setup, reviewed, cp, c) else Complete(setup, reviewed, cp, Text(handle), c)
  }

  /** From one await of the run to the next. */
  function Next(setup: Setup, s: System, c: Choice): System {
    var ok := c.fault == NoFault;
    match s.pc
    case Idle => s
    case Loading(given) =>
      if !ok then s.(pc := Idle)
      else if s.store.None? then s.(pc := Creating(InitialCheckpoint(given)))
      else if Unresolved(s.store.value) then s.(pc := Refusing(s.store.value.(state := OutcomeUnknown)))
      else Top(setup, s, s.store.value, c)
    case Refusing(cp) => SavedStore(s, cp, c.fault).(pc := Idle)
    case Creating(cp) =>
      var s' := SavedStore(s, cp, c.fault);
      if !ok then s'.(pc := Idle) else Top(setup, s', cp, c)
    case Starting(cp) =>
      var s' := SavedStore(s, cp, c.fault);
      if !ok then s'.(pc := Idle) else Enter(setup, s', cp, c)
    case Working(cp) => Reply(setup, s, cp, c)
    case Reviewing(cp, handle) => Answer(setup, s, cp, handle, c)
    case Marking(cp, marker, arguments, consumed) =>
      var marked := cp.(active := Some(marker));
      var s' := SavedStore(s, marked, c.fault);
      if !ok then Fail(setup, s', cp, c)
      else if c.cancelled then Fail(setup, s', marked, c)
      else s'.(pc := Pending(marked),
               log := s.log + [Dispatched(cp.next, marker.effect, marker.idempotency, marker.key, arguments, consumed)])
    case Pending(cp) => Reply(setup, s, cp, c)
    case Completing(cp, completed) =>
      var s' := SavedStore(s, completed, c.fault);
      if !ok then Fail(setup, s', cp, c) else Top(setup, s', completed, c)
    case Failing(cp, goesOn) =>
      var s' := SavedStore(s, cp, c.fault);
      if !ok || !goesOn then s'.(pc := Idle)
      else Top(setup, s', cp.(state := Running, next := cp.next + 1), c)
    case Ending(cp) => SavedStore(s, cp, c.fault).(pc := Idle)
  }

  function Apply(setup: Setup, s: System, e: Event): System {
    match e
    case Start(given, authorized) =>
      if s.started || given.Keys != setup.inputs || !authorized then s
      else s.(started := true, pc := Creating(InitialCheckpoint(given)))
    case Resume(given, authorized) =>
      if !s.started || !s.pc.Idle? || given.Keys != setup.inputs || !authorized then s else s.(pc := Loading(given))
    case Advance(c) => if c.handle in s.issued then s else Next(setup, s, c)
    case Crash(brokerLost) => s.(pc := Idle, handles := if brokerLost then map[] else s.handles)
    case OtherApproval(handle, binding, expiresAt, approved) =>
      if handle in s.issued then s
      else s.(issued := s.issued + {handle}, handles := s.handles[handle := Handle(binding, expiresAt, approved, false)],
              log := s.log + [Answered(handle, binding, expiresAt, approved)])
    case Revoke(handle) => s.(handles := s.handles - {handle})
  }

  function Run(setup: Setup, events: seq<Event>): System {
    if events == [] then System(false, None, Idle, map[], {}, [])
    else Apply(setup, Run(setup, events[..|events| - 1]), events[|events| - 1])
  }
}
