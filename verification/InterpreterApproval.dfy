/** What an approval is good for: an approved write whose arguments are the approved ones goes through. */
module InterpreterApproval {
  import opened Prelude
  import opened References
  import opened Approvals
  import opened Interpreter
  import opened InterpreterSafety
  import opened InterpreterValues
  import opened InterpreterEnds
  import opened InterpreterSuccess

  lemma {:induction false} NamePrefixOfName(s: string)
    requires forall i :: 0 <= i < |s| ==> IsNameChar(s[i])
    ensures NamePrefix(s) == |s|
  {
    if s != [] {
      NamePrefixOfName(s[1..]);
    }
  }

  lemma StepKeyNamesStep(id: string)
    requires IsName(id)
    ensures ApprovalStepId(StepKey(id)) == id
  {
    StepPrefix(id);
    NamePrefixOfName(id);
    assert StepKey(id)[6] == StepKey(id)[6..][0];
  }

  lemma {:induction false} ScopeOfStep(steps: seq<Step>, i: nat)
    requires i < |steps| && forall j :: 0 <= j < i ==> steps[j].id != steps[i].id
    ensures ScopeOf(steps, steps[i].id) == if steps[i].scope.Some? then steps[i].scope.value else "unspecified"
  {
    if i > 0 {
      ScopeOfStep(steps[1..], i - 1);
    }
  }

  /** A reference to an output of a step names the step; one to an input names none. */
  lemma OtherReferencesName(id: string, field: string)
    requires IsName(id)
    ensures ApprovalStepId(OutputKey(id, field)) == id && ApprovalStepId(InputKey(id)) == "unknown"
  {
    OutputKeyIs(id, field);
    StepPrefix(id + "." + field);
    InputPrefix(id);
    NamePrefixUntil(id, "." + field);
    assert id + "." + field == id + ("." + field);
    var key := OutputKey(id, field);
    assert key[6] == key[6..][0] && (id + "." + field)[..|id|] == id;
  }

  lemma {:induction false} NamePrefixUntil(s: string, rest: string)
    requires (forall i :: 0 <= i < |s| ==> IsNameChar(s[i])) && rest != [] && !IsNameChar(rest[0])
    ensures NamePrefix(s + rest) == |s|
  {
    if s == [] {
      assert s + rest == rest;
    } else {
      assert (s + rest)[1..] == s[1..] + rest;
      NamePrefixUntil(s[1..], rest);
    }
  }

  lemma {:induction false} ScopeOfNoStep(steps: seq<Step>, id: string)
    requires forall j :: 0 <= j < |steps| ==> steps[j].id != id
    ensures ScopeOf(steps, id) == "unspecified"
  {
    if steps != [] {
      ScopeOfNoStep(steps[1..], id);
    }
  }

  /** What the i-th step asks to have approved, and a write that names it demands. */
  function BindingOf(setup: Setup, i: nat, arguments: Json): Binding
    requires i < |setup.steps|
  {
    Binding(setup.runId, setup.workflowId, setup.steps[i].id,
            if setup.steps[i].scope.Some? then setup.steps[i].scope.value else "unspecified", setup.plan, arguments)
  }

  lemma BindingsMeet(setup: Setup, i: nat, arguments: Json)
    requires i < |setup.steps| && Validated(setup.steps, setup.inputs)
    ensures RequestedBinding(setup, setup.steps[i], arguments) == BindingOf(setup, i, arguments)
    ensures ExpectedBinding(setup, StepKey(setup.steps[i].id), arguments) == BindingOf(setup, i, arguments)
  {
    assert StepAccepted(setup.steps[i], Ids(setup.steps[..i]), setup.inputs);
    StepKeyNamesStep(setup.steps[i].id);
    forall j | 0 <= j < i
      ensures setup.steps[j].id != setup.steps[i].id
    {
      DistinctIds(setup.steps, setup.inputs, j, i);
    }
    ScopeOfStep(setup.steps, i);
  }

  /** The write names the approval step by its id. */
  predicate WriteAfter(setup: Setup, i: nat)
    requires i + 1 < |setup.steps|
  {
    var step := setup.steps[i + 1];
    && setup.steps[i].op.Approval? && step.approvalRef == Some(StepKey(setup.steps[i].id))
    && (step.op.Export? || (step.op.Tool? && step.op.tool in setup.tools && setup.tools[step.op.tool].effect != Read))
  }

  /** The values once the approval step is done. */
  function ApprovedValues(setup: Setup, cp: Checkpoint, p: Play): Values
    requires cp.next < |setup.steps|
  {
    Record(setup.steps[cp.next], Text(p.handle), cp.values)
  }

  /** The write's input is there, and its arguments are those the approver saw. */
  predicate SameArguments(setup: Setup, cp: Checkpoint, p: Play, arguments: Json)
    requires cp.next + 1 < |setup.steps|
  {
    var step := setup.steps[cp.next + 1];
    && ResolveInput(setup.steps[cp.next].input, cp.values) == Some(arguments)
    && ResolveInput(step.input, ApprovedValues(setup, cp, p)).Some?
    && ArgumentsOf(step, ApprovedValues(setup, cp, p)) == Some(arguments)
  }

  lemma HandleResolves(setup: Setup, cp: Checkpoint, p: Play)
    requires cp.next < |setup.steps|
    requires var step := setup.steps[cp.next]; step.output.Some? ==> OutputKey(step.id, step.output.value) != StepKey(step.id)
    ensures ResolveReference(StepKey(setup.steps[cp.next].id), ApprovedValues(setup, cp, p)) == Some(Text(p.handle))
  {
  }

  lemma OutputKeyIsLonger(id: string, output: string)
    ensures OutputKey(id, output) != StepKey(id)
  {
    assert |OutputKey(id, output)| > |StepKey(id)|;
  }

  lemma ApprovedIsReady(setup: Setup, s: System, p: Play, q: Play, spare: string, arguments: Json)
    requires Validated(setup.steps, setup.inputs) && s.pc.Starting? && p.handle != spare && spare !in s.issued
    requires var cp := s.pc.cp; cp.next + 1 < |setup.steps| && WriteAfter(setup, cp.next) && SameArguments(setup, cp, p, arguments)
    requires q.now < p.now + setup.lifetime
    requires q.handle !in s.issued && q.handle != p.handle && q.handle != spare
    ensures Ready(setup, Done(setup, s, s.pc.cp, p), q, spare)
  {
    var cp, t := s.pc.cp, Done(setup, s, s.pc.cp, p);
    var step, approval := setup.steps[cp.next + 1], setup.steps[cp.next];
    DoneFields(setup, s, cp, p);
    assert t.pc == Starting(Completed(approval, cp, p));
    if approval.output.Some? {
      OutputKeyIsLonger(approval.id, approval.output.value);
    }
    HandleResolves(setup, cp, p);
    BindingsMeet(setup, cp.next, arguments);
    assert t.handles[p.handle] == Handle(BindingOf(setup, cp.next, arguments), p.now + setup.lifetime, true, false);
    assert Approvable(setup, t, t.pc.cp, step, arguments, q.now);
  }

  lemma ApprovedTraces(setup: Setup, s: System, p: Play, arguments: Json)
    requires Validated(setup.steps, setup.inputs) && s.pc.Starting?
    requires var cp := s.pc.cp; cp.next + 1 < |setup.steps| && WriteAfter(setup, cp.next) && SameArguments(setup, cp, p, arguments)
    ensures var (i, write, u) := (s.pc.cp.next, setup.steps[s.pc.cp.next + 1], Done(setup, s, s.pc.cp, p));
            var binding := BindingOf(setup, i, arguments);
            && u.log == s.log + [Answered(p.handle, binding, p.now + setup.lifetime, true)]
            && HandleOf(write, u.pc.cp.values) == p.handle && ArgumentsFor(write, u.pc.cp.values) == arguments
            && !TakenUp(setup, write, u.pc.cp)
            && ExpectedBinding(setup, write.approvalRef.value, arguments) == binding
  {
    var cp := s.pc.cp;
    var approval := setup.steps[cp.next];
    DoneFields(setup, s, cp, p);
    if approval.output.Some? {
      OutputKeyIsLonger(approval.id, approval.output.value);
    }
    HandleResolves(setup, cp, p);
    BindingsMeet(setup, cp.next, arguments);
  }

  /** Only the answer, the use of the handle and one write of these arguments have been added to the log, in
      this order; the write of an export without an exporter is its result alone. */
  predicate LoggedAsApproved(setup: Setup, before: seq<Entry>, after: seq<Entry>, handle: string, i: nat, arguments: Json,
                             expiresAt: int, at: int)
    requires i + 1 < |setup.steps|
  {
    var write, n := setup.steps[i + 1], |before| + 2;
    && n <= |after|
    && after[..n] == before + [Answered(handle, BindingOf(setup, i, arguments), expiresAt, true),
                               Used(handle, BindingOf(setup, i, arguments), at, i + 1)]
    && if write.op.Export? && !setup.exporter then |after| == n
       else |after| == n + 1 && IsApprovedWrite(setup, after[n], i + 1, arguments, handle)
  }

  predicate IsApprovedWrite(setup: Setup, e: Entry, i: nat, arguments: Json, handle: string)
    requires i < |setup.steps|
  {
    && e.Dispatched? && e.step == i && e.arguments == arguments && e.consumed == Some(handle)
    && (setup.steps[i].op.Tool? && setup.steps[i].op.tool in setup.tools ==>
          var tool := setup.tools[setup.steps[i].op.tool];
          e.effect == tool.effect && e.idempotency == tool.idempotency && (e.key.Some? <==> tool.idempotency == Keyed))
  }

  lemma WriteTraces(setup: Setup, cp: Checkpoint, q: Play, handle: string, arguments: Json, binding: Binding)
    requires cp.next < |setup.steps| && var write := setup.steps[cp.next];
             && (write.op.Export? || (write.op.Tool? && write.op.tool in setup.tools && setup.tools[write.op.tool].effect != Read))
             && write.approvalRef.Some? && ExpectedBinding(setup, write.approvalRef.value, arguments) == binding
             && HandleOf(write, cp.values) == handle && ArgumentsFor(write, cp.values) == arguments && !TakenUp(setup, write, cp)
    ensures var (write, traces) := (setup.steps[cp.next], Traces(setup, setup.steps[cp.next], cp, q));
            && |traces| >= 1 && traces[0] == Used(handle, binding, q.now, cp.next)
            && if write.op.Export? && !setup.exporter then |traces| == 1
               else |traces| == 2 && IsApprovedWrite(setup, traces[1], cp.next, arguments, handle)
  {
  }

  /** An approval step and the write that names it, undisturbed and in time, when the write's arguments are
      those the approver approved: the write leaves with them, and the handle is gone. */
  lemma ApprovedWriteSucceeds(setup: Setup, s: System, p: Play, q: Play, spare: string, arguments: Json)
    requires Validated(setup.steps, setup.inputs) && Ready(setup, s, p, spare)
    requires var cp := s.pc.cp; cp.next + 1 < |setup.steps| && WriteAfter(setup, cp.next) && SameArguments(setup, cp, p, arguments)
    requires q.now < p.now + setup.lifetime
    requires q.handle !in s.issued && q.handle != p.handle && q.handle != spare
    ensures var (i, write) := (s.pc.cp.next, setup.steps[s.pc.cp.next + 1]);
            var t := RunFrom(setup, RunFrom(setup, s, Moves(setup, setup.steps[i], p, spare)), Moves(setup, write, q, spare));
            && LoggedAsApproved(setup, s.log, t.log, p.handle, i, arguments, p.now + setup.lifetime, q.now)
            && p.handle !in t.handles && t.store.Some? && t.store.value.next == i + 2
            && Recorded(t.store.value.values, write, q.result)
  {
    var u := Done(setup, s, s.pc.cp, p);
    StepSucceeds(setup, s, p, spare);
    ApprovedIsReady(setup, s, p, q, spare, arguments);
    StepSucceeds(setup, u, q, spare);
    ApprovedTraces(setup, s, p, arguments);
    ApprovedIsLogged(setup, s, u, s.pc.cp.next, p, q, arguments);
  }

  lemma ApprovedIsLogged(setup: Setup, s: System, u: System, i: nat, p: Play, q: Play, arguments: Json)
    requires i + 1 < |setup.steps| && WriteAfter(setup, i) && u.pc.Starting? && u.pc.cp.next == i + 1
    requires var write := setup.steps[i + 1];
             && u.log == s.log + [Answered(p.handle, BindingOf(setup, i, arguments), p.now + setup.lifetime, true)]
             && HandleOf(write, u.pc.cp.values) == p.handle && ArgumentsFor(write, u.pc.cp.values) == arguments
             && !TakenUp(setup, write, u.pc.cp)
             && ExpectedBinding(setup, write.approvalRef.value, arguments) == BindingOf(setup, i, arguments)
    ensures var t := Done(setup, u, u.pc.cp, q);
            && LoggedAsApproved(setup, s.log, t.log, p.handle, i, arguments, p.now + setup.lifetime, q.now)
            && p.handle !in t.handles && t.store.Some? && t.store.value.next == i + 2
            && Recorded(t.store.value.values, setup.steps[i + 1], q.result)
  {
    var t := Done(setup, u, u.pc.cp, q);
    WriteTraces(setup, u.pc.cp, q, p.handle, arguments, BindingOf(setup, i, arguments));
    DoneFields(setup, u, u.pc.cp, q);
    if setup.steps[i + 1].output.Some? {
      OutputKeyIsLonger(setup.steps[i + 1].id, setup.steps[i + 1].output.value);
    }
  }
}
