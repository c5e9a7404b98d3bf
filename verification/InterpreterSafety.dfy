/** What every run of the interpreter keeps, over any placement of crashes, timeouts, cancellations
    and failed saves: at most one dispatch of a write that must not be repeated, and an approval
    behind every write. */
module InterpreterSafety {
  import opened Prelude
  import opened References
  import opened Approvals
  import opened Interpreter

  // The log.

  predicate SingleWrite(e: Entry, i: nat) {
    e.Dispatched? && e.step == i && e.effect != Read && e.idempotency == NoIdempotency
  }

  /** How often step i was dispatched as a write with no idempotency. */
  function SingleWrites(log: seq<Entry>, i: nat): nat {
    if log == [] then 0
    else SingleWrites(log[..|log| - 1], i) + if SingleWrite(log[|log| - 1], i) then 1 else 0
  }

  lemma SingleWritesSnoc(log: seq<Entry>, e: Entry, i: nat)
    ensures SingleWrites(log + [e], i) == SingleWrites(log, i) + if SingleWrite(e, i) then 1 else 0
  {
    assert (log + [e])[..|log|] == log;
  }

  function ArgumentsOf(step: Step, values: Values): Option<Json> {
    if step.op.Tool? then
      var resolved := ResolveArguments(step.arguments, values);
      if resolved.None? then None else Some(Object(resolved.value))
    else ResolveInput(step.input, values)
  }

  function KeyFor(setup: Setup, i: nat): Option<Key>
    requires i < |setup.steps|
  {
    var step := setup.steps[i];
    if step.op.Tool? then Some(Key(setup.runId, setup.workflowId, setup.plan, step.id, step.op.tool)) else None
  }

  /** A handle was consumed for step i under the binding its approval reference and these arguments demand. */
  ghost predicate UsedFor(setup: Setup, log: seq<Entry>, handle: string, i: nat, arguments: Json)
    requires i < |setup.steps|
  {
    && setup.steps[i].approvalRef.Some?
    && exists at: int :: Used(handle, ExpectedBinding(setup, setup.steps[i].approvalRef.value, arguments), at, i) in log
  }

  ghost predicate Approved(setup: Setup, log: seq<Entry>, i: nat, arguments: Json)
    requires i < |setup.steps|
  {
    exists handle :: UsedFor(setup, log, handle, i, arguments)
  }

  ghost predicate Answers(log: seq<Entry>, handle: string, binding: Binding, at: int) {
    exists expiresAt: int :: Answered(handle, binding, expiresAt, true) in log && at < expiresAt
  }

  predicate UsedBefore(log: seq<Entry>, handle: string) {
    exists e :: e in log && e.Used? && e.handle == handle
  }

  predicate Backs(log: seq<Entry>, handle: string) {
    exists e :: e in log && e.Dispatched? && e.consumed == Some(handle)
  }

  /** What must have happened before an entry. */
  ghost predicate Backed(setup: Setup, before: seq<Entry>, e: Entry) {
    match e
    case Answered(_, _, _, _) => true
    case Used(handle, binding, at, _) => Answers(before, handle, binding, at) && !UsedBefore(before, handle)
    case Dispatched(i, effect, idempotency, key, arguments, consumed) =>
      effect != Read ==>
        && i < |setup.steps|
        && (idempotency == Keyed ==> key == KeyFor(setup, i))
        && (match consumed
            case Some(handle) => UsedFor(setup, before, handle, i, arguments) && !Backs(before, handle)
            case None => idempotency == Keyed && Approved(setup, before, i, arguments))
  }

  ghost predicate LogOk(setup: Setup, log: seq<Entry>) {
    forall k :: 0 <= k < |log| ==> Backed(setup, log[..k], log[k])
  }

  lemma LogSnoc(setup: Setup, log: seq<Entry>, e: Entry)
    requires LogOk(setup, log) && Backed(setup, log, e)
    ensures LogOk(setup, log + [e])
  {
    var longer := log + [e];
    forall k | 0 <= k < |longer|
      ensures Backed(setup, longer[..k], longer[k])
    {
      assert longer[..k] == log[..k];
      if k == |log| {
        assert log[..k] == log;
      }
    }
  }

  // Checkpoints.

  /** Every single write on the log is past this checkpoint, or is the write it is stuck at. */
  ghost predicate Known(log: seq<Entry>, cp: Checkpoint) {
    forall i: nat :: SingleWrites(log, i) >= 1 ==> i < cp.next || (i == cp.next && Unresolved(cp))
  }

  /** A marker belongs to the step the checkpoint is at, which was approved with the arguments the
      checkpoint's values give it. */
  ghost predicate MarkerOk(setup: Setup, log: seq<Entry>, cp: Checkpoint) {
    cp.active.Some? ==>
      var marker := cp.active.value;
      && cp.next < |setup.steps|
      && marker.stepId == setup.steps[cp.next].id && marker.effect != Read
      && (setup.steps[cp.next].op.Tool? || marker.idempotency == NoIdempotency)
      && (setup.steps[cp.next].op.Tool? ==>
            setup.steps[cp.next].op.tool in setup.tools
            && marker.idempotency == setup.tools[setup.steps[cp.next].op.tool].idempotency)
      && (marker.idempotency == Keyed ==> marker.key == KeyFor(setup, cp.next))
      && ArgumentsOf(setup.steps[cp.next], cp.values).Some?
      && Approved(setup, log, cp.next, ArgumentsOf(setup.steps[cp.next], cp.values).value)
  }

  ghost predicate CpOk(setup: Setup, log: seq<Entry>, cp: Checkpoint) {
    cp.next <= |setup.steps| && Known(log, cp) && MarkerOk(setup, log, cp)
  }

  ghost predicate PcOk(setup: Setup, log: seq<Entry>, pc: Pc) {
    match pc
    case Refusing(cp) => CpOk(setup, log, cp)
    case Creating(cp) => CpOk(setup, log, cp) && !Unresolved(cp)
    case Starting(cp) => CpOk(setup, log, cp) && !Unresolved(cp)
    case Working(cp) => CpOk(setup, log, cp) && !Unresolved(cp)
    case Reviewing(cp, _) => CpOk(setup, log, cp) && !Unresolved(cp)
    case Marking(cp, marker, arguments, consumed) =>
      && CpOk(setup, log, cp) && !Unresolved(cp)
      && MarkerOk(setup, log, cp.(active := Some(marker)))
      && ArgumentsOf(setup.steps[cp.next], cp.values) == Some(arguments)
      && (match consumed
          case Some(handle) => UsedFor(setup, log, handle, cp.next, arguments) && !Backs(log, handle)
          case None => marker.idempotency == Keyed)
    case Pending(cp) => CpOk(setup, log, cp)
    case Completing(cp, completed) =>
      && CpOk(setup, log, cp) && cp.next < |setup.steps|
      && completed.next == cp.next + 1 && completed.active.None?
    case Failing(cp, goesOn) =>
      CpOk(setup, log, cp) && (goesOn ==> cp.active.None? && cp.next < |setup.steps|)
    case Ending(cp) => CpOk(setup, log, cp)
    case _ => true
  }

  ghost predicate HandlesOk(s: System) {
    && s.handles.Keys <= s.issued
    && (forall h :: h in s.handles && s.handles[h].approved ==>
          Answered(h, s.handles[h].binding, s.handles[h].expiresAt, true) in s.log)
    && (forall h :: UsedBefore(s.log, h) ==> h in s.issued && h !in s.handles)
    && (forall h :: Backs(s.log, h) ==> UsedBefore(s.log, h))
  }

  /** The invariant but for where the run waits. */
  ghost predicate Core(setup: Setup, s: System) {
    && LogOk(setup, s.log)
    && HandlesOk(s)
    && (forall i: nat :: SingleWrites(s.log, i) <= 1)
    && (match s.store
        case None => forall i: nat :: SingleWrites(s.log, i) == 0
        case Some(cp) => CpOk(setup, s.log, cp))
  }

  ghost predicate Inv(setup: Setup, s: System) {
    && Core(setup, s) && PcOk(setup, s.log, s.pc)
    && (!s.started ==> s.pc.Idle? && s.store.None?)
  }

  // Entries that are not single writes.

  lemma UsedForGrows(setup: Setup, log: seq<Entry>, e: Entry, handle: string, i: nat, arguments: Json)
    requires i < |setup.steps| && UsedFor(setup, log, handle, i, arguments)
    ensures UsedFor(setup, log + [e], handle, i, arguments)
  {
    var at :| Used(handle, ExpectedBinding(setup, setup.steps[i].approvalRef.value, arguments), at, i) in log;
    assert Used(handle, ExpectedBinding(setup, setup.steps[i].approvalRef.value, arguments), at, i) in log + [e];
  }

  lemma BacksSnoc(log: seq<Entry>, e: Entry, handle: string)
    ensures Backs(log + [e], handle) <==> Backs(log, handle) || (e.Dispatched? && e.consumed == Some(handle))
  {
    assert e in log + [e];
    if Backs(log, handle) {
      var d :| d in log && d.Dispatched? && d.consumed == Some(handle);
      assert d in log + [e];
    }
  }

  lemma CpGrows(setup: Setup, log: seq<Entry>, e: Entry, cp: Checkpoint)
    requires CpOk(setup, log, cp) && forall i: nat :: !SingleWrite(e, i)
    ensures CpOk(setup, log + [e], cp)
  {
    forall i: nat
      ensures SingleWrites(log + [e], i) == SingleWrites(log, i)
    {
      SingleWritesSnoc(log, e, i);
    }
    MarkerGrows(setup, log, e, cp);
  }

  lemma MarkerGrows(setup: Setup, log: seq<Entry>, e: Entry, cp: Checkpoint)
    requires MarkerOk(setup, log, cp)
    ensures MarkerOk(setup, log + [e], cp)
  {
    if cp.active.Some? {
      var arguments := ArgumentsOf(setup.steps[cp.next], cp.values).value;
      var handle :| UsedFor(setup, log, handle, cp.next, arguments);
      UsedForGrows(setup, log, e, handle, cp.next, arguments);
    }
  }

  // The loop.

  lemma TopOk(setup: Setup, s: System, cp: Checkpoint, c: Choice)
    requires Core(setup, s) && s.started && CpOk(setup, s.log, cp) && !Unresolved(cp)
    ensures Inv(setup, Top(setup, s, cp, c))
  {
    forall i: nat
      ensures SingleWrites(s.log, i) >= 1 ==> i < cp.next
    {
    }
  }

  lemma FailOk(setup: Setup, s: System, cp: Checkpoint, c: Choice)
    requires Core(setup, s) && s.started && CpOk(setup, s.log, cp)
    ensures Inv(setup, Fail(setup, s, cp, c))
  {
    if cp.next < |setup.steps| {
      assert DispatchedWrite(setup, cp) <==> cp.active.Some?;
    }
  }

  lemma CompleteOk(setup: Setup, s: System, cp: Checkpoint, value: Json, c: Choice)
    requires Core(setup, s) && s.started && CpOk(setup, s.log, cp)
    ensures Inv(setup, Complete(setup, s, cp, value, c))
  {
  }

  lemma ReplyOk(setup: Setup, s: System, cp: Checkpoint, c: Choice)
    requires Core(setup, s) && s.started && CpOk(setup, s.log, cp)
    ensures Inv(setup, Reply(setup, s, cp, c))
  {
    FailOk(setup, s, cp, c);
    if c.result.Some? {
      CompleteOk(setup, s, cp, c.result.value, c);
    }
  }

  lemma SaveOk(setup: Setup, s: System, cp: Checkpoint, fault: Fault)
    requires Core(setup, s) && CpOk(setup, s.log, cp)
    ensures Core(setup, SavedStore(s, cp, fault))
  {
  }

  // Approvals.

  /** An entry that dispatches nothing, and leaves the handles in order, keeps everything. */
  lemma EntryOk(setup: Setup, s: System, e: Entry, handles: Handles, issued: set<string>)
    requires Core(setup, s) && !e.Dispatched? && Backed(setup, s.log, e)
    requires HandlesOk(s.(handles := handles, issued := issued, log := s.log + [e]))
    ensures Core(setup, s.(handles := handles, issued := issued, log := s.log + [e]))
  {
    LogSnoc(setup, s.log, e);
    forall i: nat
      ensures SingleWrites(s.log + [e], i) == SingleWrites(s.log, i)
    {
      SingleWritesSnoc(s.log, e, i);
    }
    if s.store.Some? {
      CpGrows(setup, s.log, e, s.store.value);
    }
  }

  lemma FewerHandlesOk(setup: Setup, s: System, handles: Handles)
    requires Core(setup, s) && handles.Keys <= s.handles.Keys
    requires forall h :: h in handles ==> handles[h] == s.handles[h]
    ensures Core(setup, s.(handles := handles))
  {
  }

  lemma ConsumeOk(setup: Setup, s: System, cp: Checkpoint, step: Step, arguments: Json, c: Choice)
    requires Core(setup, s) && s.started && CpOk(setup, s.log, cp)
    requires cp.next < |setup.steps| && step == setup.steps[cp.next]
    ensures var (s', handle) := ConsumeApproval(setup, s, cp, step, arguments, c);
            && Core(setup, s') && s'.started && CpOk(setup, s'.log, cp)
            && (handle.Some? ==> UsedFor(setup, s'.log, handle.value, cp.next, arguments) && !Backs(s'.log, handle.value))
  {
    if step.approvalRef.Some? {
      var value := ResolveReference(step.approvalRef.value, cp.values);
      if value.Some? && value.value.Text? {
        var handle := value.value.s;
        var expected := ExpectedBinding(setup, step.approvalRef.value, arguments);
        var handles := Consumed(s.handles, handle, expected, c.now);
        if Usable(s.handles, handle, expected, c.now) {
          var e := Used(handle, expected, c.now, cp.next);
          UsingHandle(s, handle, expected, c.now, cp.next);
          EntryOk(setup, s, e, handles, s.issued);
          CpGrows(setup, s.log, e, cp);
          assert e in s.log + [e];
        } else {
          FewerHandlesOk(setup, s, handles);
        }
      }
    }
  }

  lemma UsingHandle(s: System, handle: string, expected: Binding, now: int, i: nat)
    requires HandlesOk(s) && Usable(s.handles, handle, expected, now)
    ensures var e := Used(handle, expected, now, i);
            && Answers(s.log, handle, expected, now) && !UsedBefore(s.log, handle)
            && !Backs(s.log + [e], handle)
            && HandlesOk(s.(handles := Consumed(s.handles, handle, expected, now), log := s.log + [e]))
  {
    var e := Used(handle, expected, now, i);
    assert Answered(handle, expected, s.handles[handle].expiresAt, true) in s.log;
    forall h
      ensures UsedBefore(s.log + [e], h) <==> UsedBefore(s.log, h) || h == handle
      ensures Backs(s.log + [e], h) <==> Backs(s.log, h)
    {
      assert e in s.log + [e];
      if UsedBefore(s.log, h) {
        var u :| u in s.log && u.Used? && u.handle == h;
        assert u in s.log + [e];
      }
      if Backs(s.log, h) {
        var d :| d in s.log && d.Dispatched? && d.consumed == Some(h);
        assert d in s.log + [e];
      }
    }
  }

  lemma AnsweringHandle(s: System, handles: Handles, issued: set<string>, e: Entry)
    requires HandlesOk(s) && e.Answered?
    requires s.issued <= issued && handles.Keys <= issued
    requires handles.Keys <= s.handles.Keys + {e.handle}
    requires forall h :: h in handles && h != e.handle ==> handles[h] == s.handles[h]
    requires e.handle in handles ==>
               !UsedBefore(s.log, e.handle) && e == Answered(e.handle, handles[e.handle].binding, handles[e.handle].expiresAt, handles[e.handle].approved)
    ensures HandlesOk(s.(handles := handles, issued := issued, log := s.log + [e]))
  {
    forall h
      ensures UsedBefore(s.log + [e], h) <==> UsedBefore(s.log, h)
      ensures Backs(s.log + [e], h) <==> Backs(s.log, h)
    {
      if UsedBefore(s.log, h) {
        var u :| u in s.log && u.Used? && u.handle == h;
        assert u in s.log + [e];
      }
      if Backs(s.log, h) {
        var d :| d in s.log && d.Dispatched? && d.consumed == Some(h);
        assert d in s.log + [e];
      }
    }
  }

  lemma AnswerOk(setup: Setup, s: System, cp: Checkpoint, handle: string, c: Choice)
    requires Core(setup, s) && s.started && CpOk(setup, s.log, cp)
    ensures Inv(setup, Answer(setup, s, cp, handle, c))
  {
    FailOk(setup, s, cp, c);
    if c.answer.Some? && handle in s.handles {
      var handles := Reviewed(s.handles, handle, c.answer.value).value;
      var e := Answered(handle, s.handles[handle].binding, s.handles[handle].expiresAt, c.answer.value);
      AnsweringHandle(s, handles, s.issued, e);
      EntryOk(setup, s, e, handles, s.issued);
      CpGrows(setup, s.log, e, cp);
      var reviewed := s.(handles := handles, log := s.log + [e]);
      FailOk(setup, reviewed, cp, c);
      CompleteOk(setup, reviewed, cp, Text(handle), c);
    }
  }

  // executeStep.

  lemma ExportMarkOk(setup: Setup, s: System, cp: Checkpoint, step: Step, value: Json, handle: string)
    requires Core(setup, s) && s.started && CpOk(setup, s.log, cp) && !Unresolved(cp)
    requires cp.next < |setup.steps| && step == setup.steps[cp.next] && step.op.Export?
    requires ResolveInput(step.input, cp.values) == Some(value)
    requires UsedFor(setup, s.log, handle, cp.next, value) && !Backs(s.log, handle)
    ensures Inv(setup, s.(pc := Marking(cp, ActiveStep(step.id, LocalWrite, NoIdempotency, None), value, Some(handle))))
  {
  }

  lemma EnterExportOk(setup: Setup, s: System, cp: Checkpoint, step: Step, c: Choice)
    requires Core(setup, s) && s.started && CpOk(setup, s.log, cp) && !Unresolved(cp)
    requires cp.next < |setup.steps| && step == setup.steps[cp.next] && step.op.Export?
    ensures Inv(setup, EnterExport(setup, s, cp, step, c))
  {
    FailOk(setup, s, cp, c);
    var value := ResolveInput(step.input, cp.values);
    if value.Some? {
      var (s', handle) := ConsumeApproval(setup, s, cp, step, value.value, c);
      ConsumeOk(setup, s, cp, step, value.value, c);
      if handle.None? || c.result.None? {
        FailOk(setup, s', cp, c);
      } else if setup.exporter {
        ExportMarkOk(setup, s', cp, step, value.value, handle.value);
      } else {
        CompleteOk(setup, s', cp, c.result.value, c);
      }
    }
  }

  lemma ReadDispatchOk(setup: Setup, s: System, cp: Checkpoint, e: Entry)
    requires Core(setup, s) && s.started && CpOk(setup, s.log, cp)
    requires e.Dispatched? && e.effect == Read && e.consumed.None?
    ensures Inv(setup, s.(pc := Pending(cp), log := s.log + [e]))
  {
    LogSnoc(setup, s.log, e);
    DispatchKeepsHandles(s, e);
    forall i: nat
      ensures SingleWrites(s.log + [e], i) == SingleWrites(s.log, i)
    {
      SingleWritesSnoc(s.log, e, i);
    }
    if s.store.Some? {
      CpGrows(setup, s.log, e, s.store.value);
    }
    CpGrows(setup, s.log, e, cp);
  }

  lemma DispatchKeepsHandles(s: System, e: Entry)
    requires HandlesOk(s) && e.Dispatched?
    requires e.consumed.Some? ==> UsedBefore(s.log, e.consumed.value)
    ensures HandlesOk(s.(log := s.log + [e]))
  {
    forall h
      ensures UsedBefore(s.log + [e], h) <==> UsedBefore(s.log, h)
      ensures Backs(s.log + [e], h) ==> Backs(s.log, h) || e.consumed == Some(h)
    {
      if UsedBefore(s.log, h) {
        var u :| u in s.log && u.Used? && u.handle == h;
        assert u in s.log + [e];
      }
    }
  }

  lemma EnterToolOk(setup: Setup, s: System, cp: Checkpoint, step: Step, c: Choice)
    requires Core(setup, s) && s.started && CpOk(setup, s.log, cp) && !Unresolved(cp)
    requires cp.next < |setup.steps| && step == setup.steps[cp.next] && step.op.Tool?
    ensures Inv(setup, EnterTool(setup, s, cp, step, c))
  {
    FailOk(setup, s, cp, c);
    var input := ResolveInput(step.input, cp.values);
    var resolved := ResolveArguments(step.arguments, cp.values);
    if input.Some? && step.op.tool in setup.tools && c.authorized && resolved.Some? {
      var tool := setup.tools[step.op.tool];
      var arguments := Object(resolved.value);
      var key := WriteKey(setup, cp, step, tool);
      if tool.effect == Read {
        ReadDispatchOk(setup, s, cp, Dispatched(cp.next, Read, tool.idempotency, key, arguments, None));
      } else if !ResumedKeyedWrite(cp, step, tool) {
        var (s', handle) := ConsumeApproval(setup, s, cp, step, arguments, c);
        ConsumeOk(setup, s, cp, step, arguments, c);
        FailOk(setup, s', cp, c);
      }
    }
  }

  lemma EnterApprovalOk(setup: Setup, s: System, cp: Checkpoint, step: Step, c: Choice)
    requires Core(setup, s) && s.started && CpOk(setup, s.log, cp) && !Unresolved(cp)
    requires c.handle !in s.issued
    ensures Inv(setup, EnterApproval(setup, s, cp, step, c))
  {
    FailOk(setup, s, cp, c);
  }

  lemma EnterOk(setup: Setup, s: System, cp: Checkpoint, c: Choice)
    requires Core(setup, s) && s.started && CpOk(setup, s.log, cp) && !Unresolved(cp)
    requires c.handle !in s.issued
    ensures Inv(setup, Enter(setup, s, cp, c))
  {
    if cp.next < |setup.steps| {
      var step := setup.steps[cp.next];
      match step.op {
        case Adapter => FailOk(setup, s, cp, c);
        case Approval => EnterApprovalOk(setup, s, cp, step, c);
        case Export => EnterExportOk(setup, s, cp, step, c);
        case Tool(_) => EnterToolOk(setup, s, cp, step, c);
      }
    }
  }

  // Dispatching a write.

  lemma CountDispatch(log: seq<Entry>, e: Entry, cp: Checkpoint, marked: Checkpoint)
    requires e.Dispatched? && e.step == cp.next && marked.next == cp.next
    requires forall i: nat :: SingleWrites(log, i) <= 1
    requires Known(log, cp) && !Unresolved(cp)
    requires SingleWrite(e, cp.next) ==> Unresolved(marked)
    ensures forall i: nat :: SingleWrites(log + [e], i) <= 1
    ensures Known(log + [e], marked)
  {
    forall i: nat
      ensures SingleWrites(log + [e], i) <= 1
      ensures SingleWrites(log + [e], i) >= 1 ==> i < marked.next || (i == marked.next && Unresolved(marked))
    {
      SingleWritesSnoc(log, e, i);
    }
  }

  lemma DispatchBacked(setup: Setup, s: System)
    requires Inv(setup, s) && s.pc.Marking?
    ensures var pc := s.pc;
            var e := Dispatched(pc.cp.next, pc.marker.effect, pc.marker.idempotency, pc.marker.key, pc.arguments, pc.consumed);
            Backed(setup, s.log, e) && HandlesOk(s.(log := s.log + [e]))
  {
    var pc := s.pc;
    var e := Dispatched(pc.cp.next, pc.marker.effect, pc.marker.idempotency, pc.marker.key, pc.arguments, pc.consumed);
    if e.consumed.Some? {
      var at :| Used(e.consumed.value, ExpectedBinding(setup, setup.steps[pc.cp.next].approvalRef.value, pc.arguments), at, pc.cp.next) in s.log;
      assert UsedBefore(s.log, e.consumed.value);
    }
    DispatchKeepsHandles(s, e);
  }

  lemma DispatchOk(setup: Setup, s: System, c: Choice)
    requires Inv(setup, s) && s.started && s.pc.Marking? && c.fault == NoFault && !c.cancelled
    ensures Inv(setup, Next(setup, s, c))
  {
    var cp, marker := s.pc.cp, s.pc.marker;
    var marked := cp.(active := Some(marker));
    var e := Dispatched(cp.next, marker.effect, marker.idempotency, marker.key, s.pc.arguments, s.pc.consumed);
    var log := s.log + [e];
    DispatchBacked(setup, s);
    LogSnoc(setup, s.log, e);
    MarkerGrows(setup, s.log, e, marked);
    CountDispatch(s.log, e, cp, marked);
    assert Next(setup, s, c) == s.(store := Some(marked), pc := Pending(marked), log := log);
  }

  lemma MarkingOk(setup: Setup, s: System, c: Choice)
    requires Inv(setup, s) && s.started && s.pc.Marking?
    ensures Inv(setup, Next(setup, s, c))
  {
    var cp := s.pc.cp;
    var marked := cp.(active := Some(s.pc.marker));
    if c.fault == NoFault && !c.cancelled {
      DispatchOk(setup, s, c);
    } else {
      assert CpOk(setup, s.log, marked);
      SaveOk(setup, s, marked, c.fault);
      FailOk(setup, SavedStore(s, marked, c.fault), marked, c);
      FailOk(setup, SavedStore(s, marked, c.fault), cp, c);
    }
  }

  // Every event.

  lemma CompletingOk(setup: Setup, s: System, c: Choice)
    requires Inv(setup, s) && s.pc.Completing?
    ensures Inv(setup, Next(setup, s, c))
  {
    var cp, completed := s.pc.cp, s.pc.completed;
    assert CpOk(setup, s.log, completed);
    var saved := SavedStore(s, completed, c.fault);
    SaveOk(setup, s, completed, c.fault);
    if c.fault == NoFault {
      TopOk(setup, saved, completed, c);
    } else {
      FailOk(setup, saved, cp, c);
    }
  }

  lemma FailingOk(setup: Setup, s: System, c: Choice)
    requires Inv(setup, s) && s.pc.Failing?
    ensures Inv(setup, Next(setup, s, c))
  {
    var cp := s.pc.cp;
    SaveOk(setup, s, cp, c.fault);
    if s.pc.goesOn && c.fault == NoFault {
      TopOk(setup, SavedStore(s, cp, c.fault), cp.(state := Running, next := cp.next + 1), c);
    }
  }

  lemma StartingOk(setup: Setup, s: System, c: Choice)
    requires Inv(setup, s) && c.handle !in s.issued && (s.pc.Creating? || s.pc.Starting?)
    ensures Inv(setup, Next(setup, s, c))
  {
    var cp := s.pc.cp;
    var saved := SavedStore(s, cp, c.fault);
    SaveOk(setup, s, cp, c.fault);
    if s.pc.Creating? {
      TopOk(setup, saved, cp, c);
    } else {
      EnterOk(setup, saved, cp, c);
    }
  }

  lemma NextOk(setup: Setup, s: System, c: Choice)
    requires Inv(setup, s) && c.handle !in s.issued
    ensures Inv(setup, Next(setup, s, c))
  {
    match s.pc {
      case Idle =>
      case Loading(_) => LoadingOk(setup, s, c);
      case Refusing(_) => LastSaveOk(setup, s, c);
      case Creating(_) => StartingOk(setup, s, c);
      case Starting(_) => StartingOk(setup, s, c);
      case Working(_) => AwaitedOk(setup, s, c);
      case Reviewing(_, _) => AwaitedOk(setup, s, c);
      case Marking(_, _, _, _) => MarkingOk(setup, s, c);
      case Pending(_) => AwaitedOk(setup, s, c);
      case Completing(_, _) => CompletingOk(setup, s, c);
      case Failing(_, _) => FailingOk(setup, s, c);
      case Ending(_) => LastSaveOk(setup, s, c);
    }
  }

  lemma LoadingOk(setup: Setup, s: System, c: Choice)
    requires Inv(setup, s) && s.pc.Loading?
    ensures Inv(setup, Next(setup, s, c))
  {
    if s.store.Some? && !Unresolved(s.store.value) {
      TopOk(setup, s, s.store.value, c);
    }
  }

  lemma LastSaveOk(setup: Setup, s: System, c: Choice)
    requires Inv(setup, s) && (s.pc.Refusing? || s.pc.Ending?)
    ensures Inv(setup, Next(setup, s, c))
  {
    SaveOk(setup, s, s.pc.cp, c.fault);
  }

  /** A tool, an adapter or an approver answers, or fails to. */
  lemma AwaitedOk(setup: Setup, s: System, c: Choice)
    requires Inv(setup, s) && (s.pc.Working? || s.pc.Reviewing? || s.pc.Pending?)
    ensures Inv(setup, Next(setup, s, c))
  {
    if s.pc.Reviewing? {
      AnswerOk(setup, s, s.pc.cp, s.pc.handle, c);
    } else {
      ReplyOk(setup, s, s.pc.cp, c);
    }
  }

  lemma EventOk(setup: Setup, s: System, e: Event)
    requires Inv(setup, s)
    ensures Inv(setup, Apply(setup, s, e))
  {
    match e {
      case Advance(c) =>
        if c.handle !in s.issued {
          NextOk(setup, s, c);
        }
      case Crash(brokerLost) => FewerHandlesOk(setup, s, if brokerLost then map[] else s.handles);
      case Revoke(handle) => FewerHandlesOk(setup, s, s.handles - {handle});
      case OtherApproval(handle, binding, expiresAt, approved) =>
        if handle !in s.issued {
          OtherApprovalOk(setup, s, handle, binding, expiresAt, approved);
        }
      case _ =>
    }
  }

  lemma OtherApprovalOk(setup: Setup, s: System, handle: string, binding: Binding, expiresAt: int, approved: bool)
    requires Inv(setup, s) && handle !in s.issued
    ensures Inv(setup, Apply(setup, s, OtherApproval(handle, binding, expiresAt, approved)))
  {
    var e := Answered(handle, binding, expiresAt, approved);
    var handles := s.handles[handle := Handle(binding, expiresAt, approved, false)];
    AnsweringHandle(s, handles, s.issued + {handle}, e);
    EntryOk(setup, s, e, handles, s.issued + {handle});
    PcGrows(setup, s.log, e, s.pc);
  }

  lemma PcGrows(setup: Setup, log: seq<Entry>, e: Entry, pc: Pc)
    requires PcOk(setup, log, pc) && e.Answered?
    ensures PcOk(setup, log + [e], pc)
  {
    if !pc.Idle? && !pc.Loading? {
      CpGrows(setup, log, e, pc.cp);
    }
    if pc.Marking? {
      MarkerGrows(setup, log, e, pc.cp.(active := Some(pc.marker)));
      if pc.consumed.Some? {
        UsedForGrows(setup, log, e, pc.consumed.value, pc.cp.next, pc.arguments);
        BacksSnoc(log, e, pc.consumed.value);
      }
    }
  }

  lemma {:induction false} RunOk(setup: Setup, events: seq<Event>)
    ensures Inv(setup, Run(setup, events))
  {
    if events != [] {
      RunOk(setup, events[..|events| - 1]);
      EventOk(setup, Run(setup, events[..|events| - 1]), events[|events| - 1]);
    }
  }

  // What it comes to.

  /** A write that declares no idempotency leaves the process at most once per step, whatever crashes,
      times out, is cancelled or fails to be saved, and however often the run is resumed. */
  lemma DispatchedAtMostOnce(setup: Setup, events: seq<Event>, i: nat)
    ensures SingleWrites(Run(setup, events).log, i) <= 1
  {
    RunOk(setup, events);
  }

  /** A step that was dispatched without a completed checkpoint. */
  ghost predicate Unfinished(s: System, i: nat) {
    s.store.Some? && s.store.value.next == i && Unresolved(s.store.value)
    && (s.pc.Idle? || s.pc.Loading? || (s.pc.Refusing? && s.pc.cp == s.store.value.(state := OutcomeUnknown)))
  }

  lemma UnfinishedStep(setup: Setup, s: System, e: Event, i: nat)
    requires s.started && Unfinished(s, i)
    ensures Apply(setup, s, e).started && Unfinished(Apply(setup, s, e), i)
    ensures forall d :: d in Apply(setup, s, e).log && d.Dispatched? ==> d in s.log
  {
  }

  ghost function RunFrom(setup: Setup, s: System, events: seq<Event>): System {
    if events == [] then s
    else Apply(setup, RunFrom(setup, s, events[..|events| - 1]), events[|events| - 1])
  }

  /** Once such a write was dispatched and the process is gone, the stored checkpoint is past the
      step, or it is unfinished for good: nothing is dispatched by any later resume, and a resume
      whose calls succeed ends in outcome-unknown. */
  lemma OnceDispatchedNeverAgain(setup: Setup, events: seq<Event>, i: nat, later: seq<Event>)
    requires var s := Run(setup, events); s.pc.Idle? && SingleWrites(s.log, i) == 1 && s.store.Some? && s.store.value.next <= i
    ensures var s := Run(setup, events);
            var t := RunFrom(setup, s, later);
            Unfinished(t, i) && forall d :: d in t.log && d.Dispatched? ==> d in s.log
  {
    RunOk(setup, events);
    UnfinishedForever(setup, Run(setup, events), later, i);
  }

  lemma {:induction false} UnfinishedForever(setup: Setup, s: System, later: seq<Event>, i: nat)
    requires s.started && Unfinished(s, i)
    ensures var t := RunFrom(setup, s, later);
            t.started && Unfinished(t, i) && forall d :: d in t.log && d.Dispatched? ==> d in s.log
  {
    if later != [] {
      UnfinishedForever(setup, s, later[..|later| - 1], i);
      UnfinishedStep(setup, RunFrom(setup, s, later[..|later| - 1]), later[|later| - 1], i);
    }
  }

  /** A resume of it ends in outcome-unknown when the workflow's authority holds and the load and the
      save go through; without the authority it changes nothing. */
  lemma ResumeEndsOutcomeUnknown(setup: Setup, s: System, given: map<string, Json>, authorized: bool,
                                 first: Choice, second: Choice, i: nat)
    requires s.started && s.pc.Idle? && Unfinished(s, i) && given.Keys == setup.inputs
    requires first.fault == NoFault && second.fault == NoFault && first.handle !in s.issued && second.handle !in s.issued
    ensures var loading := Apply(setup, s, Resume(given, authorized));
            var t := Apply(setup, Apply(setup, loading, Advance(first)), Advance(second));
            && t.pc.Idle? && Unfinished(t, i) && t.log == s.log
            && (if authorized then t.store.value.state == OutcomeUnknown else t == s)
  {
  }

  /** Every write on the log follows the consumption of a handle for its step: one the approver
      approved, not expired, bound to this run, workflow, plan, approval step, scope and these very
      arguments, and never consumed before. Unless the write is a keyed one taken up again, it is the
      only write that handle backs; and a keyed write always carries the key of its run and step. */
  lemma WritesAreApproved(setup: Setup, events: seq<Event>, k: nat)
    requires k < |Run(setup, events).log|
    requires Run(setup, events).log[k].Dispatched? && Run(setup, events).log[k].effect != Read
    ensures var log := Run(setup, events).log;
            var d := log[k];
            && d.step < |setup.steps| && setup.steps[d.step].approvalRef.Some?
            && (d.idempotency == Keyed ==> d.key == KeyFor(setup, d.step))
            && (d.consumed.None? ==> d.idempotency == Keyed)
            && (d.consumed.Some? ==> !Backs(log[..k], d.consumed.value))
            && exists j: nat, u: Entry :: j < k && u == log[j] && ApprovedUse(setup, log[..j], u, d)
  {
    var log := Run(setup, events).log;
    RunOk(setup, events);
    var before, d := log[..k], log[k];
    assert Backed(setup, before, d);
    var binding := ExpectedBinding(setup, setup.steps[d.step].approvalRef.value, d.arguments);
    var handle :| UsedFor(setup, before, handle, d.step, d.arguments) && (d.consumed.Some? ==> handle == d.consumed.value);
    var at: int :| Used(handle, binding, at, d.step) in before;
    var j :| 0 <= j < k && before[j] == Used(handle, binding, at, d.step);
    assert Backed(setup, log[..j], log[j]);
    assert ApprovedUse(setup, log[..j], log[j], d);
  }

  /** `u` consumed an approved, unexpired, unused handle under the binding that write `d` demands. */
  ghost predicate ApprovedUse(setup: Setup, before: seq<Entry>, u: Entry, d: Entry)
    requires d.Dispatched? && d.step < |setup.steps| && setup.steps[d.step].approvalRef.Some?
  {
    && u.Used? && u.step == d.step
    && u.binding == ExpectedBinding(setup, setup.steps[d.step].approvalRef.value, d.arguments)
    && (d.consumed.Some? ==> u.handle == d.consumed.value)
    && Answers(before, u.handle, u.binding, u.at) && !UsedBefore(before, u.handle)
  }

  // References.

  ghost predicate CpFilled(setup: Setup, cp: Checkpoint) {
    cp.next <= |setup.steps| && Filled(setup.steps, cp.next, setup.inputs, cp.values)
  }

  ghost predicate AllFilled(setup: Setup, s: System) {
    && (s.store.Some? ==> CpFilled(setup, s.store.value))
    && (match s.pc
        case Idle => true
        case Loading(given) => given.Keys == setup.inputs
        case Completing(cp, completed) => CpFilled(setup, cp) && CpFilled(setup, completed)
        case Failing(cp, goesOn) => CpFilled(setup, cp) && !goesOn
        case _ => CpFilled(setup, s.pc.cp))
  }

  predicate NeverContinues(setup: Setup) {
    forall i :: 0 <= i < |setup.steps| ==> !setup.steps[i].continues
  }

  lemma TailsFilled(setup: Setup, s: System, cp: Checkpoint, value: Json, c: Choice)
    requires NeverContinues(setup) && CpFilled(setup, cp)
    requires s.store.Some? ==> CpFilled(setup, s.store.value)
    ensures AllFilled(setup, Top(setup, s, cp, c))
    ensures AllFilled(setup, Fail(setup, s, cp, c))
    ensures AllFilled(setup, Complete(setup, s, cp, value, c))
  {
    if cp.next < |setup.steps| {
      RecordFills(setup.steps, cp.next, setup.inputs, value, cp.values);
    }
  }

  lemma ExportFilled(setup: Setup, s: System, cp: Checkpoint, step: Step, c: Choice)
    requires NeverContinues(setup) && CpFilled(setup, cp)
    requires s.store.Some? ==> CpFilled(setup, s.store.value)
    ensures AllFilled(setup, EnterExport(setup, s, cp, step, c))
  {
    TailsFilled(setup, s, cp, Null, c);
    var value := ResolveInput(step.input, cp.values);
    if value.Some? {
      var (s', handle) := ConsumeApproval(setup, s, cp, step, value.value, c);
      TailsFilled(setup, s', cp, if c.result.Some? then c.result.value else Null, c);
    }
  }

  lemma ConsumingLeavesStore(setup: Setup, s: System, cp: Checkpoint, step: Step, arguments: Json, c: Choice)
    ensures ConsumeApproval(setup, s, cp, step, arguments, c).0.store == s.store
  {
  }

  /** Entering a tool step fails it, or waits with the same values at the same step. */
  lemma ToolOutcomes(setup: Setup, s: System, cp: Checkpoint, step: Step, c: Choice)
    requires step.op.Tool?
    ensures var t := EnterTool(setup, s, cp, step, c);
            t.store == s.store &&
            ((exists s': System :: s'.store == s.store && t == Fail(setup, s', cp, c))
             || ((t.pc.Pending? || t.pc.Marking?) && t.pc.cp == cp))
  {
    var resolved := ResolveArguments(step.arguments, cp.values);
    if resolved.Some? {
      ConsumingLeavesStore(setup, s, cp, step, Object(resolved.value), c);
    }
  }

  lemma ToolFilled(setup: Setup, s: System, cp: Checkpoint, step: Step, c: Choice)
    requires NeverContinues(setup) && CpFilled(setup, cp) && step.op.Tool?
    requires s.store.Some? ==> CpFilled(setup, s.store.value)
    ensures AllFilled(setup, EnterTool(setup, s, cp, step, c))
  {
    var t := EnterTool(setup, s, cp, step, c);
    ToolOutcomes(setup, s, cp, step, c);
    if s': System :| s'.store == s.store && t == Fail(setup, s', cp, c) {
      TailsFilled(setup, s', cp, Null, c);
    }
  }

  lemma EnterFilled(setup: Setup, s: System, cp: Checkpoint, c: Choice)
    requires NeverContinues(setup) && CpFilled(setup, cp)
    requires s.store.Some? ==> CpFilled(setup, s.store.value)
    ensures AllFilled(setup, Enter(setup, s, cp, c))
  {
    if cp.next < |setup.steps| {
      var step := setup.steps[cp.next];
      match step.op {
        case Export => ExportFilled(setup, s, cp, step, c);
        case Tool(_) => ToolFilled(setup, s, cp, step, c);
        case _ => TailsFilled(setup, s, cp, Null, c);
      }
    }
  }

  lemma MarkingFilled(setup: Setup, s: System, c: Choice)
    requires NeverContinues(setup) && AllFilled(setup, s) && s.pc.Marking?
    ensures AllFilled(setup, Next(setup, s, c))
  {
    var cp := s.pc.cp;
    var marked := cp.(active := Some(s.pc.marker));
    TailsFilled(setup, SavedStore(s, marked, c.fault), cp, Null, c);
    TailsFilled(setup, SavedStore(s, marked, c.fault), marked, Null, c);
  }

  lemma CompletingFilled(setup: Setup, s: System, c: Choice)
    requires NeverContinues(setup) && AllFilled(setup, s) && s.pc.Completing?
    ensures AllFilled(setup, Next(setup, s, c))
  {
    var cp, completed := s.pc.cp, s.pc.completed;
    TailsFilled(setup, SavedStore(s, completed, c.fault), cp, Null, c);
    TailsFilled(setup, SavedStore(s, completed, c.fault), completed, Null, c);
  }

  lemma LoadingFilled(setup: Setup, s: System, c: Choice)
    requires NeverContinues(setup) && AllFilled(setup, s) && s.pc.Loading?
    ensures AllFilled(setup, Next(setup, s, c))
  {
    InitialValuesFill(setup.steps, s.pc.given);
    if s.store.Some? {
      TailsFilled(setup, s, s.store.value, Null, c);
    }
  }

  lemma NextFilled(setup: Setup, s: System, c: Choice)
    requires NeverContinues(setup) && AllFilled(setup, s)
    ensures AllFilled(setup, Next(setup, s, c))
  {
    var value := if c.result.Some? then c.result.value else Null;
    match s.pc {
      case Loading(_) => LoadingFilled(setup, s, c);
      case Creating(cp) => TailsFilled(setup, SavedStore(s, cp, c.fault), cp, Null, c);
      case Starting(cp) => EnterFilled(setup, SavedStore(s, cp, c.fault), cp, c);
      case Working(cp) => TailsFilled(setup, s, cp, value, c);
      case Pending(cp) => TailsFilled(setup, s, cp, value, c);
      case Reviewing(cp, handle) => AnswerFilled(setup, s, cp, handle, c);
      case Marking(_, _, _, _) => MarkingFilled(setup, s, c);
      case Completing(_, _) => CompletingFilled(setup, s, c);
      case _ =>
    }
  }

  lemma AnswerFilled(setup: Setup, s: System, cp: Checkpoint, handle: string, c: Choice)
    requires NeverContinues(setup) && CpFilled(setup, cp)
    requires s.store.Some? ==> CpFilled(setup, s.store.value)
    ensures AllFilled(setup, Answer(setup, s, cp, handle, c))
  {
    TailsFilled(setup, s, cp, Null, c);
    if c.answer.Some? && handle in s.handles {
      var reviewed := s.(handles := Reviewed(s.handles, handle, c.answer.value).value,
                         log := s.log + [Answered(handle, s.handles[handle].binding, s.handles[handle].expiresAt, c.answer.value)]);
      TailsFilled(setup, reviewed, cp, Text(handle), c);
    }
  }

  lemma {:induction false} RunFilled(setup: Setup, events: seq<Event>)
    requires NeverContinues(setup)
    ensures AllFilled(setup, Run(setup, events))
  {
    if events != [] {
      var before := Run(setup, events[..|events| - 1]);
      RunFilled(setup, events[..|events| - 1]);
      match events[|events| - 1] {
        case Start(given, _) => InitialValuesFill(setup.steps, given);
        case Advance(c) => NextFilled(setup, before, c);
        case _ =>
      }
    }
  }

  /** References accepted by validation resolve at run time: when no step continues after a failure,
      in every reachable state about to run a step, resumed or not, every input, step value and
      declared output that step may name is there. */
  lemma AcceptedReferencesResolve(setup: Setup, events: seq<Event>, ref: string)
    requires Validated(setup.steps, setup.inputs) && NeverContinues(setup)
    requires Run(setup, events).pc.Starting? && Run(setup, events).pc.cp.next < |setup.steps|
    requires var i := Run(setup, events).pc.cp.next;
             ReferenceAccepted(ref, Ids(setup.steps[..i]), setup.inputs) && Declared(ref, setup.steps[..i])
    ensures var values := Run(setup, events).pc.cp.values;
            ref in values && ResolveReference(ref, values) == Some(values[ref])
  {
    RunFilled(setup, events);
    var cp := Run(setup, events).pc.cp;
    AcceptedReferenceResolves(ref, setup.steps, cp.next, setup.inputs, cp.values);
  }
}
