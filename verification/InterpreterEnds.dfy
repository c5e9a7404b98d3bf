/** How a workflow run ends: in success when all its steps do, and otherwise in the state its failure,
    cancellation, deadline or pending write demands. */
module InterpreterEnds {
  import opened Prelude
  import opened References
  import opened Approvals
  import opened Interpreter
  import opened InterpreterSafety
  import opened InterpreterValues

  // Success is stored only at the end.

  ghost predicate EndsOk(setup: Setup, cp: Checkpoint) {
    cp.state == Succeeded ==> cp.next == |setup.steps| && cp.active.None?
  }

  ghost predicate AllEndOk(setup: Setup, s: System) {
    && (s.store.Some? ==> EndsOk(setup, s.store.value))
    && (match s.pc
        case Idle => true
        case Loading(_) => true
        case Completing(cp, completed) =>
          cp.state == completed.state == Running && cp.next < |setup.steps| && completed.next == cp.next + 1
        case Refusing(cp) => EndsOk(setup, cp)
        case Creating(cp) => cp.state != Succeeded
        case Failing(cp, _) => cp.state != Succeeded && cp.next < |setup.steps|
        case Ending(cp) => EndsOk(setup, cp)
        case _ => s.pc.cp.state == Running && s.pc.cp.next < |setup.steps|)
  }

  lemma TailsEndOk(setup: Setup, s: System, cp: Checkpoint, value: Json, c: Choice)
    requires s.store.Some? ==> EndsOk(setup, s.store.value)
    ensures AllEndOk(setup, Top(setup, s, cp, c)) && AllEndOk(setup, Fail(setup, s, cp, c))
    ensures cp.state == Running ==> AllEndOk(setup, Complete(setup, s, cp, value, c))
  {
  }

  lemma ExportEndOk(setup: Setup, s: System, cp: Checkpoint, step: Step, c: Choice)
    requires (s.store.Some? ==> EndsOk(setup, s.store.value)) && cp.state == Running && cp.next < |setup.steps|
    ensures AllEndOk(setup, EnterExport(setup, s, cp, step, c))
  {
    TailsEndOk(setup, s, cp, Null, c);
    var value := ResolveInput(step.input, cp.values);
    if value.Some? {
      var (s', handle) := ConsumeApproval(setup, s, cp, step, value.value, c);
      ConsumingLeavesStore(setup, s, cp, step, value.value, c);
      TailsEndOk(setup, s', cp, if c.result.Some? then c.result.value else Null, c);
    }
  }

  lemma ToolEndOk(setup: Setup, s: System, cp: Checkpoint, step: Step, c: Choice)
    requires (s.store.Some? ==> EndsOk(setup, s.store.value)) && cp.state == Running && cp.next < |setup.steps| && step.op.Tool?
    ensures AllEndOk(setup, EnterTool(setup, s, cp, step, c))
  {
    var t := EnterTool(setup, s, cp, step, c);
    ToolOutcomes(setup, s, cp, step, c);
    if s': System :| s'.store == s.store && t == Fail(setup, s', cp, c) {
      TailsEndOk(setup, s', cp, Null, c);
    }
  }

  lemma EnterEndOk(setup: Setup, s: System, cp: Checkpoint, c: Choice)
    requires (s.store.Some? ==> EndsOk(setup, s.store.value)) && cp.state == Running
    ensures AllEndOk(setup, Enter(setup, s, cp, c))
  {
    if cp.next < |setup.steps| {
      var step := setup.steps[cp.next];
      match step.op {
        case Export => ExportEndOk(setup, s, cp, step, c);
        case Tool(_) => ToolEndOk(setup, s, cp, step, c);
        case _ => TailsEndOk(setup, s, cp, Null, c);
      }
    }
  }

  lemma AnswerEndOk(setup: Setup, s: System, cp: Checkpoint, handle: string, c: Choice)
    requires (s.store.Some? ==> EndsOk(setup, s.store.value)) && cp.state == Running
    ensures AllEndOk(setup, Answer(setup, s, cp, handle, c))
  {
    TailsEndOk(setup, s, cp, Null, c);
    if c.answer.Some? && handle in s.handles {
      var reviewed := s.(handles := Reviewed(s.handles, handle, c.answer.value).value,
                         log := s.log + [Answered(handle, s.handles[handle].binding, s.handles[handle].expiresAt, c.answer.value)]);
      TailsEndOk(setup, reviewed, cp, Text(handle), c);
    }
  }

  lemma SavedEndOk(setup: Setup, s: System, c: Choice)
    requires AllEndOk(setup, s) && (s.pc.Loading? || s.pc.Creating? || s.pc.Failing?)
    ensures AllEndOk(setup, Next(setup, s, c))
  {
    match s.pc {
      case Loading(_) =>
        if s.store.Some? {
          TailsEndOk(setup, s, s.store.value, Null, c);
        }
      case Creating(cp) => TailsEndOk(setup, SavedStore(s, cp, c.fault), cp, Null, c);
      case Failing(cp, _) =>
        TailsEndOk(setup, SavedStore(s, cp, c.fault), cp.(state := Running, next := cp.next + 1), Null, c);
    }
  }

  lemma MarkedEndOk(setup: Setup, s: System, c: Choice)
    requires AllEndOk(setup, s) && s.pc.Marking?
    ensures AllEndOk(setup, Next(setup, s, c))
  {
    var marked := s.pc.cp.(active := Some(s.pc.marker));
    TailsEndOk(setup, SavedStore(s, marked, c.fault), s.pc.cp, Null, c);
    TailsEndOk(setup, SavedStore(s, marked, c.fault), marked, Null, c);
  }

  lemma CompletedEndOk(setup: Setup, s: System, c: Choice)
    requires AllEndOk(setup, s) && s.pc.Completing?
    ensures AllEndOk(setup, Next(setup, s, c))
  {
    TailsEndOk(setup, SavedStore(s, s.pc.completed, c.fault), s.pc.cp, Null, c);
    TailsEndOk(setup, SavedStore(s, s.pc.completed, c.fault), s.pc.completed, Null, c);
  }

  lemma NextEndOk(setup: Setup, s: System, c: Choice)
    requires AllEndOk(setup, s)
    ensures AllEndOk(setup, Next(setup, s, c))
  {
    var value := if c.result.Some? then c.result.value else Null;
    match s.pc {
      case Starting(cp) => EnterEndOk(setup, SavedStore(s, cp, c.fault), cp, c);
      case Working(cp) => TailsEndOk(setup, s, cp, value, c);
      case Pending(cp) => TailsEndOk(setup, s, cp, value, c);
      case Reviewing(cp, handle) => AnswerEndOk(setup, s, cp, handle, c);
      case Idle =>
      case Refusing(_) =>
      case Ending(_) =>
      case Marking(_, _, _, _) => MarkedEndOk(setup, s, c);
      case Completing(_, _) => CompletedEndOk(setup, s, c);
      case _ => SavedEndOk(setup, s, c);
    }
  }

  lemma {:induction false} RunEndOk(setup: Setup, events: seq<Event>)
    ensures AllEndOk(setup, Run(setup, events))
  {
    if events != [] {
      RunEndOk(setup, events[..|events| - 1]);
      if events[|events| - 1].Advance? {
        NextEndOk(setup, Run(setup, events[..|events| - 1]), events[|events| - 1].choice);
      }
    }
  }

  /** In every run, success is stored only past the last step and with no write pending; and when no step
      continues after a failure, only with every input, every step's result and every output there. */
  lemma SucceededOnlyAtTheEnd(setup: Setup, events: seq<Event>)
    requires var s := Run(setup, events); s.store.Some? && s.store.value.state == Succeeded
    ensures var cp := Run(setup, events).store.value;
            && cp.next == |setup.steps| && cp.active.None?
            && (NeverContinues(setup) ==> Filled(setup.steps, |setup.steps|, setup.inputs, cp.values))
  {
    RunEndOk(setup, events);
    if NeverContinues(setup) {
      RunFilled(setup, events);
    }
  }

  // Between two steps.

  /** The checkpoint a process goes on from once the pending call succeeds, if it stands between steps. */
  function Standing(s: System): Option<Checkpoint> {
    match s.pc
    case Loading(_) => if s.store.Some? && !Unresolved(s.store.value) then s.store else None
    case Creating(cp) => Some(cp)
    case Completing(_, completed) => Some(completed)
    case Failing(cp, goesOn) => if goesOn then Some(cp.(next := cp.next + 1)) else None
    case _ => None
  }

  lemma TurnIsTop(setup: Setup, s: System, c: Choice) returns (saved: System)
    requires Standing(s).Some? && c.fault == NoFault && c.handle !in s.issued
    ensures saved.store.Some? && saved.store.value.values == Standing(s).value.values && saved.issued == s.issued
    ensures Apply(setup, s, Advance(c)) == Top(setup, saved, Standing(s).value, c)
  {
    saved := match s.pc
             case Creating(cp) => SavedStore(s, cp, NoFault)
             case Completing(_, completed) => SavedStore(s, completed, NoFault)
             case Failing(cp, _) => SavedStore(s, cp, NoFault)
             case _ => s;
  }

  /** What is stored and where the run is once it has turned from that checkpoint, and saved if it ends. */
  lemma TurnsExactly(setup: Setup, s: System, c: Choice, d: Choice)
    requires Standing(s).Some? && Standing(s).value.next <= |setup.steps|
    requires c.fault == NoFault && d.fault == NoFault && c.handle !in s.issued && d.handle !in s.issued
    ensures var cp := Standing(s).value;
            var turned := Apply(setup, s, Advance(c));
            var ended := Apply(setup, turned, Advance(d));
            if cp.next == |setup.steps| then
              ended.pc.Idle? && ended.store == Some(Checkpoint(Succeeded, |setup.steps|, cp.values, None))
            else if !c.authorized then
              turned.pc.Idle? && turned.store.Some? && turned.store.value.values == Standing(s).value.values
            else if c.cancelled then
              ended.pc.Idle? && ended.store == Some(Checkpoint(Cancelled, cp.next, cp.values, cp.active))
            else if c.late then
              ended.pc.Idle? && ended.store == Some(Checkpoint(Paused, cp.next, cp.values, cp.active))
            else turned.pc == Starting(Checkpoint(Running, cp.next, cp.values, cp.active))
  {
    var saved := TurnIsTop(setup, s, c);
    var turned := Apply(setup, s, Advance(c));
    if turned.pc.Ending? {
      EndingSaves(setup, turned, d);
    }
  }

  /** A resume of a stored run, but one whose write is unresolved, goes on from what is stored. */
  lemma ResumeGoesOn(setup: Setup, s: System, given: map<string, Json>, c: Choice)
    requires s.started && s.pc.Idle? && s.store.Some? && s.store.value.next < |setup.steps|
    requires var active := s.store.value.active;
             active.Some? ==> active.value.effect == Read || active.value.idempotency != NoIdempotency
    requires given.Keys == setup.inputs && c.handle !in s.issued
    requires c.fault == NoFault && c.authorized && !c.cancelled && !c.late
    ensures Apply(setup, Apply(setup, s, Resume(given, true)), Advance(c)).pc == Starting(s.store.value.(state := Running))
  {
    var loading := Apply(setup, s, Resume(given, true));
    assert Standing(loading) == s.store;
    TurnsExactly(setup, loading, c, c);
  }

  /** A resume that finds nothing stored begins the run over, on the inputs it was given. */
  lemma ResumeOfNothingStarts(setup: Setup, s: System, given: map<string, Json>, c: Choice, d: Choice)
    requires s.started && s.pc.Idle? && s.store.None? && given.Keys == setup.inputs && |setup.steps| > 0
    requires c.fault == NoFault && c.handle !in s.issued && d.fault == NoFault && d.handle !in s.issued
    requires d.authorized && !d.cancelled && !d.late
    ensures var t := Apply(setup, Apply(setup, Apply(setup, s, Resume(given, true)), Advance(c)), Advance(d));
            && t.store == Some(Checkpoint(Created, 0, InitialValues(given), None))
            && t.pc == Starting(Checkpoint(Running, 0, InitialValues(given), None))
  {
  }

  lemma EndingSaves(setup: Setup, s: System, d: Choice)
    requires s.pc.Ending? && d.fault == NoFault && d.handle !in s.issued
    ensures Apply(setup, s, Advance(d)) == s.(store := Some(s.pc.cp), pc := Idle)
  {
  }

  // Failed steps.

  /** The handle a step refers to is approved for these arguments, unused and unexpired. */
  predicate Approvable(setup: Setup, s: System, cp: Checkpoint, step: Step, arguments: Json, now: int) {
    && step.approvalRef.Some?
    && ResolveReference(step.approvalRef.value, cp.values).Some?
    && var value := ResolveReference(step.approvalRef.value, cp.values).value;
       && value.Text? && value.s in s.handles
       && var handle := s.handles[value.s];
          && handle.approved && !handle.consumed && now < handle.expiresAt
          && handle.binding == ExpectedBinding(setup, step.approvalRef.value, arguments)
  }

  /** The checkpoint's marker is of this very step, and of a keyed write with the tool's effect. */
  predicate TakesUp(cp: Checkpoint, step: Step, tool: Descriptor) {
    match cp.active
    case None => false
    case Some(marker) =>
      marker.stepId == step.id && marker.effect == tool.effect && marker.idempotency == Keyed && marker.key.Some?
  }

  /** Everything a step needs before anything is awaited. */
  predicate Doable(setup: Setup, s: System, cp: Checkpoint, c: Choice)
    requires cp.next < |setup.steps|
  {
    var step := setup.steps[cp.next];
    && ResolveInput(step.input, cp.values).Some?
    && match step.op
       case Adapter => true
       case Approval => true
       case Export =>
         Approvable(setup, s, cp, step, ResolveInput(step.input, cp.values).value, c.now) && c.result.Some?
       case Tool(name) =>
         && name in setup.tools && c.authorized
         && ResolveArguments(step.arguments, cp.values).Some?
         && (setup.tools[name].effect == Read
             || TakesUp(cp, step, setup.tools[name])
             || Approvable(setup, s, cp, step, Object(ResolveArguments(step.arguments, cp.values).value), c.now))
  }

  /** The step the process is at fails with this choice. */
  predicate StepFails(setup: Setup, s: System, c: Choice) {
    match s.pc
    case Starting(cp) => c.fault == NoFault && cp.next < |setup.steps| && !Doable(setup, s, cp, c)
    case Working(_) => c.result.None?
    case Pending(_) => c.result.None?
    case Reviewing(_, handle) => handle !in s.handles || c.answer != Some(true)
    case Marking(_, _, _, _) => c.fault != NoFault || c.cancelled
    case Completing(_, _) => c.fault != NoFault
    case _ => false
  }

  /** The marker that stands when it does. */
  function StandingMarker(s: System, c: Choice): Option<ActiveStep>
    requires !s.pc.Idle? && !s.pc.Loading?
  {
    if s.pc.Marking? && c.fault == NoFault then Some(s.pc.marker) else s.pc.cp.active
  }

  lemma ConsumesExactly(setup: Setup, s: System, cp: Checkpoint, step: Step, arguments: Json, c: Choice)
    ensures var (s', handle) := ConsumeApproval(setup, s, cp, step, arguments, c);
            && (handle.Some? <==> Approvable(setup, s, cp, step, arguments, c.now))
            && s'.store == s.store && s'.pc == s.pc && s'.issued == s.issued && s'.started == s.started
            && (handle.Some? ==>
                  var name := ResolveReference(step.approvalRef.value, cp.values).value.s;
                  && handle.value == name && s'.handles == s.handles - {name}
                  && s'.log == s.log + [Used(name, ExpectedBinding(setup, step.approvalRef.value, arguments), c.now, cp.next)])
  {
  }

  /** A crash that spares the broker spares what was approved; one that does not, and a revocation, leave
      nothing to use. */
  lemma ApprovalsAfter(setup: Setup, s: System, cp: Checkpoint, step: Step, arguments: Json, now: int, handle: string)
    ensures Approvable(setup, Apply(setup, s, Crash(false)), cp, step, arguments, now) <==> Approvable(setup, s, cp, step, arguments, now)
    ensures !Approvable(setup, Apply(setup, s, Crash(true)), cp, step, arguments, now)
    ensures Approvable(setup, Apply(setup, s, Event.Revoke(handle)), cp, step, arguments, now) <==>
            Approvable(setup, s, cp, step, arguments, now) && ResolveReference(step.approvalRef.value, cp.values) != Some(Text(handle))
  {
  }

  ghost predicate FailsFrom(setup: Setup, s: System, cp: Checkpoint, c: Choice, t: System) {
    exists s': System :: s'.store == s.store && s'.issued == s.issued && t == Fail(setup, s', cp, c)
  }

  lemma ExportFailsExactly(setup: Setup, s: System, cp: Checkpoint, c: Choice)
    requires cp.next < |setup.steps| && setup.steps[cp.next].op.Export?
    ensures var t := EnterExport(setup, s, cp, setup.steps[cp.next], c);
            if Doable(setup, s, cp, c) then !t.pc.Failing? else FailsFrom(setup, s, cp, c, t)
  {
    var step := setup.steps[cp.next];
    var value := ResolveInput(step.input, cp.values);
    var t := EnterExport(setup, s, cp, step, c);
    if value.Some? {
      ConsumesExactly(setup, s, cp, step, value.value, c);
      var (s', handle) := ConsumeApproval(setup, s, cp, step, value.value, c);
      if !Doable(setup, s, cp, c) {
        assert t == Fail(setup, s', cp, c);
      }
    } else {
      assert t == Fail(setup, s, cp, c);
    }
  }

  lemma ToolFailsExactly(setup: Setup, s: System, cp: Checkpoint, c: Choice)
    requires cp.next < |setup.steps| && setup.steps[cp.next].op.Tool?
    ensures var t := EnterTool(setup, s, cp, setup.steps[cp.next], c);
            if Doable(setup, s, cp, c) then !t.pc.Failing? else FailsFrom(setup, s, cp, c, t)
  {
    var step := setup.steps[cp.next];
    var resolved := ResolveArguments(step.arguments, cp.values);
    var t := EnterTool(setup, s, cp, step, c);
    if resolved.Some? {
      ConsumesExactly(setup, s, cp, step, Object(resolved.value), c);
      var (s', handle) := ConsumeApproval(setup, s, cp, step, Object(resolved.value), c);
      if !Doable(setup, s, cp, c) {
        assert t == Fail(setup, s', cp, c) || t == Fail(setup, s, cp, c);
      }
    } else {
      assert t == Fail(setup, s, cp, c);
    }
  }

  /** Entering a step fails it exactly when something it needs is missing. */
  lemma EnterFailsExactly(setup: Setup, s: System, cp: Checkpoint, c: Choice)
    requires cp.next < |setup.steps|
    ensures var t := Enter(setup, s, cp, c);
            if Doable(setup, s, cp, c) then !t.pc.Failing? else FailsFrom(setup, s, cp, c, t)
  {
    var step := setup.steps[cp.next];
    match step.op {
      case Export => ExportFailsExactly(setup, s, cp, c);
      case Tool(_) => ToolFailsExactly(setup, s, cp, c);
      case _ =>
        if ResolveInput(step.input, cp.values).None? {
          assert Enter(setup, s, cp, c) == Fail(setup, s, cp, c);
        }
    }
  }

  /** The state of a run one of whose steps fails: unknown when a write that must not be repeated has been
      marked, and else cancelled or failed. */
  function FailureState(marker: Option<ActiveStep>, cancelled: bool): RunState {
    if marker.Some? && marker.value.idempotency == NoIdempotency then OutcomeUnknown
    else if cancelled then Cancelled
    else FailedRun
  }

  lemma FailsToFailing(setup: Setup, s: System, cp: Checkpoint, c: Choice)
    requires cp.next < |setup.steps|
    requires cp.active.Some? ==> cp.active.value.stepId == setup.steps[cp.next].id && cp.active.value.effect != Read
    ensures Fail(setup, s, cp, c) ==
            s.(pc := Failing(Checkpoint(FailureState(cp.active, c.cancelled), cp.next, cp.values, cp.active),
                             setup.steps[cp.next].continues && cp.active.None?))
  {
  }

  /** A failing step brings the run to its failure handler, over whichever store. */
  lemma StepFailsTo(setup: Setup, s: System, c: Choice)
    requires Inv(setup, s) && AllEndOk(setup, s) && StepFails(setup, s, c)
    ensures var (cp, marker) := (s.pc.cp, StandingMarker(s, c));
            var t := Next(setup, s, c);
            && t.issued == s.issued
            && t.pc == Failing(Checkpoint(FailureState(marker, c.cancelled), cp.next, cp.values, marker),
                               setup.steps[cp.next].continues && marker.None?)
  {
    var cp := s.pc.cp;
    FailsToFailing(setup, s, cp, c);
    match s.pc {
      case Starting(_) =>
        var saved := SavedStore(s, cp, c.fault);
        DoableOfStore(setup, s, saved, cp, c);
        EnterFailsExactly(setup, saved, cp, c);
        var s': System :| s'.store == saved.store && s'.issued == saved.issued && Enter(setup, saved, cp, c) == Fail(setup, s', cp, c);
        FailsToFailing(setup, s', cp, c);
      case Reviewing(_, handle) => ReviewFails(setup, s, c);
      case Marking(_, marker, _, _) => MarkingFails(setup, s, c);
      case Completing(_, completed) => FailsToFailing(setup, SavedStore(s, completed, c.fault), cp, c);
      case _ =>
    }
  }

  lemma DoableOfStore(setup: Setup, s: System, saved: System, cp: Checkpoint, c: Choice)
    requires cp.next < |setup.steps| && saved.handles == s.handles
    ensures Doable(setup, saved, cp, c) == Doable(setup, s, cp, c)
  {
  }

  lemma ReviewFails(setup: Setup, s: System, c: Choice)
    requires Inv(setup, s) && AllEndOk(setup, s) && s.pc.Reviewing? && StepFails(setup, s, c)
    ensures var cp := s.pc.cp;
            var t := Next(setup, s, c);
            && t.issued == s.issued
            && t.pc == Failing(Checkpoint(FailureState(cp.active, c.cancelled), cp.next, cp.values, cp.active),
                               setup.steps[cp.next].continues && cp.active.None?)
  {
    var cp, handle := s.pc.cp, s.pc.handle;
    FailsToFailing(setup, s, cp, c);
    if c.answer.Some? && handle in s.handles {
      var reviewed := s.(handles := Reviewed(s.handles, handle, c.answer.value).value,
                         log := s.log + [Answered(handle, s.handles[handle].binding, s.handles[handle].expiresAt, c.answer.value)]);
      FailsToFailing(setup, reviewed, cp, c);
    }
  }

  lemma MarkingFails(setup: Setup, s: System, c: Choice)
    requires Inv(setup, s) && AllEndOk(setup, s) && s.pc.Marking? && StepFails(setup, s, c)
    ensures var (cp, marker) := (s.pc.cp, StandingMarker(s, c));
            var t := Next(setup, s, c);
            && t.issued == s.issued
            && t.pc == Failing(Checkpoint(FailureState(marker, c.cancelled), cp.next, cp.values, marker),
                               setup.steps[cp.next].continues && marker.None?)
  {
    var cp, marked := s.pc.cp, s.pc.cp.(active := Some(s.pc.marker));
    assert MarkerOk(setup, s.log, marked);
    FailsToFailing(setup, SavedStore(s, marked, c.fault), cp, c);
    FailsToFailing(setup, SavedStore(s, marked, c.fault), marked, c);
  }

  /** In every run: a step that fails, with nothing that lets the run continue, ends it with exactly this
      checkpoint stored once the handler's save goes through: the same step and values, the marker of a
      write that may have left, and the state that marker demands. */
  lemma FailureEndsExactly(setup: Setup, events: seq<Event>, c: Choice, d: Choice)
    requires var s := Run(setup, events); StepFails(setup, s, c) && c.handle !in s.issued && d.handle !in s.issued && d.fault == NoFault
    ensures var s := Run(setup, events);
            var (cp, marker) := (s.pc.cp, StandingMarker(s, c));
            var failed := Checkpoint(FailureState(marker, c.cancelled), cp.next, cp.values, marker);
            && cp.next < |setup.steps|
            && if setup.steps[cp.next].continues && marker.None?
               then Run(setup, events + [Advance(c)]).pc == Failing(failed, true)
               else var t := Run(setup, events + [Advance(c)] + [Advance(d)]); t.pc.Idle? && t.store == Some(failed)
  {
    RunOk(setup, events);
    RunEndOk(setup, events);
    StepFailsTo(setup, Run(setup, events), c);
    RunSnoc(setup, events, Advance(c));
    RunSnoc(setup, events + [Advance(c)], Advance(d));
    FailingSaves(setup, Run(setup, events + [Advance(c)]), d);
  }

  lemma FailingSaves(setup: Setup, s: System, d: Choice)
    requires s.pc.Failing? && d.fault == NoFault && d.handle !in s.issued
    ensures !s.pc.goesOn ==> Apply(setup, s, Advance(d)) == s.(store := Some(s.pc.cp), pc := Idle)
  {
  }
}
