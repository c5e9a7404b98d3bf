/** Undisturbed workflow runs: what each step does when nothing it awaits fails, and that a run of doable
    steps succeeds with the result of every one of them. */
module InterpreterSuccess {
  import opened Prelude
  import opened References
  import opened Approvals
  import opened Interpreter
  import opened InterpreterSafety
  import opened InterpreterValues
  import opened InterpreterEnds

  /** What the surroundings do at one step: the time, a fresh handle if it asks for approval, its result. */
  datatype Play = Play(now: int, handle: string, result: Json)

  function Quiet(p: Play, handle: string): Choice {
    Choice(NoFault, true, false, false, p.now, handle, Some(true), Some(p.result))
  }

  /** The moves of one step, from the save that starts it to the save that completes it. */
  function Moves(setup: Setup, step: Step, p: Play, spare: string): seq<Event> {
    var first, then_ := Advance(Quiet(p, p.handle)), Advance(Quiet(p, spare));
    if Marks(setup, step) then [first, then_, then_, then_]
    else if step.op.Export? then [first, then_]
    else [first, then_, then_]
  }

  /** The step writes, and so is marked before it is dispatched. */
  predicate Marks(setup: Setup, step: Step) {
    match step.op
    case Export => setup.exporter
    case Tool(name) => name in setup.tools && setup.tools[name].effect != Read
    case _ => false
  }

  function ValueOf(step: Step, p: Play): Json {
    if step.op.Approval? then Text(p.handle) else p.result
  }

  /** The checkpoint of a completed step. */
  function Completed(step: Step, cp: Checkpoint, p: Play): Checkpoint {
    Checkpoint(Running, cp.next + 1, Record(step, ValueOf(step, p), cp.values), None)
  }

  function After(setup: Setup, completed: Checkpoint): Pc {
    if completed.next >= |setup.steps| then Ending(completed.(state := Succeeded, next := |setup.steps|)) else Starting(completed)
  }

  /** The handle a write uses up. */
  function HandleOf(step: Step, values: Values): string {
    if step.approvalRef.Some? then
      match ResolveReference(step.approvalRef.value, values)
      case Some(Text(name)) => name
      case _ => ""
    else ""
  }

  function ArgumentsFor(step: Step, values: Values): Json {
    match ArgumentsOf(step, values)
    case Some(arguments) => arguments
    case None => Null
  }

  /** The write is a keyed one taken up again. */
  predicate TakenUp(setup: Setup, step: Step, cp: Checkpoint) {
    step.op.Tool? && step.op.tool in setup.tools && TakesUp(cp, step, setup.tools[step.op.tool])
  }

  /** The idempotency key a write carries: its own step's in this run, or the one it was marked with. */
  function KeyOf(setup: Setup, step: Step, cp: Checkpoint): Option<Key> {
    if !step.op.Tool? || step.op.tool !in setup.tools || setup.tools[step.op.tool].idempotency != Keyed then None
    else if cp.active.Some? && cp.active.value.stepId == step.id && cp.active.value.key.Some? then cp.active.value.key
    else Some(Key(setup.runId, setup.workflowId, setup.plan, step.id, step.op.tool))
  }

  function DescriptorOf(setup: Setup, step: Step): Descriptor {
    if step.op.Tool? && step.op.tool in setup.tools then setup.tools[step.op.tool] else Descriptor(LocalWrite, NoIdempotency)
  }

  /** What a step leaves on the log: an answer, a read, or the use of a handle and the write it allows. */
  function Traces(setup: Setup, step: Step, cp: Checkpoint, p: Play): seq<Entry> {
    var name, arguments, tool := HandleOf(step, cp.values), ArgumentsFor(step, cp.values), DescriptorOf(setup, step);
    var used := if step.approvalRef.Some? then
                  [Used(name, ExpectedBinding(setup, step.approvalRef.value, arguments), p.now, cp.next)]
                else [];
    match step.op
    case Adapter => []
    case Approval => [Answered(p.handle, RequestedBinding(setup, step, arguments), p.now + setup.lifetime, true)]
    case Export => used + if setup.exporter then [Dispatched(cp.next, LocalWrite, NoIdempotency, None, arguments, Some(name))] else []
    case Tool(_) =>
      if tool.effect == Read || TakenUp(setup, step, cp)
      then [Dispatched(cp.next, tool.effect, tool.idempotency, KeyOf(setup, step, cp), arguments, None)]
      else used + [Dispatched(cp.next, tool.effect, tool.idempotency, KeyOf(setup, step, cp), arguments, Some(name))]
  }

  /** The handles a step leaves: an approved one more, or the one it used less. */
  function HandlesAfter(setup: Setup, step: Step, cp: Checkpoint, p: Play, handles: Handles): Handles {
    match step.op
    case Adapter => handles
    case Approval => handles[p.handle := Handle(RequestedBinding(setup, step, ArgumentsFor(step, cp.values)), p.now + setup.lifetime, true, false)]
    case Export => handles - {HandleOf(step, cp.values)}
    case Tool(_) =>
      if DescriptorOf(setup, step).effect == Read || TakenUp(setup, step, cp) then handles
      else handles - {HandleOf(step, cp.values)}
  }

  /** The run once the step it starts at is done. */
  function Done(setup: Setup, s: System, cp: Checkpoint, p: Play): System
    requires cp.next < |setup.steps|
  {
    var step := setup.steps[cp.next];
    var completed := Completed(step, cp, p);
    s.(store := Some(completed), pc := After(setup, completed),
       handles := HandlesAfter(setup, step, cp, p, s.handles),
       issued := s.issued + if step.op.Approval? then {p.handle} else {},
       log := s.log + Traces(setup, step, cp, p))
  }

  /** The step can be done as the run stands, with these handles fresh. */
  ghost predicate Ready(setup: Setup, s: System, p: Play, spare: string) {
    && s.pc.Starting? && s.pc.cp.next < |setup.steps| && Doable(setup, s, s.pc.cp, Quiet(p, p.handle))
    && p.handle !in s.issued && spare !in s.issued && p.handle != spare
  }

  // Step by step.

  lemma FromSnoc(setup: Setup, s: System, events: seq<Event>, e: Event)
    ensures RunFrom(setup, s, events + [e]) == Apply(setup, RunFrom(setup, s, events), e)
  {
    assert (events + [e])[..|events|] == events;
  }

  lemma FromThree(setup: Setup, s: System, a: Event, b: Event, c: Event, t: System, u: System)
    requires Apply(setup, s, a) == t && Apply(setup, t, b) == u
    ensures RunFrom(setup, s, [a, b]) == u
    ensures RunFrom(setup, s, [a, b, c]) == Apply(setup, u, c)
  {
    assert [a] == [] + [a] && [a, b] == [a] + [b] && [a, b, c] == [a, b] + [c];
    FromSnoc(setup, s, [], a);
    FromSnoc(setup, s, [a], b);
    FromSnoc(setup, s, [a, b], c);
  }

  /** A value comes, and its save goes through. */
  lemma Finishes(setup: Setup, s: System, step: Step, cp: Checkpoint, value: Json, c: Choice)
    requires cp.next < |setup.steps| && step == setup.steps[cp.next] && s.pc == Complete(setup, s, cp, value, c).pc
    requires c.fault == NoFault && c.authorized && !c.cancelled && !c.late && c.handle !in s.issued
    ensures var completed := Checkpoint(Running, cp.next + 1, Record(step, value, cp.values), None);
            Apply(setup, s, Advance(c)) == s.(store := Some(completed), pc := After(setup, completed))
  {
  }

  /** The save that starts a step goes through. */
  lemma Enters(setup: Setup, s: System, p: Play)
    requires s.pc.Starting? && s.pc.cp.next < |setup.steps| && p.handle !in s.issued
    ensures Apply(setup, s, Advance(Quiet(p, p.handle))) == Enter(setup, s.(store := Some(s.pc.cp)), s.pc.cp, Quiet(p, p.handle))
  {
  }

  lemma AdapterSucceeds(setup: Setup, s: System, p: Play, spare: string)
    requires Ready(setup, s, p, spare) && setup.steps[s.pc.cp.next].op.Adapter?
    ensures RunFrom(setup, s, Moves(setup, setup.steps[s.pc.cp.next], p, spare)) == Done(setup, s, s.pc.cp, p)
  {
    var cp, step := s.pc.cp, setup.steps[s.pc.cp.next];
    var first, then_ := Advance(Quiet(p, p.handle)), Advance(Quiet(p, spare));
    Enters(setup, s, p);
    var t := s.(store := Some(cp), pc := Working(cp));
    var u := Complete(setup, t, cp, p.result, Quiet(p, spare));
    assert Apply(setup, t, then_) == u;
    FromThree(setup, s, first, then_, then_, t, u);
    Finishes(setup, u, step, cp, p.result, Quiet(p, spare));
  }

  lemma ApprovalSucceeds(setup: Setup, s: System, p: Play, spare: string)
    requires Ready(setup, s, p, spare) && setup.steps[s.pc.cp.next].op.Approval?
    ensures RunFrom(setup, s, Moves(setup, setup.steps[s.pc.cp.next], p, spare)) == Done(setup, s, s.pc.cp, p)
  {
    var cp, step := s.pc.cp, setup.steps[s.pc.cp.next];
    var first, then_ := Advance(Quiet(p, p.handle)), Advance(Quiet(p, spare));
    var binding := RequestedBinding(setup, step, ArgumentsFor(step, cp.values));
    Enters(setup, s, p);
    var t := s.(store := Some(cp), pc := Reviewing(cp, p.handle), issued := s.issued + {p.handle},
                handles := s.handles[p.handle := Handle(binding, p.now + setup.lifetime, false, false)]);
    var reviewed := t.(handles := s.handles[p.handle := Handle(binding, p.now + setup.lifetime, true, false)],
                       log := s.log + [Answered(p.handle, binding, p.now + setup.lifetime, true)]);
    assert Apply(setup, s, first) == t;
    assert Reviewed(t.handles, p.handle, true).value == reviewed.handles;
    var u := Complete(setup, reviewed, cp, Text(p.handle), Quiet(p, spare));
    assert Apply(setup, t, then_) == u;
    FromThree(setup, s, first, then_, then_, t, u);
    Finishes(setup, u, step, cp, Text(p.handle), Quiet(p, spare));
    ApprovedIsDone(setup, s, cp, p, binding);
  }

  lemma ApprovedIsDone(setup: Setup, s: System, cp: Checkpoint, p: Play, binding: Binding)
    requires cp.next < |setup.steps| && setup.steps[cp.next].op.Approval?
    requires binding == RequestedBinding(setup, setup.steps[cp.next], ArgumentsFor(setup.steps[cp.next], cp.values))
    ensures var completed := Checkpoint(Running, cp.next + 1, Record(setup.steps[cp.next], Text(p.handle), cp.values), None);
            Done(setup, s, cp, p) ==
            s.(store := Some(completed), pc := After(setup, completed), issued := s.issued + {p.handle},
               handles := s.handles[p.handle := Handle(binding, p.now + setup.lifetime, true, false)],
               log := s.log + [Answered(p.handle, binding, p.now + setup.lifetime, true)])
  {
  }

  /** A read leaves at once. */
  lemma ReadSucceeds(setup: Setup, s: System, p: Play, spare: string)
    requires Ready(setup, s, p, spare) && setup.steps[s.pc.cp.next].op.Tool? && !Marks(setup, setup.steps[s.pc.cp.next])
    ensures RunFrom(setup, s, Moves(setup, setup.steps[s.pc.cp.next], p, spare)) == Done(setup, s, s.pc.cp, p)
  {
    var cp, step := s.pc.cp, setup.steps[s.pc.cp.next];
    var first, then_ := Advance(Quiet(p, p.handle)), Advance(Quiet(p, spare));
    Enters(setup, s, p);
    var t := s.(store := Some(cp), pc := Pending(cp), log := s.log + Traces(setup, step, cp, p));
    assert Apply(setup, s, first) == t;
    var u := Complete(setup, t, cp, p.result, Quiet(p, spare));
    assert Apply(setup, t, then_) == u;
    FromThree(setup, s, first, then_, then_, t, u);
    Finishes(setup, u, step, cp, p.result, Quiet(p, spare));
  }

  /** The run once a write has left. */
  function Left(s: System, cp: Checkpoint, marker: ActiveStep, arguments: Json, consumed: Option<string>): System {
    var marked := cp.(active := Some(marker));
    s.(store := Some(marked), pc := Pending(marked),
       log := s.log + [Dispatched(cp.next, marker.effect, marker.idempotency, marker.key, arguments, consumed)])
  }

  lemma MarkerIsSaved(setup: Setup, s: System, cp: Checkpoint, marker: ActiveStep, arguments: Json, consumed: Option<string>, c: Choice)
    requires s.pc == Marking(cp, marker, arguments, consumed) && c.handle !in s.issued && c.fault == NoFault && !c.cancelled
    ensures Apply(setup, s, Advance(c)) == Left(s, cp, marker, arguments, consumed)
  {
  }

  lemma AnswerComes(setup: Setup, t: System, c: Choice)
    requires t.pc.Pending? && c.handle !in t.issued && c.result.Some?
    ensures Apply(setup, t, Advance(c)) == Complete(setup, t, t.pc.cp, c.result.value, c)
  {
  }

  /** A marked write: the marker is saved, the write leaves, its answer comes, and completion is saved. */
  lemma MarkedSucceeds(setup: Setup, s: System, cp: Checkpoint, marker: ActiveStep, arguments: Json, consumed: Option<string>,
                       p: Play, spare: string)
    requires cp.next < |setup.steps| && s.pc == Marking(cp, marker, arguments, consumed) && spare !in s.issued
    ensures var then_ := Advance(Quiet(p, spare));
            var step := setup.steps[cp.next];
            var completed := Checkpoint(Running, cp.next + 1, Record(step, p.result, cp.values), None);
            RunFrom(setup, s, [then_, then_, then_]) ==
            s.(store := Some(completed), pc := After(setup, completed),
               log := s.log + [Dispatched(cp.next, marker.effect, marker.idempotency, marker.key, arguments, consumed)])
  {
    var c, step := Quiet(p, spare), setup.steps[cp.next];
    var t := Left(s, cp, marker, arguments, consumed);
    var u := Complete(setup, t, t.pc.cp, p.result, c);
    MarkerIsSaved(setup, s, cp, marker, arguments, consumed, c);
    AnswerComes(setup, t, c);
    Finishes(setup, u, step, t.pc.cp, p.result, c);
    FromThreeTo(setup, s, Advance(c), t, u, Apply(setup, u, Advance(c)));
  }

  lemma FromThreeTo(setup: Setup, s: System, e: Event, t: System, u: System, v: System)
    requires Apply(setup, s, e) == t && Apply(setup, t, e) == u && Apply(setup, u, e) == v
    ensures RunFrom(setup, s, [e, e, e]) == v
  {
    FromThree(setup, s, e, e, e, t, u);
  }

  lemma FromFirst(setup: Setup, s: System, first: Event, then_: Event)
    ensures RunFrom(setup, s, [first, then_, then_, then_]) == RunFrom(setup, Apply(setup, s, first), [then_, then_, then_])
  {
    var t := Apply(setup, s, first);
    var u := Apply(setup, t, then_);
    var v := Apply(setup, u, then_);
    FromThree(setup, s, first, then_, then_, t, u);
    FromThree(setup, t, then_, then_, then_, u, v);
    FromSnoc(setup, s, [first, then_, then_], then_);
    assert [first, then_, then_, then_] == [first, then_, then_] + [then_];
  }

  /** The handle a write still has to use up. */
  function ConsumedBy(setup: Setup, step: Step, cp: Checkpoint): Option<string> {
    if TakenUp(setup, step, cp) then None else Some(HandleOf(step, cp.values))
  }

  function MarkerOf(setup: Setup, step: Step, cp: Checkpoint): ActiveStep {
    var tool := DescriptorOf(setup, step);
    ActiveStep(step.id, tool.effect, tool.idempotency, KeyOf(setup, step, cp))
  }

  /** The run once a write is about to be marked. */
  function MarkingState(setup: Setup, s: System, cp: Checkpoint, p: Play): System
    requires cp.next < |setup.steps|
  {
    var step := setup.steps[cp.next];
    var used := if step.approvalRef.Some? && !TakenUp(setup, step, cp) then
                  [Used(HandleOf(step, cp.values), ExpectedBinding(setup, step.approvalRef.value, ArgumentsFor(step, cp.values)), p.now, cp.next)]
                else [];
    s.(store := Some(cp), handles := HandlesAfter(setup, step, cp, p, s.handles), log := s.log + used,
       pc := Marking(cp, MarkerOf(setup, step, cp), ArgumentsFor(step, cp.values), ConsumedBy(setup, step, cp)))
  }

  lemma WriteEnters(setup: Setup, s: System, p: Play, spare: string)
    requires Ready(setup, s, p, spare) && Marks(setup, setup.steps[s.pc.cp.next])
    ensures Apply(setup, s, Advance(Quiet(p, p.handle))) == MarkingState(setup, s, s.pc.cp, p)
  {
    var cp, step := s.pc.cp, setup.steps[s.pc.cp.next];
    Enters(setup, s, p);
    ConsumesExactly(setup, s.(store := Some(cp)), cp, step, ArgumentsFor(step, cp.values), Quiet(p, p.handle));
  }

  lemma TracesEndWithDispatch(setup: Setup, s: System, cp: Checkpoint, p: Play)
    requires cp.next < |setup.steps| && Marks(setup, setup.steps[cp.next])
    ensures var (step, t) := (setup.steps[cp.next], MarkingState(setup, s, cp, p));
            var marker := MarkerOf(setup, step, cp);
            s.log + Traces(setup, step, cp, p) ==
            t.log + [Dispatched(cp.next, marker.effect, marker.idempotency, marker.key, ArgumentsFor(step, cp.values), ConsumedBy(setup, step, cp))]
  {
  }

  lemma MarkedIsDone(setup: Setup, s: System, cp: Checkpoint, p: Play)
    requires cp.next < |setup.steps| && Marks(setup, setup.steps[cp.next])
    ensures var completed := Completed(setup.steps[cp.next], cp, p);
            MarkingState(setup, s, cp, p).(store := Some(completed), pc := After(setup, completed),
              log := s.log + Traces(setup, setup.steps[cp.next], cp, p)) == Done(setup, s, cp, p)
  {
  }

  lemma MarkingStateSucceeds(setup: Setup, s: System, cp: Checkpoint, p: Play, spare: string)
    requires cp.next < |setup.steps| && Marks(setup, setup.steps[cp.next]) && spare !in s.issued
    ensures var then_ := Advance(Quiet(p, spare));
            RunFrom(setup, MarkingState(setup, s, cp, p), [then_, then_, then_]) == Done(setup, s, cp, p)
  {
    var step := setup.steps[cp.next];
    MarkedSucceeds(setup, MarkingState(setup, s, cp, p), cp, MarkerOf(setup, step, cp), ArgumentsFor(step, cp.values),
                   ConsumedBy(setup, step, cp), p, spare);
    TracesEndWithDispatch(setup, s, cp, p);
    MarkedIsDone(setup, s, cp, p);
  }

  lemma WriteSucceeds(setup: Setup, s: System, p: Play, spare: string)
    requires Ready(setup, s, p, spare) && Marks(setup, setup.steps[s.pc.cp.next])
    ensures RunFrom(setup, s, Moves(setup, setup.steps[s.pc.cp.next], p, spare)) == Done(setup, s, s.pc.cp, p)
  {
    WriteEnters(setup, s, p, spare);
    FromFirst(setup, s, Advance(Quiet(p, p.handle)), Advance(Quiet(p, spare)));
    MarkingStateSucceeds(setup, s, s.pc.cp, p, spare);
  }

  /** An export that is only returned needs no marker. */
  lemma ReturnedExportSucceeds(setup: Setup, s: System, p: Play, spare: string)
    requires Ready(setup, s, p, spare) && setup.steps[s.pc.cp.next].op.Export? && !setup.exporter
    ensures RunFrom(setup, s, Moves(setup, setup.steps[s.pc.cp.next], p, spare)) == Done(setup, s, s.pc.cp, p)
  {
    var cp, step := s.pc.cp, setup.steps[s.pc.cp.next];
    var first, then_ := Advance(Quiet(p, p.handle)), Advance(Quiet(p, spare));
    Enters(setup, s, p);
    ConsumesExactly(setup, s.(store := Some(cp)), cp, step, ArgumentsFor(step, cp.values), Quiet(p, p.handle));
    var used := s.(store := Some(cp), handles := HandlesAfter(setup, step, cp, p, s.handles), log := s.log + Traces(setup, step, cp, p));
    var t := Complete(setup, used, cp, p.result, Quiet(p, p.handle));
    assert Apply(setup, s, first) == t;
    Finishes(setup, t, step, cp, p.result, Quiet(p, spare));
    FromThree(setup, s, first, then_, then_, t, Apply(setup, t, then_));
  }

  /** A doable step, undisturbed, is done: its result is stored under its keys, the run goes on to the next
      step or to its end, and the log and the handles change by exactly what the step is for. */
  lemma StepSucceeds(setup: Setup, s: System, p: Play, spare: string)
    requires Ready(setup, s, p, spare)
    ensures RunFrom(setup, s, Moves(setup, setup.steps[s.pc.cp.next], p, spare)) == Done(setup, s, s.pc.cp, p)
  {
    var step := setup.steps[s.pc.cp.next];
    if Marks(setup, step) {
      WriteSucceeds(setup, s, p, spare);
    } else {
      match step.op {
        case Adapter => AdapterSucceeds(setup, s, p, spare);
        case Approval => ApprovalSucceeds(setup, s, p, spare);
        case Export => ReturnedExportSucceeds(setup, s, p, spare);
        case Tool(_) => ReadSucceeds(setup, s, p, spare);
      }
    }
  }

  // Whole runs.

  lemma {:induction false} RunIsFrom(setup: Setup, events: seq<Event>, later: seq<Event>)
    ensures Run(setup, events + later) == RunFrom(setup, Run(setup, events), later)
    decreases |later|
  {
    if later == [] {
      assert events + later == events;
    } else {
      var n := |later| - 1;
      RunIsFrom(setup, events, later[..n]);
      RunSnoc(setup, events + later[..n], later[n]);
      assert events + later == events + later[..n] + [later[n]];
    }
  }

  function Save(spare: string): Event {
    Advance(Choice(NoFault, true, false, false, 0, spare, None, None))
  }

  /** The start of the run, and the moves of its first k steps. */
  function Script(setup: Setup, given: map<string, Json>, plays: seq<Play>, spare: string, k: nat): seq<Event>
    requires k <= |setup.steps| == |plays|
  {
    if k == 0 then [Start(given, true), Save(spare)]
    else Script(setup, given, plays, spare, k - 1) + Moves(setup, setup.steps[k - 1], plays[k - 1], spare)
  }

  /** The inputs and the results of the first k steps. */
  function ValuesUpTo(setup: Setup, given: map<string, Json>, plays: seq<Play>, k: nat): Values
    requires k <= |setup.steps| == |plays|
  {
    if k == 0 then InitialValues(given)
    else Record(setup.steps[k - 1], ValueOf(setup.steps[k - 1], plays[k - 1]), ValuesUpTo(setup, given, plays, k - 1))
  }

  function TracesUpTo(setup: Setup, given: map<string, Json>, plays: seq<Play>, k: nat): seq<Entry>
    requires k <= |setup.steps| == |plays|
  {
    if k == 0 then []
    else
      TracesUpTo(setup, given, plays, k - 1) +
      Traces(setup, setup.steps[k - 1], Checkpoint(Running, k - 1, ValuesUpTo(setup, given, plays, k - 1), None), plays[k - 1])
  }

  ghost predicate ReadyAt(setup: Setup, given: map<string, Json>, plays: seq<Play>, spare: string, i: nat)
    requires i < |setup.steps| == |plays|
  {
    Ready(setup, Run(setup, Script(setup, given, plays, spare, i)), plays[i], spare)
  }

  /** Each of the first k steps is doable when its turn comes. */
  ghost predicate Plays(setup: Setup, given: map<string, Json>, plays: seq<Play>, spare: string, k: nat)
    requires k <= |setup.steps| == |plays|
  {
    && given.Keys == setup.inputs
    && (k > 0 ==> Plays(setup, given, plays, spare, k - 1) && ReadyAt(setup, given, plays, spare, k - 1))
  }

  /** The run after k steps. */
  ghost predicate Played(setup: Setup, given: map<string, Json>, plays: seq<Play>, spare: string, k: nat, s: System)
    requires k <= |setup.steps| == |plays|
  {
    && s.pc == After(setup, Checkpoint(Running, k, ValuesUpTo(setup, given, plays, k), None))
    && s.store.Some? && s.log == TracesUpTo(setup, given, plays, k) && spare !in s.issued
  }

  lemma ScriptStarts(setup: Setup, given: map<string, Json>, plays: seq<Play>, spare: string)
    requires |setup.steps| == |plays| && given.Keys == setup.inputs
    ensures Played(setup, given, plays, spare, 0, Run(setup, Script(setup, given, plays, spare, 0)))
    ensures Run(setup, Script(setup, given, plays, spare, 0)).issued == {}
  {
    RunSnoc(setup, [], Start(given, true));
    RunSnoc(setup, [Start(given, true)], Save(spare));
    assert [] + [Start(given, true)] == [Start(given, true)];
    assert [Start(given, true)] + [Save(spare)] == Script(setup, given, plays, spare, 0);
  }

  lemma PlayedStep(setup: Setup, given: map<string, Json>, plays: seq<Play>, spare: string, k: nat, s: System)
    requires 0 < k <= |setup.steps| == |plays| && Played(setup, given, plays, spare, k - 1, s)
    requires Ready(setup, s, plays[k - 1], spare)
    ensures Played(setup, given, plays, spare, k, Done(setup, s, s.pc.cp, plays[k - 1]))
  {
    var cp, step, p := Checkpoint(Running, k - 1, ValuesUpTo(setup, given, plays, k - 1), None), setup.steps[k - 1], plays[k - 1];
    assert s.pc == Starting(cp);
    DoneFields(setup, s, cp, p);
    assert Completed(step, cp, p) == Checkpoint(Running, k, ValuesUpTo(setup, given, plays, k), None);
    assert TracesUpTo(setup, given, plays, k) == TracesUpTo(setup, given, plays, k - 1) + Traces(setup, step, cp, p);
  }

  lemma DoneFields(setup: Setup, s: System, cp: Checkpoint, p: Play)
    requires cp.next < |setup.steps|
    ensures var (done, step) := (Done(setup, s, cp, p), setup.steps[cp.next]);
            && done.pc == After(setup, Completed(step, cp, p)) && done.store == Some(Completed(step, cp, p))
            && done.log == s.log + Traces(setup, step, cp, p)
            && done.issued <= s.issued + {p.handle} && (!step.op.Approval? ==> done.issued == s.issued)
  {
  }

  lemma ScriptGrows(setup: Setup, given: map<string, Json>, plays: seq<Play>, spare: string, k: nat, s: System)
    requires 0 < k <= |setup.steps| == |plays| && s == Run(setup, Script(setup, given, plays, spare, k - 1))
    ensures Run(setup, Script(setup, given, plays, spare, k)) ==
            RunFrom(setup, s, Moves(setup, setup.steps[k - 1], plays[k - 1], spare))
  {
    RunIsFrom(setup, Script(setup, given, plays, spare, k - 1), Moves(setup, setup.steps[k - 1], plays[k - 1], spare));
  }

  lemma ScriptStep(setup: Setup, given: map<string, Json>, plays: seq<Play>, spare: string, k: nat, s: System)
    requires 0 < k <= |setup.steps| == |plays| && s == Run(setup, Script(setup, given, plays, spare, k - 1))
    requires Ready(setup, s, plays[k - 1], spare) && s.pc.cp.next == k - 1
    ensures Run(setup, Script(setup, given, plays, spare, k)) == Done(setup, s, s.pc.cp, plays[k - 1])
  {
    ScriptGrows(setup, given, plays, spare, k, s);
    StepSucceeds(setup, s, plays[k - 1], spare);
  }

  lemma PlayedIsAt(setup: Setup, given: map<string, Json>, plays: seq<Play>, spare: string, k: nat, s: System)
    requires k < |setup.steps| == |plays| && Played(setup, given, plays, spare, k, s)
    ensures s.pc == Starting(Checkpoint(Running, k, ValuesUpTo(setup, given, plays, k), None))
  {
  }

  lemma PlaysOn(setup: Setup, given: map<string, Json>, plays: seq<Play>, spare: string, k: nat, s: System, t: System)
    requires 0 < k <= |setup.steps| == |plays|
    requires s == Run(setup, Script(setup, given, plays, spare, k - 1)) && t == Run(setup, Script(setup, given, plays, spare, k))
    requires Played(setup, given, plays, spare, k - 1, s) && Ready(setup, s, plays[k - 1], spare)
    ensures Played(setup, given, plays, spare, k, t) && t == Done(setup, s, s.pc.cp, plays[k - 1])
  {
    PlayedIsAt(setup, given, plays, spare, k - 1, s);
    ScriptStep(setup, given, plays, spare, k, s);
    PlayedStep(setup, given, plays, spare, k, s);
  }

  lemma PlaysBefore(setup: Setup, given: map<string, Json>, plays: seq<Play>, spare: string, k: nat, s: System)
    requires 0 < k <= |setup.steps| == |plays| && Plays(setup, given, plays, spare, k)
    requires s == Run(setup, Script(setup, given, plays, spare, k - 1))
    ensures Plays(setup, given, plays, spare, k - 1) && Ready(setup, s, plays[k - 1], spare)
  {
    assert ReadyAt(setup, given, plays, spare, k - 1);
  }

  lemma {:induction false} ScriptPlays(setup: Setup, given: map<string, Json>, plays: seq<Play>, spare: string, k: nat, t: System)
    requires k <= |setup.steps| == |plays| && Plays(setup, given, plays, spare, k)
    requires t == Run(setup, Script(setup, given, plays, spare, k))
    ensures Played(setup, given, plays, spare, k, t)
  {
    if k == 0 {
      ScriptStarts(setup, given, plays, spare);
    } else {
      var s := Run(setup, Script(setup, given, plays, spare, k - 1));
      PlaysBefore(setup, given, plays, spare, k, s);
      ScriptPlays(setup, given, plays, spare, k - 1, s);
      PlaysOn(setup, given, plays, spare, k, s, t);
    }
  }

  /** The value stands under the step's key and under its declared output. */
  ghost predicate Recorded(values: Values, step: Step, value: Json) {
    forall key :: OwnKey(step, key) ==> key in values && values[key] == value
  }

  lemma {:induction false} ValuesHold(setup: Setup, given: map<string, Json>, plays: seq<Play>, k: nat, i: nat)
    requires Validated(setup.steps, setup.inputs) && i < k <= |setup.steps| == |plays|
    ensures Recorded(ValuesUpTo(setup, given, plays, k), setup.steps[i], ValueOf(setup.steps[i], plays[i]))
  {
    if i < k - 1 {
      ValuesHold(setup, given, plays, k - 1, i);
      DistinctIds(setup.steps, setup.inputs, i, k - 1);
      forall key | OwnKey(setup.steps[i], key)
        ensures !OwnKey(setup.steps[k - 1], key)
      {
        KeysAreOwned(setup.steps[i], setup.steps[k - 1], key);
      }
    }
  }

  /** An undisturbed run whose steps are all doable when their turn comes succeeds: it ends idle, with
      success stored past the last step and nothing pending, the result of every step under its key and its
      declared output, and exactly the traces of its steps on the log. */
  lemma UndisturbedRunSucceeds(setup: Setup, given: map<string, Json>, plays: seq<Play>, spare: string)
    requires Validated(setup.steps, setup.inputs) && |setup.steps| == |plays|
    requires Plays(setup, given, plays, spare, |setup.steps|)
    ensures var t := Run(setup, Script(setup, given, plays, spare, |setup.steps|) + [Save(spare)]);
            && t.pc.Idle? && t.store.Some? && t.log == TracesUpTo(setup, given, plays, |setup.steps|)
            && var cp := t.store.value;
               && cp.state == Succeeded && cp.next == |setup.steps| && cp.active.None?
               && forall i :: 0 <= i < |setup.steps| ==>
                    Recorded(cp.values, setup.steps[i], if setup.steps[i].op.Approval? then Text(plays[i].handle) else plays[i].result)
  {
    var n := |setup.steps|;
    var s := Run(setup, Script(setup, given, plays, spare, n));
    ScriptPlays(setup, given, plays, spare, n, s);
    RunSnoc(setup, Script(setup, given, plays, spare, n), Save(spare));
    EndingSaves(setup, s, Save(spare).choice);
    forall i | 0 <= i < n
      ensures Recorded(ValuesUpTo(setup, given, plays, n), setup.steps[i], ValueOf(setup.steps[i], plays[i]))
    {
      ValuesHold(setup, given, plays, n, i);
    }
  }

  // Steps that are always doable.

  /** Every step is one that neither asks nor writes, and names only declared values. */
  ghost predicate OnlyAdapters(setup: Setup) {
    && Validated(setup.steps, setup.inputs)
    && forall i :: 0 <= i < |setup.steps| ==>
         setup.steps[i].op.Adapter? && (setup.steps[i].input.Ref? ==> Declared(setup.steps[i].input.ref, setup.steps[..i]))
  }

  lemma {:induction false} ValuesFill(setup: Setup, given: map<string, Json>, plays: seq<Play>, k: nat)
    requires k <= |setup.steps| == |plays| && given.Keys == setup.inputs
    ensures Filled(setup.steps, k, setup.inputs, ValuesUpTo(setup, given, plays, k))
  {
    if k == 0 {
      InitialValuesFill(setup.steps, given);
    } else {
      ValuesFill(setup, given, plays, k - 1);
      RecordFills(setup.steps, k - 1, setup.inputs, ValueOf(setup.steps[k - 1], plays[k - 1]), ValuesUpTo(setup, given, plays, k - 1));
    }
  }

  lemma AdapterIsReady(setup: Setup, given: map<string, Json>, plays: seq<Play>, spare: string, k: nat, s: System)
    requires OnlyAdapters(setup) && k < |setup.steps| == |plays| && given.Keys == setup.inputs
    requires Played(setup, given, plays, spare, k, s) && s.issued == {} && plays[k].handle != spare
    ensures Ready(setup, s, plays[k], spare) && Done(setup, s, s.pc.cp, plays[k]).issued == {}
  {
    var step := setup.steps[k];
    ValuesFill(setup, given, plays, k);
    if step.input.Ref? {
      AcceptedReferenceResolves(step.input.ref, setup.steps, k, setup.inputs, ValuesUpTo(setup, given, plays, k));
    }
  }

  lemma PlaysMore(setup: Setup, given: map<string, Json>, plays: seq<Play>, spare: string, k: nat, s: System)
    requires 0 < k <= |setup.steps| == |plays| && Plays(setup, given, plays, spare, k - 1)
    requires s == Run(setup, Script(setup, given, plays, spare, k - 1)) && Ready(setup, s, plays[k - 1], spare)
    ensures Plays(setup, given, plays, spare, k)
  {
    assert ReadyAt(setup, given, plays, spare, k - 1);
  }

  lemma {:induction false} AdaptersPlay(setup: Setup, given: map<string, Json>, plays: seq<Play>, spare: string, k: nat, t: System)
    requires OnlyAdapters(setup) && k <= |setup.steps| == |plays| && given.Keys == setup.inputs
    requires forall i :: 0 <= i < |plays| ==> plays[i].handle != spare
    requires t == Run(setup, Script(setup, given, plays, spare, k))
    ensures Plays(setup, given, plays, spare, k) && Played(setup, given, plays, spare, k, t) && t.issued == {}
  {
    if k == 0 {
      ScriptStarts(setup, given, plays, spare);
    } else {
      var s := Run(setup, Script(setup, given, plays, spare, k - 1));
      AdaptersPlay(setup, given, plays, spare, k - 1, s);
      AdapterIsReady(setup, given, plays, spare, k - 1, s);
      PlaysMore(setup, given, plays, spare, k, s);
      PlaysOn(setup, given, plays, spare, k, s, t);
    }
  }

  /** So every undisturbed run of such a workflow succeeds, whatever its inputs and its results. */
  lemma AdaptersAlwaysSucceed(setup: Setup, given: map<string, Json>, plays: seq<Play>, spare: string)
    requires OnlyAdapters(setup) && |setup.steps| == |plays| && given.Keys == setup.inputs
    requires forall i :: 0 <= i < |plays| ==> plays[i].handle != spare
    ensures var t := Run(setup, Script(setup, given, plays, spare, |setup.steps|) + [Save(spare)]);
            && t.pc.Idle? && t.store.Some? && t.store.value.state == Succeeded
            && forall i :: 0 <= i < |setup.steps| ==> Recorded(t.store.value.values, setup.steps[i], plays[i].result)
  {
    AdaptersPlay(setup, given, plays, spare, |setup.steps|, Run(setup, Script(setup, given, plays, spare, |setup.steps|)));
    UndisturbedRunSucceeds(setup, given, plays, spare);
  }
}
