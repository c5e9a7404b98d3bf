/** What becomes of the values in the stored checkpoint of a run. */
module InterpreterValues {
  import opened Prelude
  import opened References
  import opened Approvals
  import opened Interpreter
  import opened InterpreterSafety

  /** No value is there yet for the step the checkpoint is at or any later one. */
  ghost predicate Ahead(setup: Setup, cp: Checkpoint) {
    forall j, key :: cp.next <= j < |setup.steps| && OwnKey(setup.steps[j], key) ==> key !in cp.values
  }

  ghost predicate Within(less: Values, more: Values) {
    forall key :: key in less ==> key in more && more[key] == less[key]
  }

  /** The checkpoint a process holds has the stored values, except in the handler of a failed step,
      where the store may be ahead by the values of that step. */
  ghost predicate ValuesOk(setup: Setup, s: System) {
    && (s.store.Some? ==> Ahead(setup, s.store.value))
    && (match s.pc
        case Idle => true
        case Loading(given) => given.Keys == setup.inputs
        case Creating(cp) => s.store.None? && Ahead(setup, cp)
        case Completing(cp, completed) =>
          && s.store.Some? && s.store.value.values == cp.values
          && cp.next < |setup.steps| && Ahead(setup, cp) && Ahead(setup, completed)
          && Within(cp.values, completed.values)
        case Failing(cp, goesOn) =>
          s.store.Some? && Ahead(setup, cp) && Within(cp.values, s.store.value.values)
        case _ => s.store.Some? && s.store.value.values == s.pc.cp.values && Ahead(setup, s.pc.cp))
  }

  /** Recording a step keeps every value there is. */
  lemma RecordKeepsAll(setup: Setup, cp: Checkpoint, result: Json)
    requires Validated(setup.steps, setup.inputs) && cp.next < |setup.steps| && Ahead(setup, cp)
    ensures Within(cp.values, Record(setup.steps[cp.next], result, cp.values))
    ensures Ahead(setup, Checkpoint(Running, cp.next + 1, Record(setup.steps[cp.next], result, cp.values), None))
  {
    var step := setup.steps[cp.next];
    forall key | key in cp.values
      ensures !OwnKey(step, key)
    {
    }
    forall j, key | cp.next + 1 <= j < |setup.steps| && OwnKey(setup.steps[j], key)
      ensures key !in Record(step, result, cp.values)
    {
      DistinctIds(setup.steps, setup.inputs, cp.next, j);
      KeysAreOwned(step, setup.steps[j], key);
      RecordKeepsOthers(step, result, cp.values, key);
    }
  }

  lemma InitialIsAhead(setup: Setup, given: map<string, Json>)
    requires Validated(setup.steps, setup.inputs)
    ensures Ahead(setup, InitialCheckpoint(given))
  {
    forall j, key | 0 <= j < |setup.steps| && OwnKey(setup.steps[j], key)
      ensures key !in InitialValues(given)
    {
      assert key[0] == 's';
    }
  }

  /** What a step of the run leaves of the system s in which it held the checkpoint cp. */
  ghost predicate LeftOf(setup: Setup, s: System, cp: Checkpoint, t: System) {
    t.store == s.store && ValuesOk(setup, t) && (t.pc.Failing? ==> t.pc.cp.values == cp.values)
  }

  ghost predicate Holds(setup: Setup, s: System, cp: Checkpoint) {
    && s.store.Some? && Ahead(setup, s.store.value)
    && s.store.value.values == cp.values && Ahead(setup, cp)
  }

  lemma TopLeft(setup: Setup, s: System, cp: Checkpoint, c: Choice)
    requires Holds(setup, s, cp)
    ensures LeftOf(setup, s, cp, Top(setup, s, cp, c))
  {
  }

  lemma FailLeft(setup: Setup, s: System, cp: Checkpoint, c: Choice)
    requires s.store.Some? && Ahead(setup, s.store.value) && Ahead(setup, cp) && Within(cp.values, s.store.value.values)
    ensures LeftOf(setup, s, cp, Fail(setup, s, cp, c))
  {
  }

  lemma CompleteLeft(setup: Setup, s: System, cp: Checkpoint, value: Json, c: Choice)
    requires Validated(setup.steps, setup.inputs) && Holds(setup, s, cp)
    ensures LeftOf(setup, s, cp, Complete(setup, s, cp, value, c))
  {
    if cp.next < |setup.steps| {
      RecordKeepsAll(setup, cp, value);
    }
  }

  lemma ExportLeft(setup: Setup, s: System, cp: Checkpoint, step: Step, c: Choice)
    requires Validated(setup.steps, setup.inputs) && Holds(setup, s, cp)
    ensures LeftOf(setup, s, cp, EnterExport(setup, s, cp, step, c))
  {
    FailLeft(setup, s, cp, c);
    var value := ResolveInput(step.input, cp.values);
    if value.Some? {
      var (s', handle) := ConsumeApproval(setup, s, cp, step, value.value, c);
      ConsumingLeavesStore(setup, s, cp, step, value.value, c);
      FailLeft(setup, s', cp, c);
      if c.result.Some? {
        CompleteLeft(setup, s', cp, c.result.value, c);
      }
    }
  }

  lemma ToolLeft(setup: Setup, s: System, cp: Checkpoint, step: Step, c: Choice)
    requires Holds(setup, s, cp) && step.op.Tool?
    ensures LeftOf(setup, s, cp, EnterTool(setup, s, cp, step, c))
  {
    var t := EnterTool(setup, s, cp, step, c);
    ToolOutcomes(setup, s, cp, step, c);
    if s': System :| s'.store == s.store && t == Fail(setup, s', cp, c) {
      FailLeft(setup, s', cp, c);
    }
  }

  lemma EnterLeft(setup: Setup, s: System, cp: Checkpoint, c: Choice)
    requires Validated(setup.steps, setup.inputs) && Holds(setup, s, cp)
    ensures LeftOf(setup, s, cp, Enter(setup, s, cp, c))
  {
    if cp.next < |setup.steps| {
      var step := setup.steps[cp.next];
      match step.op {
        case Export => ExportLeft(setup, s, cp, step, c);
        case Tool(_) => ToolLeft(setup, s, cp, step, c);
        case _ => FailLeft(setup, s, cp, c);
      }
    }
  }

  lemma ReplyLeft(setup: Setup, s: System, cp: Checkpoint, c: Choice)
    requires Validated(setup.steps, setup.inputs) && Holds(setup, s, cp)
    ensures LeftOf(setup, s, cp, Reply(setup, s, cp, c))
  {
    FailLeft(setup, s, cp, c);
    if c.result.Some? {
      CompleteLeft(setup, s, cp, c.result.value, c);
    }
  }

  lemma AnswerLeft(setup: Setup, s: System, cp: Checkpoint, handle: string, c: Choice)
    requires Validated(setup.steps, setup.inputs) && Holds(setup, s, cp)
    ensures LeftOf(setup, s, cp, Answer(setup, s, cp, handle, c))
  {
    FailLeft(setup, s, cp, c);
    if c.answer.Some? && handle in s.handles {
      var reviewed := s.(handles := Reviewed(s.handles, handle, c.answer.value).value,
                         log := s.log + [Answered(handle, s.handles[handle].binding, s.handles[handle].expiresAt, c.answer.value)]);
      FailLeft(setup, reviewed, cp, c);
      CompleteLeft(setup, reviewed, cp, Text(handle), c);
    }
  }

  // What is kept.

  /** The stored checkpoint has the value, and so has the one that the handler of a failed step will
      save over it. */
  ghost predicate Kept(s: System, key: string, value: Json) {
    && s.store.Some? && key in s.store.value.values && s.store.value.values[key] == value
    && (s.pc.Failing? ==> key in s.pc.cp.values)
  }

  lemma LeftKeeps(setup: Setup, s: System, cp: Checkpoint, t: System, key: string, value: Json)
    requires LeftOf(setup, s, cp, t) && key in cp.values
    requires s.store.Some? && key in s.store.value.values && s.store.value.values[key] == value
    ensures Kept(t, key, value)
  {
  }

  ghost predicate Carries(setup: Setup, s: System, t: System) {
    ValuesOk(setup, t) && forall key, value :: Kept(s, key, value) ==> Kept(t, key, value)
  }

  /** The store is not ahead of the handler of a failed step. */
  ghost predicate InStep(s: System) {
    s.pc.Failing? ==> s.store.Some? && s.store.value.values == s.pc.cp.values
  }

  lemma LeftCarries(setup: Setup, s: System, saved: System, cp: Checkpoint, t: System)
    requires LeftOf(setup, saved, cp, t) && saved.store.Some?
    requires forall key, value :: Kept(s, key, value) ==>
               key in cp.values && key in saved.store.value.values && saved.store.value.values[key] == value
    ensures Carries(setup, s, t)
    ensures saved.store.value.values == cp.values ==> InStep(t)
  {
    forall key, value | Kept(s, key, value)
      ensures Kept(t, key, value)
    {
      LeftKeeps(setup, saved, cp, t, key, value);
    }
  }

  lemma LoadingCarries(setup: Setup, s: System, c: Choice)
    requires Validated(setup.steps, setup.inputs) && ValuesOk(setup, s) && s.pc.Loading?
    ensures Carries(setup, s, Next(setup, s, c))
    ensures c.fault != FailsAfter ==> InStep(Next(setup, s, c))
  {
    if c.fault == NoFault {
      if s.store.None? {
        InitialIsAhead(setup, s.pc.given);
      } else if !Unresolved(s.store.value) {
        TopLeft(setup, s, s.store.value, c);
        LeftCarries(setup, s, s, s.store.value, Next(setup, s, c));
      }
    }
  }

  lemma StartingCarries(setup: Setup, s: System, c: Choice)
    requires Validated(setup.steps, setup.inputs) && ValuesOk(setup, s) && (s.pc.Creating? || s.pc.Starting?)
    ensures Carries(setup, s, Next(setup, s, c))
    ensures c.fault != FailsAfter ==> InStep(Next(setup, s, c))
  {
    var cp := s.pc.cp;
    var saved := SavedStore(s, cp, c.fault);
    if c.fault == NoFault {
      TopLeft(setup, saved, cp, c);
      EnterLeft(setup, saved, cp, c);
      LeftCarries(setup, s, saved, cp, Next(setup, s, c));
    }
  }

  lemma MarkingCarries(setup: Setup, s: System, c: Choice)
    requires ValuesOk(setup, s) && s.pc.Marking?
    ensures Carries(setup, s, Next(setup, s, c))
    ensures c.fault != FailsAfter ==> InStep(Next(setup, s, c))
  {
    var cp := s.pc.cp;
    var marked := cp.(active := Some(s.pc.marker));
    var saved := SavedStore(s, marked, c.fault);
    assert Ahead(setup, marked);
    if c.fault != NoFault {
      FailLeft(setup, saved, cp, c);
      LeftCarries(setup, s, saved, cp, Next(setup, s, c));
    } else if c.cancelled {
      FailLeft(setup, saved, marked, c);
      LeftCarries(setup, s, saved, marked, Next(setup, s, c));
    }
  }

  lemma CompletingCarries(setup: Setup, s: System, c: Choice)
    requires ValuesOk(setup, s) && s.pc.Completing?
    ensures Carries(setup, s, Next(setup, s, c))
    ensures c.fault != FailsAfter ==> InStep(Next(setup, s, c))
  {
    var cp, completed := s.pc.cp, s.pc.completed;
    var saved := SavedStore(s, completed, c.fault);
    if c.fault == NoFault {
      TopLeft(setup, saved, completed, c);
      LeftCarries(setup, s, saved, completed, Next(setup, s, c));
    } else {
      FailLeft(setup, saved, cp, c);
      LeftCarries(setup, s, saved, cp, Next(setup, s, c));
    }
  }

  lemma FailingCarries(setup: Setup, s: System, c: Choice)
    requires ValuesOk(setup, s) && s.pc.Failing?
    ensures Carries(setup, s, Next(setup, s, c))
    ensures c.fault != FailsAfter ==> InStep(Next(setup, s, c))
  {
    var cp := s.pc.cp;
    var saved := SavedStore(s, cp, c.fault);
    if c.fault == NoFault && s.pc.goesOn {
      TopLeft(setup, saved, cp.(state := Running, next := cp.next + 1), c);
      LeftCarries(setup, s, saved, cp, Next(setup, s, c));
    }
  }

  lemma NextCarries(setup: Setup, s: System, c: Choice)
    requires Validated(setup.steps, setup.inputs) && ValuesOk(setup, s)
    ensures Carries(setup, s, Next(setup, s, c))
    ensures c.fault != FailsAfter ==> InStep(Next(setup, s, c))
  {
    match s.pc {
      case Loading(_) => LoadingCarries(setup, s, c);
      case Creating(_) => StartingCarries(setup, s, c);
      case Starting(_) => StartingCarries(setup, s, c);
      case Working(cp) =>
        ReplyLeft(setup, s, cp, c);
        LeftCarries(setup, s, s, cp, Next(setup, s, c));
      case Pending(cp) =>
        ReplyLeft(setup, s, cp, c);
        LeftCarries(setup, s, s, cp, Next(setup, s, c));
      case Reviewing(cp, handle) =>
        AnswerLeft(setup, s, cp, handle, c);
        LeftCarries(setup, s, s, cp, Next(setup, s, c));
      case Marking(_, _, _, _) => MarkingCarries(setup, s, c);
      case Completing(_, _) => CompletingCarries(setup, s, c);
      case Failing(_, _) => FailingCarries(setup, s, c);
      case _ =>
    }
  }

  lemma EventCarries(setup: Setup, s: System, e: Event)
    requires Validated(setup.steps, setup.inputs) && ValuesOk(setup, s) && (!s.started ==> s.store.None?)
    ensures Carries(setup, s, Apply(setup, s, e))
    ensures InStep(s) && (e.Advance? ==> e.choice.fault != FailsAfter) ==> InStep(Apply(setup, s, e))
  {
    match e {
      case Start(given, _) => InitialIsAhead(setup, given);
      case Advance(c) => NextCarries(setup, s, c);
      case _ =>
    }
  }

  lemma {:induction false} RunValues(setup: Setup, events: seq<Event>)
    requires Validated(setup.steps, setup.inputs)
    ensures ValuesOk(setup, Run(setup, events))
  {
    if events != [] {
      RunValues(setup, events[..|events| - 1]);
      RunOk(setup, events[..|events| - 1]);
      EventCarries(setup, Run(setup, events[..|events| - 1]), events[|events| - 1]);
    }
  }

  lemma RunSnoc(setup: Setup, events: seq<Event>, e: Event)
    ensures Run(setup, events + [e]) == Apply(setup, Run(setup, events), e)
  {
    assert (events + [e])[..|events|] == events;
  }

  lemma {:induction false} KeptForever(setup: Setup, events: seq<Event>, later: seq<Event>, key: string, value: Json)
    requires Validated(setup.steps, setup.inputs) && Kept(Run(setup, events), key, value)
    ensures Kept(Run(setup, events + later), key, value)
    decreases |later|
  {
    if later == [] {
      assert events + later == events;
    } else {
      var last := |later| - 1;
      var before := events + later[..last];
      KeptForever(setup, events, later[..last], key, value);
      RunValues(setup, before);
      RunOk(setup, before);
      EventCarries(setup, Run(setup, before), later[last]);
      RunSnoc(setup, before, later[last]);
      assert events + later == before + [later[last]];
    }
  }

  lemma FreshHandle(issued: set<string>) returns (handle: string)
    ensures forall h :: h in issued ==> |h| < |handle|
  {
    if issued == {} {
      handle := "";
    } else {
      var h :| h in issued;
      var longer := FreshHandle(issued - {h});
      handle := if |h| < |longer| then longer else h + "-";
    }
  }

  ghost predicate StoredAs(s: System, key: string, value: Json) {
    s.store.Some? && key in s.store.value.values && s.store.value.values[key] == value
  }

  /** In any run, resumed however often, a stored value, be it an input or a step's, is there
      unchanged in every later stored checkpoint exactly when the process is not in the handler of a
      failed step whose own checkpoint lacks it. */
  lemma StepsKeepTheirValues(setup: Setup, events: seq<Event>, key: string)
    requires Validated(setup.steps, setup.inputs)
    requires var s := Run(setup, events); s.store.Some? && key in s.store.value.values
    ensures var s := Run(setup, events);
            (s.pc.Failing? ==> key in s.pc.cp.values) <==>
            (forall later :: StoredAs(Run(setup, events + later), key, s.store.value.values[key]))
  {
    var s := Run(setup, events);
    var value := s.store.value.values[key];
    if s.pc.Failing? && key !in s.pc.cp.values {
      var handle := FreshHandle(s.issued);
      var e := Advance(Choice(NoFault, true, false, false, 0, handle, None, None));
      RunSnoc(setup, events, e);
      assert !StoredAs(Run(setup, events + [e]), key, value);
    } else {
      forall later
        ensures StoredAs(Run(setup, events + later), key, value)
      {
        KeptForever(setup, events, later, key, value);
      }
    }
  }

  /** No save of the run reported failure after it had taken effect. */
  predicate SavesAreHonest(events: seq<Event>) {
    forall e :: e in events && e.Advance? ==> e.choice.fault != FailsAfter
  }

  lemma {:induction false} HonestStaysInStep(setup: Setup, events: seq<Event>)
    requires Validated(setup.steps, setup.inputs) && SavesAreHonest(events)
    ensures InStep(Run(setup, events))
  {
    if events != [] {
      var before := events[..|events| - 1];
      HonestStaysInStep(setup, before);
      RunValues(setup, before);
      RunOk(setup, before);
      EventCarries(setup, Run(setup, before), events[|events| - 1]);
    }
  }

  /** While no save has lied, a stored value stays in every later stored checkpoint, resumes included,
      whatever comes later. */
  lemma StoredValuesStay(setup: Setup, events: seq<Event>, later: seq<Event>, key: string, value: Json)
    requires Validated(setup.steps, setup.inputs) && SavesAreHonest(events)
    requires StoredAs(Run(setup, events), key, value)
    ensures StoredAs(Run(setup, events + later), key, value)
  {
    HonestStaysInStep(setup, events);
    StepsKeepTheirValues(setup, events, key);
  }

  // The inputs.

  /** The event starts or resumes the run with these inputs. */
  predicate Gives(e: Event, given: map<string, Json>) {
    (e.Start? || e.Resume?) && e.given == given
  }

  /** The run stands with these inputs: they are in the stored checkpoint, and in any that may replace it. */
  ghost predicate StandsOn(s: System, given: map<string, Json>) {
    match s.store
    case Some(_) => forall name :: name in given ==> Kept(s, InputKey(name), given[name])
    case None => if s.pc.Creating? then s.pc.cp == InitialCheckpoint(given) else s.pc.Loading? ==> s.pc.given == given
  }

  lemma InitialHolds(given: map<string, Json>, name: string)
    requires name in given
    ensures InputKey(name) in InitialValues(given) && InitialValues(given)[InputKey(name)] == given[name]
  {
    assert InputKey(name)[6..] == name;
  }

  lemma StandsAfterCreating(setup: Setup, s: System, given: map<string, Json>, c: Choice)
    requires ValuesOk(setup, s) && StandsOn(s, given) && s.pc.Creating?
    ensures StandsOn(Next(setup, s, c), given)
  {
    var saved := SavedStore(s, s.pc.cp, c.fault);
    forall name | name in given
      ensures saved.store.Some? ==> Kept(saved.(pc := Idle), InputKey(name), given[name])
    {
      InitialHolds(given, name);
    }
    if c.fault == NoFault {
      TopLeft(setup, saved, s.pc.cp, c);
    }
  }

  lemma StandsLoading(setup: Setup, s: System, given: map<string, Json>, c: Choice)
    requires StandsOn(s, given) && s.store.None? && (s.pc.Loading? || s.pc.Idle?)
    ensures StandsOn(Next(setup, s, c), given)
  {
  }

  lemma StandsCarried(setup: Setup, s: System, t: System, given: map<string, Json>)
    requires StandsOn(s, given) && s.store.Some? && t.store.Some? && Carries(setup, s, t)
    ensures StandsOn(t, given)
  {
  }

  lemma StoreStays(setup: Setup, s: System, c: Choice)
    requires ValuesOk(setup, s) && s.store.Some?
    ensures Next(setup, s, c).store.Some?
  {
    match s.pc {
      case Starting(cp) => EnterLeavesStore(setup, SavedStore(s, cp, c.fault), cp, c);
      case _ =>
    }
  }

  lemma EnterLeavesStore(setup: Setup, s: System, cp: Checkpoint, c: Choice)
    ensures Enter(setup, s, cp, c).store == s.store
  {
    if cp.next < |setup.steps| {
      var step := setup.steps[cp.next];
      if step.op.Tool? {
        ToolOutcomes(setup, s, cp, step, c);
      } else if step.op.Export? {
        var value := ResolveInput(step.input, cp.values);
        if value.Some? {
          ConsumingLeavesStore(setup, s, cp, step, value.value, c);
        }
      }
    }
  }

  lemma StandsNext(setup: Setup, s: System, given: map<string, Json>, c: Choice)
    requires Validated(setup.steps, setup.inputs) && ValuesOk(setup, s) && StandsOn(s, given)
    ensures StandsOn(Next(setup, s, c), given)
  {
    if s.store.Some? {
      NextCarries(setup, s, c);
      StoreStays(setup, s, c);
      StandsCarried(setup, s, Next(setup, s, c), given);
    } else if s.pc.Creating? {
      StandsAfterCreating(setup, s, given, c);
    } else {
      StandsLoading(setup, s, given, c);
    }
  }

  lemma StandsEvent(setup: Setup, s: System, given: map<string, Json>, e: Event)
    requires Validated(setup.steps, setup.inputs) && ValuesOk(setup, s) && StandsOn(s, given)
    requires (!s.started ==> s.store.None? && s.pc.Idle?)
    requires !(s.store.None? && s.pc.Idle? && (e.Start? || e.Resume?))
    ensures StandsOn(Apply(setup, s, e), given)
  {
    EventCarries(setup, s, e);
    if e.Advance? && e.choice.handle !in s.issued {
      StandsNext(setup, s, given, e.choice);
    }
  }

  /** In every run that has begun, the values of all inputs in every checkpoint are those that one of its
      starts and resumes was given. */
  lemma {:induction false} InputsAreGiven(setup: Setup, events: seq<Event>) returns (given: map<string, Json>)
    requires Validated(setup.steps, setup.inputs)
    ensures StandsOn(Run(setup, events), given)
    ensures Run(setup, events).started ==>
              given.Keys == setup.inputs && exists i :: 0 <= i < |events| && Gives(events[i], given)
  {
    if events == [] {
      given := map[];
    } else {
      var n := |events| - 1;
      var before, e := events[..n], events[n];
      var s := Run(setup, before);
      var earlier := InputsAreGiven(setup, before);
      RunValues(setup, before);
      RunOk(setup, before);
      if s.store.None? && s.pc.Idle? && (e.Start? || e.Resume?) && Apply(setup, s, e) != s {
        given := e.given;
        assert Gives(events[n], given);
      } else {
        given := earlier;
        if !(s.store.None? && s.pc.Idle? && (e.Start? || e.Resume?)) {
          StandsEvent(setup, s, given, e);
        }
        if s.started {
          var i :| 0 <= i < n && Gives(before[i], given);
          assert Gives(events[i], given);
        }
      }
    }
  }

  /** So what a step reads under an input's name is what was given for it. */
  lemma InputsResolveToTheirValues(setup: Setup, events: seq<Event>, name: string)
    requires Validated(setup.steps, setup.inputs) && name in setup.inputs && IsName(name)
    requires Run(setup, events).pc.Starting?
    ensures exists i, given :: 0 <= i < |events| && Gives(events[i], given) && name in given
              && ResolveReference(InputKey(name), Run(setup, events).pc.cp.values) == Some(given[name])
  {
    var given := InputsAreGiven(setup, events);
    RunValues(setup, events);
    RunOk(setup, events);
    ResolvesExactly(name, name, Run(setup, events).pc.cp.values);
    var i :| 0 <= i < |events| && Gives(events[i], given);
    assert Kept(Run(setup, events), InputKey(name), given[name]);
  }

  // A save that lies.

  function Undisturbed(result: Option<Json>): Event {
    Advance(Choice(NoFault, true, false, false, 0, "", None, result))
  }

  function ThreeMoves(result: Json): seq<Event> {
    [Undisturbed(None), Undisturbed(None), Undisturbed(Some(result))]
  }

  /** A step runs, and the save of its completion takes effect and reports failure. */
  function SavedWithFailure(given: map<string, Json>, first: Json): seq<Event> {
    [Start(given, true)] + ThreeMoves(first) +
    [Advance(Choice(FailsAfter, true, false, false, 0, "", None, None))]
  }

  /** The handler saves the checkpoint from before the step, and a resume runs the step again. */
  function RunAgain(given: map<string, Json>, second: Json): seq<Event> {
    [Undisturbed(None), Resume(given, true)] + ThreeMoves(second) +
    [Undisturbed(None)]
  }

  ghost predicate OneStep(setup: Setup, given: map<string, Json>) {
    && |setup.steps| == 1 && given.Keys == setup.inputs
    && setup.steps[0].op.Adapter? && !setup.steps[0].continues
    && ResolveInput(setup.steps[0].input, InitialValues(given)).Some?
  }

  /** From a checkpoint at the only step, in three undisturbed moves its result is ready to be saved. */
  lemma StepRuns(setup: Setup, s: System, given: map<string, Json>, cp: Checkpoint, result: Json)
    requires OneStep(setup, given) && cp.next == 0 && cp.values == InitialValues(given) && cp.active.None?
    requires s.issued == {} && ((s.pc == Loading(given) && s.store == Some(cp)) || s.pc == Creating(cp))
    ensures var t := Apply(setup, Apply(setup, Apply(setup, s, Undisturbed(None)), Undisturbed(None)), Undisturbed(Some(result)));
            var running := cp.(state := Running);
            t == s.(store := Some(running),
                    pc := Completing(running, Checkpoint(Running, 1, Record(setup.steps[0], result, cp.values), None)))
  {
    var a := Apply(setup, s, Undisturbed(None));
    assert a.pc == Starting(cp.(state := Running)) && a.issued == {};
    var b := Apply(setup, a, Undisturbed(None));
    assert b.pc == Working(cp.(state := Running)) && b.issued == {};
  }

  lemma RunThreeMoves(setup: Setup, events: seq<Event>, given: map<string, Json>, cp: Checkpoint, result: Json)
    requires OneStep(setup, given) && cp.next == 0 && cp.values == InitialValues(given) && cp.active.None?
    requires var s := Run(setup, events);
             s.issued == {} && ((s.pc == Loading(given) && s.store == Some(cp)) || s.pc == Creating(cp))
    ensures var running := cp.(state := Running);
            Run(setup, events + ThreeMoves(result)) ==
            Run(setup, events).(store := Some(running),
              pc := Completing(running, Checkpoint(Running, 1, Record(setup.steps[0], result, cp.values), None)))
  {
    var s, move, last := Run(setup, events), Undisturbed(None), Undisturbed(Some(result));
    StepRuns(setup, s, given, cp, result);
    assert events + ThreeMoves(result) == events + [move] + [move] + [last];
    RunSnoc(setup, events, move);
    RunSnoc(setup, events + [move], move);
    RunSnoc(setup, events + [move] + [move], last);
  }

  function AfterSave(setup: Setup, given: map<string, Json>, first: Json): System
    requires OneStep(setup, given)
  {
    var initial := InitialCheckpoint(given);
    System(true, Some(Checkpoint(Running, 1, Record(setup.steps[0], first, initial.values), None)),
           Failing(initial.(state := FailedRun), false), map[], {}, [])
  }

  lemma SavedWithFailureRuns(setup: Setup, given: map<string, Json>, first: Json)
    requires OneStep(setup, given)
    ensures Run(setup, SavedWithFailure(given, first)) == AfterSave(setup, given, first)
  {
    RunSnoc(setup, [], Start(given, true));
    assert [] + [Start(given, true)] == [Start(given, true)];
    RunThreeMoves(setup, [Start(given, true)], given, InitialCheckpoint(given), first);
    RunSnoc(setup, [Start(given, true)] + ThreeMoves(first), Advance(Choice(FailsAfter, true, false, false, 0, "", None, None)));
  }

  lemma HandlerSaves(setup: Setup, given: map<string, Json>, first: Json)
    requires OneStep(setup, given)
    ensures Apply(setup, Apply(setup, AfterSave(setup, given, first), Undisturbed(None)), Resume(given, true)) ==
            System(true, Some(InitialCheckpoint(given).(state := FailedRun)), Loading(given), map[], {}, [])
  {
  }

  lemma RunAgainRuns(setup: Setup, events: seq<Event>, given: map<string, Json>, first: Json, second: Json)
    requires OneStep(setup, given) && Run(setup, events) == AfterSave(setup, given, first)
    ensures StoredAs(Run(setup, events + RunAgain(given, second)), StepKey(setup.steps[0].id), second)
  {
    var resumed := events + [Undisturbed(None)] + [Resume(given, true)];
    RunSnoc(setup, events, Undisturbed(None));
    RunSnoc(setup, events + [Undisturbed(None)], Resume(given, true));
    HandlerSaves(setup, given, first);
    RunThreeMoves(setup, resumed, given, InitialCheckpoint(given).(state := FailedRun), second);
    var three := resumed + ThreeMoves(second);
    RunSnoc(setup, three, Undisturbed(None));
    assert events + RunAgain(given, second) == three + [Undisturbed(None)];
    LastSave(setup, Run(setup, three), Record(setup.steps[0], second, InitialValues(given)));
  }

  lemma LastSave(setup: Setup, s: System, values: Values)
    requires s.pc.Completing? && s.pc.completed.values == values && s.issued == {}
    ensures var t := Apply(setup, s, Undisturbed(None)); t.store.Some? && t.store.value.values == values
  {
  }

  /** So a stored value can be replaced: in any workflow of one such step, by any two results. */
  lemma StoredValueIsReplaced(setup: Setup, given: map<string, Json>, first: Json, second: Json)
    requires OneStep(setup, given)
    ensures var events := SavedWithFailure(given, first);
            && StoredAs(Run(setup, events), StepKey(setup.steps[0].id), first)
            && StoredAs(Run(setup, events + RunAgain(given, second)), StepKey(setup.steps[0].id), second)
  {
    SavedWithFailureRuns(setup, given, first);
    RunAgainRuns(setup, SavedWithFailure(given, first), given, first, second);
  }
}
