/** Workflow steps and the references between them (packages/workflows/src/validation.ts and the
    reference functions of interpreter.ts). */
module References {
  import opened Prelude

  datatype Json =
    | Null
    | Bool(b: bool)
    | Number(n: int)
    | Text(s: string)
    | Array(items: seq<Json>)
    | Object(fields: map<string, Json>)

  type Values = map<string, Json>

  /** A step input or tool argument: absent, a pure reference, or a value with no `ref` key. */
  datatype Input = Absent | Ref(ref: string) | Literal(value: Json)

  datatype Operation =
    | Adapter  // every operation that neither asks for approval nor writes
    | Approval
    | Export
    | Tool(tool: string)

  datatype Step = Step(id: string, op: Operation, input: Input, output: Option<string>,
                       continues: bool, scope: Option<string>, approvalRef: Option<string>,
                       arguments: seq<(string, Input)>)

  // Names and references as text.

  predicate IsLetter(c: char) {
    'A' <= c <= 'Z' || 'a' <= c <= 'z'
  }

  predicate IsNameChar(c: char) {
    IsLetter(c) || '0' <= c <= '9' || c == '_' || c == '-'
  }

  /** [A-Za-z][A-Za-z0-9_-]{0,127} */
  predicate IsName(s: string) {
    1 <= |s| <= 128 && IsLetter(s[0]) && forall i :: 0 <= i < |s| ==> IsNameChar(s[i])
  }

  /** A name, by its code points: a letter, then up to 127 letters, digits, underscores and hyphens. */
  lemma NamesExactly(s: string)
    ensures IsName(s) <==>
            && 0 < |s| < 129 && (65 <= s[0] as int <= 90 || 97 <= s[0] as int <= 122)
            && forall i :: 0 < i < |s| ==>
                 var u := s[i] as int;
                 65 <= u <= 90 || 97 <= u <= 122 || 48 <= u <= 57 || u == 95 || u == 45
  {
  }

  predicate StartsWith(s: string, prefix: string) {
    |prefix| <= |s| && s[..|prefix|] == prefix
  }

  /** The length of the longest prefix without a dot. */
  function UntilDot(s: string): (n: nat)
    ensures n <= |s| && (n < |s| ==> s[n] == '.') && forall i :: 0 <= i < n ==> s[i] != '.'
  {
    if s == [] || s[0] == '.' then 0 else 1 + UntilDot(s[1..])
  }

  function InputKey(name: string): string {
    "input." + name
  }

  function StepKey(id: string): string {
    "steps." + id
  }

  function OutputKey(id: string, output: string): string {
    StepKey(id) + "." + output
  }

  /** validateReference: an input by name, an earlier step, or a named field of an earlier step. */
  predicate ReferenceAccepted(ref: string, available: set<string>, inputs: set<string>) {
    if StartsWith(ref, "input.") && IsName(ref[6..]) then ref[6..] in inputs
    else
      StartsWith(ref, "steps.") &&
      var rest := ref[6..];
      var n := UntilDot(rest);
      IsName(rest[..n]) && (n < |rest| ==> IsName(rest[n + 1..])) && rest[..n] in available
  }

  predicate InputAccepted(input: Input, available: set<string>, inputs: set<string>) {
    input.Ref? ==> ReferenceAccepted(input.ref, available, inputs)
  }

  /** What validateStep demands of a step's id and references. */
  predicate StepAccepted(step: Step, available: set<string>, inputs: set<string>) {
    && IsName(step.id) && step.id !in available
    && InputAccepted(step.input, available, inputs)
    && (forall i :: 0 <= i < |step.arguments| ==> InputAccepted(step.arguments[i].1, available, inputs))
    && (step.approvalRef.Some? ==> ReferenceAccepted(step.approvalRef.value, available, inputs))
  }

  function Ids(steps: seq<Step>): set<string> {
    set i | 0 <= i < |steps| :: steps[i].id
  }

  ghost predicate Validated(steps: seq<Step>, inputs: set<string>) {
    forall i :: 0 <= i < |steps| ==> StepAccepted(steps[i], Ids(steps[..i]), inputs)
  }

  /** validateWorkflow's loop over the steps, which grows the set of available ids as it goes. */
  method ValidateSteps(steps: seq<Step>, inputs: set<string>) returns (ok: bool)
    ensures ok <==> Validated(steps, inputs)
  {
    var available := {};
    for i := 0 to |steps|
      invariant available == Ids(steps[..i])
      invariant forall j :: 0 <= j < i ==> StepAccepted(steps[j], Ids(steps[..j]), inputs)
    {
      var step := steps[i];
      if !(IsName(step.id) && step.id !in available && InputAccepted(step.input, available, inputs)) {
        return false;
      }
      for k := 0 to |step.arguments|
        invariant forall j :: 0 <= j < k ==> InputAccepted(step.arguments[j].1, available, inputs)
      {
        if !InputAccepted(step.arguments[k].1, available, inputs) {
          return false;
        }
      }
      if step.approvalRef.Some? && !ReferenceAccepted(step.approvalRef.value, available, inputs) {
        return false;
      }
      IdsSnoc(steps, i);
      available := available + {step.id};
    }
    return true;
  }

  lemma IdsSnoc(steps: seq<Step>, i: nat)
    requires i < |steps|
    ensures Ids(steps[..i + 1]) == Ids(steps[..i]) + {steps[i].id}
  {
    var longer, shorter := steps[..i + 1], steps[..i];
    forall id
      ensures id in Ids(longer) <==> id in Ids(shorter) || id == steps[i].id
    {
      if k :| 0 <= k < |longer| && longer[k].id == id {
        assert k < i ==> shorter[k].id == id;
      }
      if k :| 0 <= k < |shorter| && shorter[k].id == id {
        assert longer[k].id == id;
      }
      assert longer[i].id == steps[i].id;
    }
  }

  lemma DistinctIds(steps: seq<Step>, inputs: set<string>, i: nat, j: nat)
    requires Validated(steps, inputs) && i < j < |steps|
    ensures steps[i].id != steps[j].id
  {
    assert steps[..j][i].id == steps[i].id;
    assert steps[i].id in Ids(steps[..j]);
  }

  // Resolution at run time.

  /** resolveReference: the value under the whole reference, or a field of a step's object value. */
  function ResolveReference(ref: string, values: Values): Option<Json> {
    if ref in values then Some(values[ref])
    else if !StartsWith(ref, "steps.") then None
    else
      var rest := ref[6..];
      var n := UntilDot(rest);
      if n == |rest| || !IsIdentifier(rest[..n]) || !IsIdentifier(rest[n + 1..]) then None
      else
        var parent := StepKey(rest[..n]);
        if parent in values && values[parent].Object? && rest[n + 1..] in values[parent].fields
        then Some(values[parent].fields[rest[n + 1..]])
        else None
  }

  /** [A-Za-z][A-Za-z0-9_-]* of any length. */
  predicate IsIdentifier(s: string) {
    |s| >= 1 && IsLetter(s[0]) && forall i :: 0 <= i < |s| ==> IsNameChar(s[i])
  }

  function ResolveInput(input: Input, values: Values): Option<Json> {
    match input
    case Absent => Some(Null)
    case Ref(ref) => ResolveReference(ref, values)
    case Literal(value) => Some(value)
  }

  function ResolveArguments(arguments: seq<(string, Input)>, values: Values): Option<map<string, Json>> {
    if arguments == [] then Some(map[])
    else
      var last := arguments[|arguments| - 1];
      var rest := ResolveArguments(arguments[..|arguments| - 1], values);
      var value := ResolveInput(last.1, values);
      if rest.None? || value.None? then None else Some(rest.value[last.0 := value.value])
  }

  /** The values after a step: its result under its own key and under its declared output. */
  function Record(step: Step, result: Json, values: Values): Values {
    var direct := values[StepKey(step.id) := result];
    if step.output.Some? then direct[OutputKey(step.id, step.output.value) := result] else direct
  }

  function InitialValues(inputs: map<string, Json>): Values {
    map key | key in (set name | name in inputs :: InputKey(name)) :: inputs[key[6..]]
  }

  // Which keys a step owns.

  predicate OwnKey(step: Step, key: string) {
    key == StepKey(step.id) || (step.output.Some? && key == OutputKey(step.id, step.output.value))
  }

  lemma NameHasNoDot(s: string)
    requires IsName(s)
    ensures UntilDot(s) == |s|
  {
    assert forall i :: 0 <= i < |s| ==> IsNameChar(s[i]);
  }

  lemma {:induction false} UntilDotAppend(s: string, t: string)
    requires forall i :: 0 <= i < |s| ==> s[i] != '.'
    ensures UntilDot(s + "." + t) == |s|
  {
    if s == [] {
      assert (s + "." + t)[0] == '.';
    } else {
      UntilDotAppend(s[1..], t);
      assert (s + "." + t)[1..] == s[1..] + "." + t;
    }
  }

  lemma OwnKeyNamesStep(step: Step, key: string)
    requires IsName(step.id) && OwnKey(step, key)
    ensures StartsWith(key, "steps.") && key[6..][..UntilDot(key[6..])] == step.id
  {
    NameHasNoDot(step.id);
    if key == StepKey(step.id) {
      assert key[6..] == step.id;
    } else {
      var output := step.output.value;
      forall i | 0 <= i < |step.id|
        ensures step.id[i] != '.'
      {
        assert IsNameChar(step.id[i]);
      }
      UntilDotAppend(step.id, output);
      assert key[6..] == step.id + "." + output;
      assert key[6..][..|step.id|] == step.id;
    }
  }

  /** No step writes over a value of another step or over an input. */
  lemma KeysAreOwned(left: Step, right: Step, key: string)
    requires IsName(left.id) && IsName(right.id) && left.id != right.id
    ensures !(OwnKey(left, key) && OwnKey(right, key))
    ensures OwnKey(left, key) ==> !StartsWith(key, "input.")
  {
    if OwnKey(left, key) {
      OwnKeyNamesStep(left, key);
      assert key[0] == 's';
      if OwnKey(right, key) {
        OwnKeyNamesStep(right, key);
      }
    }
  }

  // References by form.

  lemma StepPrefix(rest: string)
    ensures StartsWith("steps." + rest, "steps.") && ("steps." + rest)[6..] == rest
    ensures !StartsWith("steps." + rest, "input.")
  {
    assert ("steps." + rest)[..6][0] == 's' && "input."[0] == 'i';
  }

  lemma InputPrefix(rest: string)
    ensures StartsWith("input." + rest, "input.") && ("input." + rest)[6..] == rest
    ensures !StartsWith("input." + rest, "steps.")
  {
    assert ("input." + rest)[..6][0] == 'i' && "steps."[0] == 's';
  }

  lemma DotSplits(id: string, field: string)
    requires IsName(id)
    ensures var rest := id + "." + field;
            UntilDot(rest) == |id| && rest[..|id|] == id && rest[|id| + 1..] == field
  {
    forall i | 0 <= i < |id|
      ensures id[i] != '.'
    {
      assert IsNameChar(id[i]);
    }
    UntilDotAppend(id, field);
  }

  lemma OutputKeyIs(id: string, field: string)
    ensures OutputKey(id, field) == "steps." + (id + "." + field)
  {
  }

  ghost predicate NamesInput(ref: string, inputs: set<string>) {
    exists name :: IsName(name) && name in inputs && ref == InputKey(name)
  }

  ghost predicate NamesStep(ref: string, available: set<string>) {
    exists id :: IsName(id) && id in available && ref == StepKey(id)
  }

  ghost predicate NamesField(ref: string, available: set<string>) {
    exists id, field :: IsName(id) && id in available && IsName(field) && ref == OutputKey(id, field)
  }

  /** Validation accepts exactly the names of inputs, of available steps, and of fields of those. */
  lemma AcceptedExactly(ref: string, available: set<string>, inputs: set<string>)
    ensures ReferenceAccepted(ref, available, inputs) <==>
            NamesInput(ref, inputs) || NamesStep(ref, available) || NamesField(ref, available)
  {
    if ReferenceAccepted(ref, available, inputs) {
      AcceptedIsNamed(ref, available, inputs);
    }
    if NamesInput(ref, inputs) {
      var name :| IsName(name) && name in inputs && ref == InputKey(name);
      InputPrefix(name);
    }
    if NamesStep(ref, available) {
      var id :| IsName(id) && id in available && ref == StepKey(id);
      StepPrefix(id);
      NameHasNoDot(id);
      assert id[..|id|] == id;
    }
    if NamesField(ref, available) {
      var id, field :| IsName(id) && id in available && IsName(field) && ref == OutputKey(id, field);
      OutputKeyIs(id, field);
      StepPrefix(id + "." + field);
      DotSplits(id, field);
    }
  }

  lemma AcceptedIsNamed(ref: string, available: set<string>, inputs: set<string>)
    requires ReferenceAccepted(ref, available, inputs)
    ensures NamesInput(ref, inputs) || NamesStep(ref, available) || NamesField(ref, available)
  {
    if StartsWith(ref, "input.") && IsName(ref[6..]) {
      assert ref == InputKey(ref[6..]);
    } else {
      var rest := ref[6..];
      var n := UntilDot(rest);
      if n < |rest| {
        assert rest == rest[..n] + "." + rest[n + 1..];
        assert ref == OutputKey(rest[..n], rest[n + 1..]);
      } else {
        assert ref == StepKey(rest[..n]);
      }
    }
  }

  /** What each form of reference resolves to: the input's value, the step's result, and the named
      output or else the field of the step's result. */
  lemma ResolvesExactly(id: string, field: string, values: Values)
    requires IsName(id) && IsName(field)
    ensures ResolveReference(InputKey(id), values) == Lookup(values, InputKey(id))
    ensures ResolveReference(StepKey(id), values) == Lookup(values, StepKey(id))
    ensures ResolveReference(OutputKey(id, field), values) ==
            if OutputKey(id, field) in values then Some(values[OutputKey(id, field)])
            else if StepKey(id) in values && values[StepKey(id)].Object? then Lookup(values[StepKey(id)].fields, field)
            else None
  {
    InputPrefix(id);
    StepPrefix(id);
    NameHasNoDot(id);
    OutputKeyIs(id, field);
    StepPrefix(id + "." + field);
    DotSplits(id, field);
  }

  function Lookup<T>(values: map<string, T>, key: string): Option<T> {
    if key in values then Some(values[key]) else None
  }

  predicate LastOfName(arguments: seq<(string, Input)>, i: nat)
    requires i < |arguments|
  {
    forall j :: i < j < |arguments| ==> arguments[j].0 != arguments[i].0
  }

  /** The map holds the value of every named argument, the last one of its name, and nothing else. */
  ghost predicate HoldsArguments(resolved: map<string, Json>, arguments: seq<(string, Input)>, values: Values) {
    && (forall name :: name in resolved ==> exists i :: 0 <= i < |arguments| && arguments[i].0 == name)
    && (forall i :: 0 <= i < |arguments| && LastOfName(arguments, i) ==>
          Lookup(resolved, arguments[i].0) == ResolveInput(arguments[i].1, values))
  }

  lemma HoldsOneMore(resolved: map<string, Json>, rest: seq<(string, Input)>, last: (string, Input), value: Json, values: Values)
    requires HoldsArguments(resolved, rest, values) && ResolveInput(last.1, values) == Some(value)
    ensures HoldsArguments(resolved[last.0 := value], rest + [last], values)
  {
    var arguments, n, more := rest + [last], |rest|, resolved[last.0 := value];
    forall name | name in more
      ensures exists i :: 0 <= i < |arguments| && arguments[i].0 == name
    {
      assert arguments[n].0 == last.0;
      if name in resolved {
        var i :| 0 <= i < n && rest[i].0 == name;
        assert arguments[i].0 == name;
      }
    }
    forall i | 0 <= i < |arguments| && LastOfName(arguments, i)
      ensures Lookup(more, arguments[i].0) == ResolveInput(arguments[i].1, values)
    {
      if i < n {
        assert arguments[n].0 != arguments[i].0;
        forall j | i < j < n
          ensures rest[j].0 != rest[i].0
        {
          assert arguments[j].0 != arguments[i].0;
        }
        assert LastOfName(rest, i);
      }
    }
  }

  /** A tool's arguments resolve exactly when each of them does, and then to the map that holds them. */
  lemma {:induction false} ArgumentsResolveExactly(arguments: seq<(string, Input)>, values: Values)
    ensures var resolved := ResolveArguments(arguments, values);
            && (resolved.Some? <==> forall i :: 0 <= i < |arguments| ==> ResolveInput(arguments[i].1, values).Some?)
            && (resolved.Some? ==> HoldsArguments(resolved.value, arguments, values))
  {
    if arguments != [] {
      var n := |arguments| - 1;
      var rest := arguments[..n];
      ArgumentsResolveExactly(rest, values);
      assert forall i :: 0 <= i < n ==> rest[i] == arguments[i];
      assert arguments == rest + [arguments[n]];
      var resolved := ResolveArguments(rest, values);
      if resolved.Some? && ResolveInput(arguments[n].1, values).Some? {
        HoldsOneMore(resolved.value, rest, arguments[n], ResolveInput(arguments[n].1, values).value, values);
      }
    }
  }

  // Availability.

  /** The inputs and everything the first n steps own are there. */
  ghost predicate Filled(steps: seq<Step>, n: nat, inputs: set<string>, values: Values)
    requires n <= |steps|
  {
    && (forall name :: name in inputs ==> InputKey(name) in values)
    && (forall j, key :: 0 <= j < n && OwnKey(steps[j], key) ==> key in values)
  }

  /** A reference that names a field names a declared output. */
  ghost predicate Declared(ref: string, steps: seq<Step>) {
    StartsWith(ref, "steps.") && UntilDot(ref[6..]) < |ref[6..]| ==>
      exists j :: 0 <= j < |steps| && steps[j].output.Some? && ref == OutputKey(steps[j].id, steps[j].output.value)
  }

  lemma AcceptedReferenceResolves(ref: string, steps: seq<Step>, i: nat, inputs: set<string>, values: Values)
    requires i <= |steps| && Filled(steps, i, inputs, values)
    requires ReferenceAccepted(ref, Ids(steps[..i]), inputs) && Declared(ref, steps[..i])
    ensures ref in values && ResolveReference(ref, values) == Some(values[ref])
  {
    var earlier := steps[..i];
    if StartsWith(ref, "input.") && IsName(ref[6..]) {
      assert ref == InputKey(ref[6..]);
    } else {
      var rest := ref[6..];
      var n := UntilDot(rest);
      if n < |rest| {
        var j :| 0 <= j < |earlier| && earlier[j].output.Some? && ref == OutputKey(earlier[j].id, earlier[j].output.value);
        assert OwnKey(steps[j], ref);
      } else {
        var j :| 0 <= j < |earlier| && earlier[j].id == rest[..n];
        assert ref == StepKey(steps[j].id);
        assert OwnKey(steps[j], ref);
      }
    }
  }

  lemma RecordFills(steps: seq<Step>, i: nat, inputs: set<string>, result: Json, values: Values)
    requires i < |steps| && Filled(steps, i, inputs, values)
    ensures Filled(steps, i + 1, inputs, Record(steps[i], result, values))
  {
  }

  /** Recording a step leaves alone every key another step or an input owns. */
  lemma RecordKeepsOthers(step: Step, result: Json, values: Values, key: string)
    requires !OwnKey(step, key)
    ensures key in Record(step, result, values) <==> key in values
    ensures key in values ==> Record(step, result, values)[key] == values[key]
  {
  }

  lemma InitialValuesFill(steps: seq<Step>, inputs: map<string, Json>)
    ensures Filled(steps, 0, inputs.Keys, InitialValues(inputs))
  {
  }
}
