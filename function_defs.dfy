/**
 * MESA-ESS function definitions: the named functions (modes, commands) of the MESA-ESS
 * specification, each an ordered list of steps, and the repository that looks a written
 * point up as the one step naming it.
 */
module FunctionDefs {
  import opened Wrappers
  import opened Points

  /** Whether a step is Optional, Mandatory or Conditional. */
  datatype Omc = OptionalStep | MandatoryStep | ConditionalStep

  datatype FunctionCode = DirectOperate | SelectCode | OperateCode

  /** The `fcodes` attribute of a step as read: a list of names, or some other value. */
  datatype FcodesField = FcodeList(codes: seq<string>) | NotAList

  /** The attributes of one step in the function definitions file; None for an absent key. */
  datatype StepRecord = StepRecord(
    stepNumber: Option<int>,
    pointName: Option<string>,
    optional: Option<string>,
    fcodes: Option<FcodesField>,
    response: Option<string>,
    action: Option<string>)

  datatype StepDefinition = StepDefinition(
    stepNumber: int,
    name: string,
    optional: Omc,
    fcodes: seq<FunctionCode>,
    response: Option<string>,
    action: Option<string>)

  datatype StepError =
    | MissingStepNumber
    | MissingName
    | InvalidOptional(flag: string)
    | FcodesNotAList
    | InvalidFcode(code: string)

  function OmcOf(flag: string): Option<Omc>
  {
    if flag == "O" then Some(OptionalStep)
    else if flag == "M" then Some(MandatoryStep)
    else if flag == "C" then Some(ConditionalStep)
    else None
  }

  function FunctionCodeOf(code: string): Option<FunctionCode>
  {
    if code == "direct_operate" then Some(DirectOperate)
    else if code == "select" then Some(SelectCode)
    else if code == "operate" then Some(OperateCode)
    else None
  }

  /** The function codes of a list, or the first name that is not one. */
  function FunctionCodesOf(codes: seq<string>): (r: Result<seq<FunctionCode>, StepError>)
    ensures r.Ok? <==> forall c | c in codes :: FunctionCodeOf(c).Some?
    ensures r.Ok? ==> |r.value| == |codes| && forall i | 0 <= i < |codes| :: Some(r.value[i]) == FunctionCodeOf(codes[i])
    ensures r.Err? ==> exists c | c in codes :: r.error == InvalidFcode(c) && FunctionCodeOf(c).None?
  {
    if codes == [] then Ok([])
    else if FunctionCodeOf(codes[0]).None? then Err(InvalidFcode(codes[0]))
    else
      var rest := FunctionCodesOf(codes[1..]);
      if rest.Err? then rest
      else Ok([FunctionCodeOf(codes[0]).value] + rest.value)
  }

  /**
   * A step definition from its record: the step number and point name are required, the
   * flag defaults to Optional and must be one of O, M, C, and `fcodes` (default empty) must
   * be a list of direct_operate, select and operate.
   */
  function ValidateStep(rec: StepRecord): (r: Result<StepDefinition, StepError>)
    ensures r.Ok? <==>
              && rec.stepNumber.Some? && rec.pointName.Some?
              && (rec.optional.None? || OmcOf(rec.optional.value).Some?)
              && (rec.fcodes.None? || (rec.fcodes.value.FcodeList? &&
                                       forall c | c in rec.fcodes.value.codes :: FunctionCodeOf(c).Some?))
    ensures r.Ok? ==>
              && r.value.stepNumber == rec.stepNumber.value && r.value.name == rec.pointName.value
              && r.value.optional == (if rec.optional.None? then OptionalStep else OmcOf(rec.optional.value).value)
              && r.value.fcodes == (if rec.fcodes.None? then [] else FunctionCodesOf(rec.fcodes.value.codes).value)
              && r.value.response == rec.response && r.value.action == rec.action
    ensures rec.stepNumber.None? ==> r == Err(MissingStepNumber)
    ensures rec.stepNumber.Some? && rec.pointName.None? ==> r == Err(MissingName)
    ensures rec.stepNumber.Some? && rec.pointName.Some? && rec.optional.Some? && OmcOf(rec.optional.value).None?
            ==> r == Err(InvalidOptional(rec.optional.value))
    ensures (&& rec.stepNumber.Some? && rec.pointName.Some? && (rec.optional.None? || OmcOf(rec.optional.value).Some?)
             && rec.fcodes.Some? && rec.fcodes.value.NotAList?) ==> r == Err(FcodesNotAList)
  {
    if rec.stepNumber.None? then Err(MissingStepNumber)
    else if rec.pointName.None? then Err(MissingName)
    else if rec.optional.Some? && OmcOf(rec.optional.value).None? then Err(InvalidOptional(rec.optional.value))
    else if rec.fcodes.Some? && rec.fcodes.value.NotAList? then Err(FcodesNotAList)
    else
      var codes := if rec.fcodes.None? then Ok([]) else FunctionCodesOf(rec.fcodes.value.codes);
      if codes.Err? then Err(codes.error)
      else
        var optional := if rec.optional.None? then OptionalStep else OmcOf(rec.optional.value).value;
        Ok(StepDefinition(rec.stepNumber.value, rec.pointName.value, optional, codes.value, rec.response, rec.action))
  }

  /** The attributes of one function in the function definitions file. */
  datatype FunctionRecord = FunctionRecord(
    id: Option<string>,
    name: Option<string>,
    reference: Option<string>,
    supportPoint: Option<string>,
    steps: Option<seq<StepRecord>>)

  datatype FunctionDefinition = FunctionDefinition(
    id: string,
    name: string,
    reference: Option<string>,
    supportPointName: Option<string>,
    steps: seq<StepDefinition>)

  datatype FunctionError = MissingKey(key: string) | InvalidStep(position: nat, error: StepError)

  /** The step definitions of a list of records, or the position and error of the first invalid one. */
  function ValidateSteps(recs: seq<StepRecord>): (r: Result<seq<StepDefinition>, FunctionError>)
    ensures r.Ok? <==> forall i | 0 <= i < |recs| :: ValidateStep(recs[i]).Ok?
    ensures r.Ok? ==> |r.value| == |recs| && forall i | 0 <= i < |recs| :: ValidateStep(recs[i]) == Ok(r.value[i])
    ensures r.Err? ==> r.error.InvalidStep? && r.error.position < |recs|
                       && ValidateStep(recs[r.error.position]) == Err(r.error.error)
                       && forall i | 0 <= i < r.error.position :: ValidateStep(recs[i]).Ok?
  {
    if recs == [] then Ok([])
    else
      var first := ValidateStep(recs[0]);
      if first.Err? then Err(InvalidStep(0, first.error))
      else
        var rest := ValidateSteps(recs[1..]);
        if rest.Err? then Err(InvalidStep(rest.error.position + 1, rest.error.error))
        else Ok([first.value] + rest.value)
  }

  /** A function definition from its record; id, name and steps are required. */
  function BuildFunction(rec: FunctionRecord): (r: Result<FunctionDefinition, FunctionError>)
    ensures r.Ok? <==> rec.id.Some? && rec.name.Some? && rec.steps.Some? && ValidateSteps(rec.steps.value).Ok?
    ensures r.Ok? ==> r.value.name == rec.name.value && r.value.id == rec.id.value
                      && r.value.supportPointName == rec.supportPoint
                      && r.value.steps == ValidateSteps(rec.steps.value).value
  {
    if rec.id.None? then Err(MissingKey("id"))
    else if rec.name.None? then Err(MissingKey("name"))
    else if rec.steps.None? then Err(MissingKey("steps"))
    else
      var steps := ValidateSteps(rec.steps.value);
      if steps.Err? then Err(steps.error)
      else Ok(FunctionDefinition(rec.id.value, rec.name.value, rec.reference, rec.supportPoint, steps.value))
  }

  /** A step of a function, by its position in the function's step list. */
  datatype IndexedStep = IndexedStep(owner: FunctionDefinition, position: nat)
  {
    predicate InRange() { position < |owner.steps| }

    function Step(): StepDefinition
      requires InRange()
    {
      owner.steps[position]
    }
  }

  type Functions = map<string, FunctionDefinition>

  /** Each function is filed under its own name. */
  predicate NamedByKey(fs: Functions)
  {
    forall f | f in fs :: fs[f].name == f
  }

  /** Every step of every function. */
  function AllSteps(fs: Functions): set<IndexedStep>
  {
    set f, i | f in fs && 0 <= i < |fs[f].steps| :: IndexedStep(fs[f], i)
  }

  /** The steps, across all functions, whose point name is `name`. */
  function StepsNamed(fs: Functions, name: string): (r: set<IndexedStep>)
    ensures forall x | x in r :: x in AllSteps(fs) && x.InRange() && x.Step().name == name
  {
    set f, i | f in fs && 0 <= i < |fs[f].steps| && fs[f].steps[i].name == name :: IndexedStep(fs[f], i)
  }

  /** The one step, across all functions, whose point name is `name`; None when no step or several steps have it. */
  ghost function OnlyStepNamed(fs: Functions, name: string): (r: Option<IndexedStep>)
    ensures r.Some? <==> |StepsNamed(fs, name)| == 1
    ensures r.Some? ==> r.value in StepsNamed(fs, name) && r.value.InRange()
  {
    if |StepsNamed(fs, name)| == 1 then
      var x :| x in StepsNamed(fs, name);
      Some(x)
    else None
  }

  /** When exactly one step is named `name`, it is the one `OnlyStepNamed` picks. */
  lemma OnlyStepNamedIs(fs: Functions, name: string, x: IndexedStep)
    requires StepsNamed(fs, name) == {x}
    ensures OnlyStepNamed(fs, name) == Some(x)
  {
  }

  predicate NoDuplicates<T(==)>(s: seq<T>)
  {
    forall i, j | 0 <= i < j < |s| :: s[i] != s[j]
  }

  /** The step name index lists, for each name that some step has, each such step exactly once. */
  predicate IndexMatches(fs: Functions, idx: map<string, seq<IndexedStep>>)
  {
    && (forall n | n in idx :: idx[n] != [] && NoDuplicates(idx[n]))
    && (forall n, x | n in idx && x in idx[n] :: x in StepsNamed(fs, n))
    && (forall x | x in AllSteps(fs) :: x.InRange() && x.Step().name in idx && x in idx[x.Step().name])
  }

  /** A list without duplicates is as long as the set of its elements. */
  lemma {:induction false} DistinctCount<T>(s: seq<T>)
    requires NoDuplicates(s)
    ensures |set x | x in s| == |s|
  {
    if s != [] {
      var rest := s[1..];
      assert NoDuplicates(rest) by {
        forall i, j | 0 <= i < j < |rest| ensures rest[i] != rest[j] {
          assert rest[i] == s[i + 1] && rest[j] == s[j + 1];
        }
      }
      DistinctCount(rest);
      assert (set x | x in s) == (set x | x in rest) + {s[0]};
      assert s[0] !in (set x | x in rest) by {
        forall i | 0 <= i < |rest| ensures rest[i] != s[0] {
          assert rest[i] == s[i + 1];
        }
      }
    }
  }

  /** Against a matching index, a name's entry has exactly as many steps as bear that name. */
  lemma IndexCount(fs: Functions, idx: map<string, seq<IndexedStep>>, name: string)
    requires IndexMatches(fs, idx)
    ensures name in idx <==> StepsNamed(fs, name) != {}
    ensures name in idx ==> |idx[name]| == |StepsNamed(fs, name)|
  {
    if name in idx {
      var x := idx[name][0];
      assert x in StepsNamed(fs, name);
      assert (set y | y in idx[name]) == StepsNamed(fs, name);
      DistinctCount(idx[name]);
    }
  }

  /**
   * Adding a function as the agent does keeps a step name index built earlier. When the
   * new function has a step whose name no earlier step had, that index no longer matches:
   * a point of the new function is reported as belonging to no step.
   */
  function AddFunctionAsWritten(fs: Functions, idx: map<string, seq<IndexedStep>>, f: FunctionDefinition)
    : (Functions, map<string, seq<IndexedStep>>)
  {
    (fs[f.name := f], idx)
  }

  lemma StaleIndexAfterAdd(fs: Functions, idx: map<string, seq<IndexedStep>>, f: FunctionDefinition, i: nat)
    requires IndexMatches(fs, idx) && i < |f.steps|
    requires StepsNamed(fs, f.steps[i].name) == {}
    ensures var (fs', idx') := AddFunctionAsWritten(fs, idx, f);
            !IndexMatches(fs', idx') && f.steps[i].name !in idx'
  {
    IndexCount(fs, idx, f.steps[i].name);
    var fs' := fs[f.name := f];
    assert IndexedStep(fs'[f.name], i) in AllSteps(fs');
  }

  /** The repository of function definitions and its step name index. */
  class FunctionDefinitions {
    var functions: Functions
    /** Lazily built; empty means not built yet. */
    var stepIndex: map<string, seq<IndexedStep>>
    /** The value last written to a function's support point; a function absent here is supported. */
    var supported: map<string, Unwrapped>

    ghost predicate Valid()
      reads this
    {
      && NamedByKey(functions)
      && (stepIndex == map[] || IndexMatches(functions, stepIndex))
    }

    constructor ()
      ensures Valid() && functions == map[] && stepIndex == map[] && supported == map[]
    {
      functions := map[];
      stepIndex := map[];
      supported := map[];
    }

    /** Whether a function may be installed: the truth value of its support point's last value. */
    function IsSupported(name: string): (r: bool)
      reads this`supported
      ensures name !in supported ==> r
      ensures name in supported && supported[name].Flag? ==> r == supported[name].b
      ensures name in supported && supported[name].Num? ==> (r <==> supported[name].n != 0)
    {
      name !in supported || Truthy(supported[name])
    }

    /** Files a function under its name and clears the step name index so it is rebuilt. */
    method AddFunction(f: FunctionDefinition)
      requires Valid()
      modifies this`functions, this`stepIndex
      ensures Valid()
      ensures functions == old(functions)[f.name := f] && stepIndex == map[]
    {
      functions := functions[f.name := f];
      stepIndex := map[];
    }

    /**
     * Loads function records in order. The first record that is not a valid function
     * stops the load; the functions before it stay loaded.
     */
    method LoadFunctions(recs: seq<FunctionRecord>) returns (err: Option<FunctionError>)
      requires Valid()
      modifies this`functions, this`stepIndex
      ensures Valid()
      ensures (functions, err) == Loaded(old(functions), recs)
      ensures err.Some? ==> exists j | 0 <= j < |recs| :: BuildFunction(recs[j]) == Err(err.value) && LoadedBefore(recs, j, functions)
      ensures err.None? ==> LoadedBefore(recs, |recs|, functions)
      ensures stepIndex == old(stepIndex) || stepIndex == map[]
    {
      var j := 0;
      err := None;
      while j < |recs|
        invariant 0 <= j <= |recs| && Valid()
        invariant LoadedBefore(recs, j, functions)
        invariant Loaded(functions, recs[j..]) == Loaded(old(functions), recs)
        invariant stepIndex == old(stepIndex) || stepIndex == map[]
      {
        var r := BuildFunction(recs[j]);
        if r.Err? {
          err := Some(r.error);
          return;
        }
        assert recs[j..][1..] == recs[j + 1..];
        AddFunction(r.value);
        j := j + 1;
      }
    }

    /** The step name index, built on first use over all functions in no particular order. */
    method StepDefinitionsByName() returns (idx: map<string, seq<IndexedStep>>)
      requires Valid()
      modifies this`stepIndex
      ensures Valid() && idx == stepIndex && IndexMatches(functions, idx)
      ensures old(stepIndex) != map[] ==> stepIndex == old(stepIndex)
    {
      if stepIndex != map[] {
        return stepIndex;
      }
      var names := functions.Keys;
      ghost var seen: set<IndexedStep> := {};
      while names != {}
        invariant names <= functions.Keys
        invariant seen == StepsOf(functions, functions.Keys - names)
        invariant PartialIndex(stepIndex, seen)
        decreases names
      {
        var f := Pick(names);
        StepsOfFresh(functions, functions.Keys - names, f);
        IndexSteps(functions[f], seen);
        StepsOfStep(functions, functions.Keys - names, f);
        seen := seen + StepsBelow(functions[f], |functions[f].steps|);
        assert functions.Keys - (names - {f}) == (functions.Keys - names) + {f};
        names := names - {f};
      }
      assert functions.Keys - names == functions.Keys;
      PartialIndexComplete(functions, stepIndex);
      idx := stepIndex;
    }

    /** Lists every step of one function under its name, appending to the index. */
    method IndexSteps(def: FunctionDefinition, ghost before: set<IndexedStep>)
      requires PartialIndex(stepIndex, before)
      requires forall j | 0 <= j < |def.steps| :: IndexedStep(def, j) !in before
      modifies this`stepIndex
      ensures PartialIndex(stepIndex, before + StepsBelow(def, |def.steps|))
    {
      var j := 0;
      while j < |def.steps|
        invariant 0 <= j <= |def.steps|
        invariant PartialIndex(stepIndex, before + StepsBelow(def, j))
      {
        var x := IndexedStep(def, j);
        assert x !in StepsBelow(def, j);
        IndexInsert(stepIndex, before + StepsBelow(def, j), x);
        stepIndex := Insert(stepIndex, x);
        assert StepsBelow(def, j + 1) == StepsBelow(def, j) + {x};
        j := j + 1;
      }
    }

    /**
     * The one step that names a point. A name that no step has, and a name that more than
     * one step has, are both errors.
     */
    method StepDefinitionForPoint(name: string) returns (r: Result<IndexedStep, StepLookupError>)
      requires Valid()
      modifies this`stepIndex
      ensures Valid() && IndexMatches(functions, stepIndex)
      ensures old(stepIndex) != map[] ==> stepIndex == old(stepIndex)
      ensures r.Ok? <==> |StepsNamed(functions, name)| == 1
      ensures r.Ok? ==> StepsNamed(functions, name) == {r.value} && r.value.InRange()
      ensures r == Err(NoStepNamed(name)) <==> StepsNamed(functions, name) == {}
      ensures r == Err(SeveralStepsNamed(name)) <==> |StepsNamed(functions, name)| > 1
    {
      var idx := StepDefinitionsByName();
      IndexCount(functions, idx, name);
      if name !in idx {
        return Err(NoStepNamed(name));
      }
      var steps := idx[name];
      if |steps| > 1 {
        return Err(SeveralStepsNamed(name));
      }
      assert steps[0] in StepsNamed(functions, name);
      SingletonSet(StepsNamed(functions, name), steps[0]);
      return Ok(steps[0]);
    }

    /** The function, if any, whose support point is `pointName`; when several share it, any one of them. */
    method FunctionForSupportPoint(pointName: string) returns (r: Option<string>)
      ensures r.Some? ==> r.value in functions && functions[r.value].supportPointName == Some(pointName)
      ensures r.None? <==> forall f | f in functions :: functions[f].supportPointName != Some(pointName)
    {
      var candidates := set f | f in functions && functions[f].supportPointName == Some(pointName);
      if candidates == {} {
        forall f | f in functions ensures functions[f].supportPointName != Some(pointName) {
          assert f !in candidates;
        }
        return None;
      }
      var f := Pick(candidates);
      return Some(f);
    }

    /** Records the value written to a support point as the function's supported state. */
    method SetSupported(name: string, value: Unwrapped)
      modifies this`supported
      ensures supported == old(supported)[name := value]
      ensures IsSupported(name) == Truthy(value)
    {
      supported := supported[name := value];
    }
  }

  datatype StepLookupError = NoStepNamed(name: string) | SeveralStepsNamed(name: string)

  /** Python's truth value of a written value. */
  predicate Truthy(v: Unwrapped)
  {
    match v
    case Num(n) => n != 0
    case Flag(b) => b
  }

  /**
   * Loading records, in order, into the functions `fs`: a record that builds is filed under
   * its name and replaces any function of that name; the first record that does not build
   * stops the load with its error, and the functions filed before it stay.
   */
  function Loaded(fs: Functions, recs: seq<FunctionRecord>): (r: (Functions, Option<FunctionError>))
    ensures fs.Keys <= r.0.Keys
    ensures NamedByKey(fs) ==> NamedByKey(r.0)
    ensures r.1.Some? ==> exists j | 0 <= j < |recs| :: BuildFunction(recs[j]) == Err(r.1.value)
    decreases |recs|
  {
    if recs == [] then (fs, None)
    else
      var b := BuildFunction(recs[0]);
      if b.Err? then (fs, Some(b.error))
      else
        var r := Loaded(fs[b.value.name := b.value], recs[1..]);
        assert r.1.Some? ==> exists j | 1 <= j < |recs| :: BuildFunction(recs[j]) == Err(r.1.value) by {
          if r.1.Some? {
            var j :| 0 <= j < |recs[1..]| && BuildFunction(recs[1..][j]) == Err(r.1.value);
            assert recs[1..][j] == recs[j + 1];
          }
        }
        r
  }

  /** A load has no error exactly when every record builds. */
  lemma {:induction false} LoadedAllBuild(fs: Functions, recs: seq<FunctionRecord>)
    ensures Loaded(fs, recs).1.None? <==> forall i | 0 <= i < |recs| :: BuildFunction(recs[i]).Ok?
    decreases |recs|
  {
    if recs != [] && BuildFunction(recs[0]).Ok? {
      var b := BuildFunction(recs[0]).value;
      LoadedAllBuild(fs[b.name := b], recs[1..]);
      assert forall i | 1 <= i < |recs| :: recs[1..][i - 1] == recs[i];
    }
  }

  /**
   * The first record that does not build decides the load: its error, and the functions
   * the records before it leave.
   */
  lemma {:induction false} LoadedStops(fs: Functions, recs: seq<FunctionRecord>, j: int)
    requires 0 <= j < |recs| && BuildFunction(recs[j]).Err?
    requires forall i | 0 <= i < j :: BuildFunction(recs[i]).Ok?
    ensures Loaded(fs, recs[..j]).1.None?
    ensures Loaded(fs, recs) == (Loaded(fs, recs[..j]).0, Some(BuildFunction(recs[j]).error))
    decreases j
  {
    if j > 0 {
      var b := BuildFunction(recs[0]).value;
      assert recs[..j][0] == recs[0];
      assert recs[..j][1..] == recs[1..][..j - 1];
      LoadedStops(fs[b.name := b], recs[1..], j - 1);
    }
  }

  /** No record after position i builds a function of the same name as record i. */
  predicate LastNamed(recs: seq<FunctionRecord>, i: int)
    requires 0 <= i < |recs| && BuildFunction(recs[i]).Ok?
  {
    forall k | i < k < |recs| && BuildFunction(recs[k]).Ok? :: BuildFunction(recs[k]).value.name != BuildFunction(recs[i]).value.name
  }

  /** Some record builds a function named `name`. */
  predicate SomeRecordNamed(recs: seq<FunctionRecord>, name: string)
  {
    exists i | 0 <= i < |recs| :: BuildFunction(recs[i]).Ok? && BuildFunction(recs[i]).value.name == name
  }

  /** A load without error files the old names and the records' names, and no others. */
  lemma {:induction false} LoadedKeys(fs: Functions, recs: seq<FunctionRecord>)
    requires Loaded(fs, recs).1.None?
    ensures forall n :: n in Loaded(fs, recs).0 <==> n in fs || SomeRecordNamed(recs, n)
    decreases |recs|
  {
    if recs != [] {
      var b := BuildFunction(recs[0]).value;
      var tail := recs[1..];
      LoadedKeys(fs[b.name := b], tail);
      forall n
        ensures SomeRecordNamed(recs, n) <==> n == b.name || SomeRecordNamed(tail, n)
      {
        if SomeRecordNamed(tail, n) {
          var i :| 0 <= i < |tail| && BuildFunction(tail[i]).Ok? && BuildFunction(tail[i]).value.name == n;
          assert recs[i + 1] == tail[i];
        }
        if SomeRecordNamed(recs, n) && n != b.name {
          var i :| 0 <= i < |recs| && BuildFunction(recs[i]).Ok? && BuildFunction(recs[i]).value.name == n;
          assert tail[i - 1] == recs[i];
        }
      }
    }
  }

  /**
   * After a load without error, a record's name holds the function built from the last
   * record of that name, as a dictionary update leaves it.
   */
  lemma {:induction false} LoadedLastWins(fs: Functions, recs: seq<FunctionRecord>)
    requires Loaded(fs, recs).1.None?
    ensures forall i | 0 <= i < |recs| && BuildFunction(recs[i]).Ok? && LastNamed(recs, i) ::
              var f := BuildFunction(recs[i]).value;
              f.name in Loaded(fs, recs).0 && Loaded(fs, recs).0[f.name] == f
    decreases |recs|
  {
    if recs != [] {
      var b := BuildFunction(recs[0]).value;
      var fs' := fs[b.name := b];
      var tail := recs[1..];
      LoadedLastWins(fs', tail);
      forall i | 0 <= i < |recs| && BuildFunction(recs[i]).Ok? && LastNamed(recs, i)
        ensures var f := BuildFunction(recs[i]).value;
                f.name in Loaded(fs, recs).0 && Loaded(fs, recs).0[f.name] == f
      {
        if i == 0 {
          LastFirstKept(fs, recs);
        } else {
          LastNamedTail(recs, i);
        }
      }
    }
  }

  /** A first record no later record renames is kept by the rest of the load. */
  lemma LastFirstKept(fs: Functions, recs: seq<FunctionRecord>)
    requires |recs| > 0 && BuildFunction(recs[0]).Ok? && LastNamed(recs, 0)
    requires Loaded(fs, recs).1.None?
    ensures var b := BuildFunction(recs[0]).value;
            b.name in Loaded(fs, recs).0 && Loaded(fs, recs).0[b.name] == b
  {
    var b := BuildFunction(recs[0]).value;
    var tail := recs[1..];
    LoadedUntouched(fs[b.name := b], tail);
    forall k | 0 <= k < |tail| && BuildFunction(tail[k]).Ok?
      ensures BuildFunction(tail[k]).value.name != b.name
    {
      assert tail[k] == recs[k + 1];
    }
  }

  /** Being the last of its name carries over to the records after the first. */
  lemma LastNamedTail(recs: seq<FunctionRecord>, i: int)
    requires 0 < i < |recs| && BuildFunction(recs[i]).Ok? && LastNamed(recs, i)
    ensures recs[1..][i - 1] == recs[i] && LastNamed(recs[1..], i - 1)
  {
    var tail := recs[1..];
    forall k | i - 1 < k < |tail| && BuildFunction(tail[k]).Ok?
      ensures BuildFunction(tail[k]).value.name != BuildFunction(tail[i - 1]).value.name
    {
      assert tail[k] == recs[k + 1];
    }
  }

  /** A load without error keeps every function no record names. */
  lemma {:induction false} LoadedUntouched(fs: Functions, recs: seq<FunctionRecord>)
    requires Loaded(fs, recs).1.None?
    ensures forall n | n in fs && !SomeRecordNamed(recs, n) :: Loaded(fs, recs).0[n] == fs[n]
    decreases |recs|
  {
    if recs != [] {
      var b := BuildFunction(recs[0]).value;
      var tail := recs[1..];
      LoadedUntouched(fs[b.name := b], tail);
      forall n | n in fs && !SomeRecordNamed(recs, n)
        ensures Loaded(fs, recs).0[n] == fs[n]
      {
        assert BuildFunction(recs[0]).Ok? && BuildFunction(recs[0]).value.name == b.name;
        forall k | 0 <= k < |tail| && BuildFunction(tail[k]).Ok?
          ensures BuildFunction(tail[k]).value.name != n
        {
          assert tail[k] == recs[k + 1];
        }
      }
    }
  }

  /** The records before position j all build, and each is filed under its name. */
  predicate LoadedBefore(recs: seq<FunctionRecord>, j: int, fs: Functions)
    requires j <= |recs|
  {
    forall i | 0 <= i < j :: BuildFunction(recs[i]).Ok? && BuildFunction(recs[i]).value.name in fs
  }

  lemma SingletonSet<T>(s: set<T>, x: T)
    requires x in s && |s| == 1
    ensures s == {x}
  {
    if y :| y in s && y != x {
      assert {x, y} <= s;
      assert |{x, y}| == 2;
      CardMono({x, y}, s);
    }
  }

  lemma CardMono<T>(a: set<T>, b: set<T>)
    requires a <= b
    ensures |a| <= |b|
  {
    assert b == a + (b - a);
  }

  /** The steps of the functions named in `names`. */
  function StepsOf(fs: Functions, names: set<string>): set<IndexedStep>
  {
    set f, i | f in names && f in fs && 0 <= i < |fs[f].steps| :: IndexedStep(fs[f], i)
  }

  /** The first j steps of one function. */
  function StepsBelow(def: FunctionDefinition, j: int): set<IndexedStep>
  {
    set i | 0 <= i < j && i < |def.steps| :: IndexedStep(def, i)
  }

  lemma StepsOfStep(fs: Functions, names: set<string>, f: string)
    requires f in fs && f !in names
    ensures StepsOf(fs, names + {f}) == StepsOf(fs, names) + StepsBelow(fs[f], |fs[f].steps|)
  {
  }

  /** `idx` lists each step of `seen` once, under its name, and nothing else. */
  predicate PartialIndex(idx: map<string, seq<IndexedStep>>, seen: set<IndexedStep>)
  {
    && (forall x | x in seen :: x.InRange())
    && (forall n | n in idx :: idx[n] != [] && NoDuplicates(idx[n]))
    && (forall n, x | n in idx && x in idx[n] :: x in seen && x.Step().name == n)
    && (forall x | x in seen :: x.Step().name in idx && x in idx[x.Step().name])
  }

  lemma StepsOfFresh(fs: Functions, done: set<string>, f: string)
    requires NamedByKey(fs) && f in fs && f !in done
    ensures forall j | 0 <= j < |fs[f].steps| :: IndexedStep(fs[f], j) !in StepsOf(fs, done)
  {
  }

  /** `idx` with step x appended under its name. */
  function Insert(idx: map<string, seq<IndexedStep>>, x: IndexedStep): map<string, seq<IndexedStep>>
    requires x.InRange()
  {
    var n := x.Step().name;
    if n in idx then idx[n := idx[n] + [x]] else idx[n := [x]]
  }

  lemma IndexInsert(idx: map<string, seq<IndexedStep>>, seen: set<IndexedStep>, x: IndexedStep)
    requires PartialIndex(idx, seen) && x.InRange() && x !in seen
    ensures PartialIndex(Insert(idx, x), seen + {x})
  {
    var n := x.Step().name;
    var idx' := Insert(idx, x);
    if n in idx {
      var s := idx[n] + [x];
      forall i, j | 0 <= i < j < |s| ensures s[i] != s[j] {
        if j == |s| - 1 {
          assert s[i] in idx[n];
        }
      }
    }
  }

  lemma PartialIndexComplete(fs: Functions, idx: map<string, seq<IndexedStep>>)
    requires PartialIndex(idx, StepsOf(fs, fs.Keys))
    ensures IndexMatches(fs, idx)
  {
    assert StepsOf(fs, fs.Keys) == AllSteps(fs);
    forall n, x | n in idx && x in idx[n] ensures x in StepsNamed(fs, n) {
      assert x in StepsOf(fs, fs.Keys);
      var f :| f in fs && fs[f] == x.owner && x.position < |fs[f].steps|;
      assert x == IndexedStep(fs[f], x.position);
    }
  }
}
