/**
 * The function-test check of the MESA-ESS tests. A function test is a JSON payload that
 * names a MESA-ESS function and gives a value for some of the function's steps; it is
 * valid when it covers every Mandatory step of the function and every point it gives
 * names a step of that function.
 */
module FunctionTest {
  import opened Wrappers
  import opened FunctionDefs

  /** A JSON value of the payload; the check only looks at the payload's keys. */
  datatype Json =
    | JNull
    | JBool(b: bool)
    | JNumber(n: int)
    | JText(text: string)
    | JList(items: seq<Json>)
    | JObject(fields: map<string, Json>)

  type Payload = map<string, Json>

  /** The payload keys that describe the test rather than give a step's value. */
  const NonPoints: set<string> := {"name", "function_id", "function_name"}

  /** A loaded function test: the whole payload, its descriptive entries, and its points. */
  datatype FunctionTest = FunctionTest(
    ftest: Payload,
    functionId: Option<Json>,
    functionName: Option<Json>,
    name: Option<Json>,
    points: Payload)

  /** `dict.get(key, None)`. */
  function Get(p: Payload, key: string): (r: Option<Json>)
    ensures r.Some? <==> key in p
    ensures r.Some? ==> r.value == p[key]
  {
    if key in p then Some(p[key]) else None
  }

  /** The points of a payload: every entry except the three descriptive keys. */
  function PointsOf(ftest: Payload): (r: Payload)
    ensures r.Keys <= ftest.Keys && r.Keys !! NonPoints
    ensures forall k | k in ftest && k !in NonPoints :: k in r && r[k] == ftest[k]
  {
    map k | k in ftest && k !in NonPoints :: ftest[k]
  }

  /** A function test over an already decoded payload. */
  function Load(ftest: Payload): (t: FunctionTest)
    ensures t.ftest == ftest && t.points == PointsOf(ftest)
    ensures t.functionId.Some? <==> "function_id" in ftest
    ensures t.functionId.Some? ==> t.functionId.value == ftest["function_id"]
  {
    FunctionTest(ftest, Get(ftest, "function_id"), Get(ftest, "function_name"), Get(ftest, "name"), PointsOf(ftest))
  }

  /** Filtering the points again removes nothing more: a payload of points is its own points. */
  lemma PointsOfIdempotent(ftest: Payload)
    ensures PointsOf(PointsOf(ftest)) == PointsOf(ftest)
  {
    var p := PointsOf(ftest);
    assert PointsOf(p).Keys == p.Keys;
  }

  /** Step `i` of `d` is Mandatory. */
  predicate MandatoryAt(d: FunctionDefinition, i: int)
  {
    0 <= i < |d.steps| && d.steps[i].optional == MandatoryStep
  }

  /** The names of the Mandatory steps among `steps`, in step order. */
  function MandatoryNames(steps: seq<StepDefinition>): (r: seq<string>)
    ensures |r| <= |steps|
    ensures forall n :: n in r <==> exists i | 0 <= i < |steps| :: steps[i].optional == MandatoryStep && steps[i].name == n
  {
    if steps == [] then []
    else
      var rest := MandatoryNames(steps[1..]);
      assert forall n | n in rest :: exists i | 0 <= i < |steps| :: steps[i].optional == MandatoryStep && steps[i].name == n by {
        forall n | n in rest
          ensures exists i | 0 <= i < |steps| :: steps[i].optional == MandatoryStep && steps[i].name == n
        {
          var j :| 0 <= j < |steps[1..]| && steps[1..][j].optional == MandatoryStep && steps[1..][j].name == n;
          assert steps[j + 1] == steps[1..][j];
        }
      }
      assert forall i | 1 <= i < |steps| :: steps[i] == steps[1..][i - 1];
      (if steps[0].optional == MandatoryStep then [steps[0].name] else []) + rest
  }

  /** The Mandatory names of two step lists one after the other are those of the first, then those of the second. */
  lemma {:induction false} MandatoryNamesConcat(a: seq<StepDefinition>, b: seq<StepDefinition>)
    ensures MandatoryNames(a + b) == MandatoryNames(a) + MandatoryNames(b)
  {
    if a == [] {
      assert a + b == b;
    } else {
      assert (a + b)[1..] == a[1..] + b;
      MandatoryNamesConcat(a[1..], b);
    }
  }

  /** `get_mandatory_steps`: the names of the definition's Mandatory steps, in definition order. */
  function GetMandatorySteps(d: FunctionDefinition): (r: seq<string>)
    ensures forall n :: n in r <==> exists i | MandatoryAt(d, i) :: d.steps[i].name == n
  {
    MandatoryNames(d.steps)
  }

  /** Every Mandatory step of `d` is named by a key of the payload. */
  ghost predicate CoversMandatory(ftest: Payload, d: FunctionDefinition)
  {
    forall i | MandatoryAt(d, i) :: d.steps[i].name in ftest
  }

  /** Every point of the payload names some step of `d`. */
  ghost predicate PointsNameSteps(points: Payload, d: FunctionDefinition)
  {
    forall k | k in points :: exists i | 0 <= i < |d.steps| :: d.steps[i].name == k
  }

  datatype TestError =
    | DefinitionNotFound
    | MissingMandatorySteps
    | PointsDoNotResolve
    | ValidationError(cause: TestError)

  /**
   * `has_mandatory_steps`: the definition is `fdef` when given, else `lookup`, the definition
   * the function definitions give for the payload's function id. Ok(true) exactly when there
   * is a definition and the payload has a key for each of its Mandatory steps.
   */
  function HasMandatorySteps(t: FunctionTest, fdef: Option<FunctionDefinition>, lookup: Option<FunctionDefinition>)
    : (r: Result<bool, TestError>)
    ensures fdef.None? && lookup.None? ==> r == Err(DefinitionNotFound)
    ensures fdef.Some? ==> (r == Ok(true) <==> CoversMandatory(t.ftest, fdef.value))
    ensures fdef.None? && lookup.Some? ==> (r == Ok(true) <==> CoversMandatory(t.ftest, lookup.value))
    ensures r.Ok? ==> r.value
    ensures r.Err? && (fdef.Some? || lookup.Some?) ==> r.error == MissingMandatorySteps
  {
    var fd := if fdef.Some? then fdef else lookup;
    if fd.None? then Err(DefinitionNotFound)
    else
      var steps := GetMandatorySteps(fd.value);
      if forall n | n in steps :: n in t.ftest then Ok(true)
      else Err(MissingMandatorySteps)
  }

  /** The names of the steps of `d`, in step order. */
  function StepNames(d: FunctionDefinition): (r: seq<string>)
    ensures |r| == |d.steps| && forall i | 0 <= i < |d.steps| :: r[i] == d.steps[i].name
  {
    seq(|d.steps|, i requires 0 <= i < |d.steps| => d.steps[i].name)
  }

  /** `points_resolve`: Ok(true) exactly when every point of the test names a step of `d`. */
  function PointsResolve(t: FunctionTest, d: FunctionDefinition): (r: Result<bool, TestError>)
    ensures r == Ok(true) <==> PointsNameSteps(t.points, d)
    ensures r.Err? ==> r.error == PointsDoNotResolve
  {
    var names := StepNames(d);
    if forall k | k in t.points :: k in names then Ok(true)
    else Err(PointsDoNotResolve)
  }

  /**
   * `is_valid`: a missing definition is reported as such; a failure of either check is
   * reported wrapped as a validation error, the Mandatory-step check first.
   */
  function IsValid(t: FunctionTest, lookup: Option<FunctionDefinition>): (r: Result<bool, TestError>)
    ensures r == Ok(true) <==> lookup.Some? && CoversMandatory(t.ftest, lookup.value) && PointsNameSteps(t.points, lookup.value)
    ensures r.Ok? ==> r.value
    ensures lookup.None? ==> r == Err(DefinitionNotFound)
    ensures lookup.Some? && !CoversMandatory(t.ftest, lookup.value) ==> r == Err(ValidationError(MissingMandatorySteps))
    ensures lookup.Some? && CoversMandatory(t.ftest, lookup.value) && !PointsNameSteps(t.points, lookup.value)
            ==> r == Err(ValidationError(PointsDoNotResolve))
  {
    if lookup.None? then Err(DefinitionNotFound)
    else
      var hasSteps := HasMandatorySteps(t, lookup, lookup);
      if hasSteps.Err? then Err(ValidationError(hasSteps.error))
      else
        var resolves := PointsResolve(t, lookup.value);
        if resolves.Err? then Err(ValidationError(resolves.error))
        else Ok(true)
  }

  /** A valid test's keys include every Mandatory step name, and its points are all step names. */
  lemma ValidTestKeys(ftest: Payload, d: FunctionDefinition)
    requires IsValid(Load(ftest), Some(d)) == Ok(true)
    ensures forall n | n in GetMandatorySteps(d) :: n in ftest
    ensures forall k | k in ftest && k !in NonPoints :: k in StepNames(d)
  {
    var t := Load(ftest);
    forall k | k in ftest && k !in NonPoints
      ensures k in StepNames(d)
    {
      assert k in t.points;
      var i :| 0 <= i < |d.steps| && d.steps[i].name == k;
      assert StepNames(d)[i] == k;
    }
  }

  /** The payload holding exactly the function's Mandatory steps, each with a null value. */
  function MandatoryPayload(d: FunctionDefinition): (p: Payload)
    ensures p.Keys == set n | n in GetMandatorySteps(d)
  {
    map n | n in GetMandatorySteps(d) :: JNull
  }

  /** Every function definition has a valid test: the one giving just its Mandatory steps. */
  lemma MandatoryPayloadValid(d: FunctionDefinition)
    ensures IsValid(Load(MandatoryPayload(d)), Some(d)) == Ok(true)
  {
    var p := MandatoryPayload(d);
    var t := Load(p);
    forall i | MandatoryAt(d, i)
      ensures d.steps[i].name in p
    {
      assert d.steps[i].name in GetMandatorySteps(d);
    }
    forall k | k in t.points
      ensures exists i | 0 <= i < |d.steps| :: d.steps[i].name == k
    {
      assert k in GetMandatorySteps(d);
    }
  }

  /** Giving a value for one more step of the function keeps a valid test valid. */
  lemma AddStepKeepsValid(ftest: Payload, d: FunctionDefinition, i: nat, v: Json)
    requires IsValid(Load(ftest), Some(d)) == Ok(true)
    requires i < |d.steps|
    ensures IsValid(Load(ftest[d.steps[i].name := v]), Some(d)) == Ok(true)
  {
    var ftest' := ftest[d.steps[i].name := v];
    var t, t' := Load(ftest), Load(ftest');
    forall k | k in t'.points
      ensures exists j | 0 <= j < |d.steps| :: d.steps[j].name == k
    {
      if k != d.steps[i].name {
        assert k in t.points;
      }
    }
  }

  /** Leaving out a Mandatory step makes a test fail the Mandatory-step check, whatever else it holds. */
  lemma DropMandatoryInvalid(ftest: Payload, d: FunctionDefinition, i: int)
    requires MandatoryAt(d, i)
    ensures IsValid(Load(ftest - {d.steps[i].name}), Some(d)) == Err(ValidationError(MissingMandatorySteps))
  {
    assert !CoversMandatory(ftest - {d.steps[i].name}, d);
  }
}
