/**
 * A MESA-ESS Function as the outstation assembles it from individual point writes: its
 * received Steps, the PointArray that collects the cells of an array point, and the
 * SelectorBlock that collects the points of a selector block.
 */
module Assembly {
  import opened Wrappers
  import opened Points
  import opened FunctionDefs

  /** What a received Step holds: the point value written, or (for an array step) the array. */
  datatype StepValue = Received(pv: PointValue) | ArrayValue(pointArray: PointArray?)

  datatype Step = Step(definition: StepDefinition, value: StepValue)

  datatype AssemblyError =
    | DuplicateStep(stepNumber: int)
    | OutOfOrder(stepNumber: int, lastNumber: int)
    | MissingMandatory(missing: int)

  /** The step numbers received so far. */
  function NumbersOf(steps: seq<Step>): set<int>
  {
    set s | s in steps :: s.definition.stepNumber
  }

  /** The step names received so far. */
  function NamesOf(steps: seq<Step>): set<string>
  {
    set s | s in steps :: s.definition.name
  }

  /** The numbers of the Mandatory steps of `sds` not among `received`, in definition order. */
  function MissingNumbers(sds: seq<StepDefinition>, received: set<int>): (r: seq<int>)
    ensures forall n | n in r :: n !in received
    ensures forall n | n in r :: exists i | 0 <= i < |sds| :: sds[i].optional == MandatoryStep && sds[i].stepNumber == n
    ensures forall i | 0 <= i < |sds| && sds[i].optional == MandatoryStep && sds[i].stepNumber !in received ::
              sds[i].stepNumber in r
  {
    if sds == [] then []
    else
      var rest := MissingNumbers(sds[1..], received);
      assert forall n | n in rest :: exists i | 0 <= i < |sds| :: sds[i].optional == MandatoryStep && sds[i].stepNumber == n by {
        forall n | n in rest ensures exists i | 0 <= i < |sds| :: sds[i].optional == MandatoryStep && sds[i].stepNumber == n {
          var k :| 0 <= k < |sds[1..]| && sds[1..][k].optional == MandatoryStep && sds[1..][k].stepNumber == n;
          assert sds[k + 1] == sds[1..][k];
        }
      }
      assert forall i | 1 <= i < |sds| :: sds[i] == sds[1..][i - 1];
      if sds[0].optional == MandatoryStep && sds[0].stepNumber !in received then [sds[0].stepNumber] + rest
      else rest
  }

  /** A Function is complete when every Mandatory step's name has been received. */
  predicate IsComplete(def: FunctionDefinition, steps: seq<Step>)
  {
    forall i | 0 <= i < |def.steps| && def.steps[i].optional == MandatoryStep :: def.steps[i].name in NamesOf(steps)
  }

  /** In `def`, two steps share a number exactly when they share a name. */
  predicate NumbersMatchNames(def: FunctionDefinition)
  {
    forall i, j | 0 <= i < |def.steps| && 0 <= j < |def.steps| ::
      (def.steps[i].stepNumber == def.steps[j].stepNumber <==> def.steps[i].name == def.steps[j].name)
  }

  /**
   * Completeness by names and the missing-step check by numbers agree when the received
   * steps come from the definition and numbers and names correspond one to one.
   */
  lemma {:induction false} CompletenessAgrees(def: FunctionDefinition, steps: seq<Step>)
    requires NumbersMatchNames(def)
    requires forall s | s in steps :: s.definition in def.steps
    ensures IsComplete(def, steps) <==> MissingNumbers(def.steps, NumbersOf(steps)) == []
  {
    NoneMissingIff(def.steps, NumbersOf(steps));
    if IsComplete(def, steps) {
      forall i | 0 <= i < |def.steps| && def.steps[i].optional == MandatoryStep
        ensures def.steps[i].stepNumber in NumbersOf(steps)
      {
        var s :| s in steps && s.definition.name == def.steps[i].name;
        var j :| 0 <= j < |def.steps| && def.steps[j] == s.definition;
      }
    }
    if MissingNumbers(def.steps, NumbersOf(steps)) == [] {
      forall i | 0 <= i < |def.steps| && def.steps[i].optional == MandatoryStep
        ensures def.steps[i].name in NamesOf(steps)
      {
        var s :| s in steps && s.definition.stepNumber == def.steps[i].stepNumber;
        var j :| 0 <= j < |def.steps| && def.steps[j] == s.definition;
        assert s.definition.name in NamesOf(steps);
      }
    }
  }

  /** No Mandatory step number is missing exactly when every Mandatory step's number was received. */
  lemma {:induction false} NoneMissingIff(sds: seq<StepDefinition>, received: set<int>)
    ensures MissingNumbers(sds, received) == [] <==>
              forall i | 0 <= i < |sds| && sds[i].optional == MandatoryStep :: sds[i].stepNumber in received
  {
    if sds != [] {
      NoneMissingIff(sds[1..], received);
      assert forall i | 1 <= i < |sds| :: sds[i] == sds[1..][i - 1];
    }
  }

  /** Two Mandatory steps with one number and two names. */
  function TwoNamesOneNumber(): FunctionDefinition
  {
    FunctionDefinition("f", "f", None, None,
      [StepDefinition(1, "a", MandatoryStep, [], None, None),
       StepDefinition(1, "b", MandatoryStep, [], None, None)])
  }

  /** Without that correspondence the two checks differ: no number is missing, yet step b was never received. */
  lemma CompletenessDiverges(pv: PointValue)
    ensures var def := TwoNamesOneNumber();
            var steps := [Step(def.steps[0], Received(pv))];
            MissingNumbers(def.steps, NumbersOf(steps)) == [] && !IsComplete(def, steps)
  {
    var def := TwoNamesOneNumber();
    var steps := [Step(def.steps[0], Received(pv))];
    assert NumbersOf(steps) == {1};
    assert NamesOf(steps) == {"a"};
    assert def.steps[1].name !in NamesOf(steps);
    NoneMissingIff(def.steps, {1});
  }

  /** The first of `missing` below `stepNumber`: a step may not skip a Mandatory step numbered before it. */
  function FirstMissingBelow(missing: seq<int>, stepNumber: int): (r: Option<int>)
    ensures r.None? <==> forall m | m in missing :: stepNumber <= m
    ensures r.Some? ==> r.value in missing && r.value < stepNumber
  {
    if missing == [] then None
    else if stepNumber > missing[0] then assert missing[0] in missing; Some(missing[0])
    else
      assert missing == [missing[0]] + missing[1..];
      assert forall m | m in missing[1..] :: m in missing;
      FirstMissingBelow(missing[1..], stepNumber)
  }

  /**
   * The number of the first Mandatory step of `sds`, in definition order, that is not among
   * `received` and is numbered below `n`; None when there is none.
   */
  function MissingMandatoryBelow(sds: seq<StepDefinition>, received: set<int>, n: int): Option<int>
  {
    if sds == [] then None
    else if sds[0].optional == MandatoryStep && sds[0].stepNumber !in received && sds[0].stepNumber < n then Some(sds[0].stepNumber)
    else MissingMandatoryBelow(sds[1..], received, n)
  }

  /** Scanning the definition for a missing Mandatory step below `n` finds what the agent's check of the missing list finds. */
  lemma {:induction false} MissingMandatoryBelowIs(sds: seq<StepDefinition>, received: set<int>, n: int)
    ensures MissingMandatoryBelow(sds, received, n) == FirstMissingBelow(MissingNumbers(sds, received), n)
  {
    if sds != [] {
      MissingMandatoryBelowIs(sds[1..], received, n);
    }
  }

  /**
   * The outcome of adding a point of step `stepDef` to a Function of definition `def` that has
   * received `steps` and is `complete` or not: the new Step or the error, and the steps after.
   * The first step is always taken. A step number equal to the last one is an error unless the
   * point is an array point, whose later cells update the last Step. A smaller number starts the
   * Function over when it is complete and is an error otherwise. A step may not follow a
   * Mandatory step with a smaller number that is missing.
   */
  function AddedStep(def: FunctionDefinition, steps: seq<Step>, complete: bool, stepDef: StepDefinition,
                     pv: PointValue, arr: PointArray?): (r: (Result<Step, AssemblyError>, seq<Step>))
    ensures r.0.Ok? ==> r.1 != [] && r.1[|r.1| - 1] == r.0.value
    ensures r.0.Err? ==> r.1 == steps || r.1 == []
  {
    var n := stepDef.stepNumber;
    var added := Step(stepDef, Received(pv));
    if steps == [] then (Ok(added), [added])
    else
      var prior := steps[|steps| - 1];
      var last := prior.definition.stepNumber;
      if n == last then
        if pv.pointDef.IsArray() then
          var updated := Step(prior.definition, ArrayValue(arr));
          (Ok(updated), steps[|steps| - 1 := updated])
        else (Err(DuplicateStep(n)), steps)
      else if n < last then
        if !complete then (Err(OutOfOrder(n, last)), steps)
        else
          var below := MissingMandatoryBelow(def.steps, {}, n);
          if below.Some? then (Err(MissingMandatory(below.value)), []) else (Ok(added), [added])
      else
        var below := MissingMandatoryBelow(def.steps, NumbersOf(steps), n);
        if below.Some? then (Err(MissingMandatory(below.value)), steps) else (Ok(added), steps + [added])
  }

  /** The step numbers of `def` rise strictly in definition order. */
  predicate Increasing(def: FunctionDefinition)
  {
    forall i, j | 0 <= i < j < |def.steps| :: def.steps[i].stepNumber < def.steps[j].stepNumber
  }

  /** `steps` were received for the first `k` steps of `def`, in order. */
  predicate ReceivedPrefix(def: FunctionDefinition, steps: seq<Step>, k: int)
  {
    0 <= k <= |def.steps| && |steps| == k && forall i | 0 <= i < k :: steps[i].definition == def.steps[i]
  }

  /** The numbers of the Mandatory steps missing after a prefix all belong to the steps after it. */
  lemma MissingAfterPrefix(def: FunctionDefinition, steps: seq<Step>, k: int, m: int)
    requires Increasing(def) && ReceivedPrefix(def, steps, k)
    requires m in MissingNumbers(def.steps, NumbersOf(steps))
    ensures exists i | k <= i < |def.steps| :: def.steps[i].stepNumber == m
  {
    forall i | 0 <= i < k ensures def.steps[i].stepNumber in NumbersOf(steps) {
      assert steps[i] in steps;
    }
    var i :| 0 <= i < |def.steps| && def.steps[i].optional == MandatoryStep && def.steps[i].stepNumber == m;
    assert k <= i;
  }

  /** Steps sent in definition order are each accepted and appended, whatever the Function's completeness. */
  lemma InOrderAccepted(def: FunctionDefinition, steps: seq<Step>, complete: bool, k: int, pv: PointValue, arr: PointArray?)
    requires Increasing(def) && ReceivedPrefix(def, steps, k) && k < |def.steps|
    ensures var s := Step(def.steps[k], Received(pv));
            AddedStep(def, steps, complete, def.steps[k], pv, arr) == (Ok(s), steps + [s])
  {
    MissingMandatoryBelowIs(def.steps, NumbersOf(steps), def.steps[k].stepNumber);
    if k > 0 {
      assert steps[k - 1].definition.stepNumber < def.steps[k].stepNumber;
      forall m | m in MissingNumbers(def.steps, NumbersOf(steps))
        ensures def.steps[k].stepNumber <= m
      {
        MissingAfterPrefix(def, steps, k, m);
      }
    } else {
      assert steps == [] && steps + [Step(def.steps[k], Received(pv))] == [Step(def.steps[k], Received(pv))];
    }
  }

  /**
   * Skipping a Mandatory step is refused: after the first `k` steps, with step `k` Mandatory,
   * a later step is rejected as missing a Mandatory step and the Function is unchanged.
   */
  lemma SkipMandatoryRejected(def: FunctionDefinition, steps: seq<Step>, complete: bool, k: int, j: int,
                              pv: PointValue, arr: PointArray?)
    requires Increasing(def) && ReceivedPrefix(def, steps, k) && 0 < k < j < |def.steps|
    requires def.steps[k].optional == MandatoryStep
    ensures var r := AddedStep(def, steps, complete, def.steps[j], pv, arr);
            r.0.Err? && r.0.error.MissingMandatory? && r.1 == steps
  {
    var n := def.steps[k].stepNumber;
    assert steps[k - 1].definition.stepNumber < def.steps[j].stepNumber;
    assert n !in NumbersOf(steps) by {
      forall s | s in steps ensures s.definition.stepNumber != n {
        var i :| 0 <= i < |steps| && steps[i] == s;
      }
    }
    assert n in MissingNumbers(def.steps, NumbersOf(steps));
    MissingMandatoryBelowIs(def.steps, NumbersOf(steps), def.steps[j].stepNumber);
  }

  /** A MESA-ESS Function being received. */
  class Function {
    const definition: FunctionDefinition
    var steps: seq<Step>
    var complete: bool

    /** The Mandatory step numbers not yet received. */
    function Missing(): seq<int>
      reads this
    {
      MissingNumbers(definition.steps, NumbersOf(steps))
    }

    /** `complete` records that some steps were received and none Mandatory is missing. */
    ghost predicate Valid()
      reads this
    {
      complete <==> (steps != [] && Missing() == [])
    }

    constructor (definition: FunctionDefinition)
      ensures Valid() && this.definition == definition && steps == [] && !complete
    {
      this.definition := definition;
      steps := [];
      complete := false;
    }

    /** Whether a Step was received for every Mandatory step of the definition: the first missing one answers no. */
    method CheckComplete() returns (r: bool)
      ensures r <==> IsComplete(definition, steps)
    {
      var got := steps;
      var received := seq(|got|, k requires 0 <= k < |got| => got[k].definition.name);
      forall s | s in steps
        ensures s.definition.name in received
      {
        var k :| 0 <= k < |steps| && steps[k] == s;
        assert received[k] == s.definition.name;
      }
      forall k | 0 <= k < |steps|
        ensures received[k] in NamesOf(steps)
      {
        assert steps[k] in steps;
      }
      var i := 0;
      while i < |definition.steps|
        invariant 0 <= i <= |definition.steps|
        invariant forall j | 0 <= j < i && definition.steps[j].optional == MandatoryStep ::
                    definition.steps[j].name in NamesOf(steps)
      {
        var stepDef := definition.steps[i];
        if stepDef.optional == MandatoryStep && stepDef.name !in received {
          return false;
        }
        i := i + 1;
      }
      return true;
    }

    /**
     * Adds a received point as a Step. A step number equal to the last one is an error unless
     * the point is an array point, whose later cells update the last Step; a smaller number
     * starts the Function over when it is complete and is an error otherwise; a step may not
     * follow a Mandatory step with a smaller number that is missing.
     */
    method AddPointValue(stepDef: StepDefinition, pv: PointValue, currentArray: PointArray?)
      returns (r: Result<Step, AssemblyError>)
      requires Valid()
      modifies this`steps, this`complete
      ensures Valid()
      ensures (r, steps) == AddedStep(definition, old(steps), old(complete), stepDef, pv, currentArray)
    {
      var stepNumber := stepDef.stepNumber;
      var step: Step;
      if steps == [] {
        step := Step(stepDef, Received(pv));
        steps := [step];
      } else {
        var prior := steps[|steps| - 1];
        var last := prior.definition.stepNumber;
        if stepNumber == last {
          if !pv.pointDef.IsArray() {
            return Err(DuplicateStep(stepNumber));
          }
          step := Step(prior.definition, ArrayValue(currentArray));
          ReplaceLastKeepsNumbers(steps, step);
          steps := steps[|steps| - 1 := step];
        } else if stepNumber < last {
          if !complete {
            return Err(OutOfOrder(stepNumber, last));
          }
          complete := false;
          steps := [];
          assert NumbersOf(steps) == {};
          var below := FirstMissingBelow(Missing(), stepNumber);
          MissingMandatoryBelowIs(definition.steps, {}, stepNumber);
          if below.Some? {
            return Err(MissingMandatory(below.value));
          }
          step := Step(stepDef, Received(pv));
          steps := [step];
        } else {
          var below := FirstMissingBelow(Missing(), stepNumber);
          MissingMandatoryBelowIs(definition.steps, NumbersOf(steps), stepNumber);
          if below.Some? {
            return Err(MissingMandatory(below.value));
          }
          step := Step(stepDef, Received(pv));
          AppendShrinksMissing(definition.steps, steps, step);
          steps := steps + [step];
        }
      }
      if Missing() == [] {
        complete := true;
      }
      return Ok(step);
    }

    /** The number of the last Step received. */
    function LastNumber(): int
      reads this
      requires steps != []
    {
      steps[|steps| - 1].definition.stepNumber
    }
  }

  lemma ReplaceLastKeepsNumbers(steps: seq<Step>, step: Step)
    requires steps != [] && step.definition == steps[|steps| - 1].definition
    ensures NumbersOf(steps[|steps| - 1 := step]) == NumbersOf(steps)
  {
    var steps' := steps[|steps| - 1 := step];
    forall s | s in steps' ensures s.definition.stepNumber in NumbersOf(steps) {
      var i :| 0 <= i < |steps'| && steps'[i] == s;
      if i < |steps| - 1 {
        assert steps[i] == s;
      } else {
        assert steps[|steps| - 1] in steps;
      }
    }
    forall s | s in steps ensures s.definition.stepNumber in NumbersOf(steps') {
      var i :| 0 <= i < |steps| && steps[i] == s;
      if i < |steps| - 1 {
        assert steps'[i] == s;
      } else {
        assert steps'[|steps| - 1] in steps';
      }
    }
  }

  /** Receiving another step never makes a Mandatory step missing. */
  lemma AppendShrinksMissing(sds: seq<StepDefinition>, steps: seq<Step>, step: Step)
    ensures MissingNumbers(sds, NumbersOf(steps)) == [] ==> MissingNumbers(sds, NumbersOf(steps + [step])) == []
  {
    assert NumbersOf(steps) <= NumbersOf(steps + [step]) by {
      forall s | s in steps ensures s in steps + [step] { }
    }
    var after := MissingNumbers(sds, NumbersOf(steps + [step]));
    if after != [] {
      var n := after[0];
      assert n in after;
      var i :| 0 <= i < |sds| && sds[i].optional == MandatoryStep && sds[i].stepNumber == n;
    }
  }

  /** The value of column `col` of a row: the written value, None for a binary command or an absent cell. */
  function CellValue(row: map<int, PointValue>, col: int): Option<int>
  {
    if col in row then row[col].value else None
  }

  /** One row as a dictionary from column name to value; a repeated name keeps its last column. */
  function RowJson(row: map<int, PointValue>, names: seq<string>): (r: map<string, Option<int>>)
    ensures r.Keys == set n | n in names
  {
    if names == [] then map[]
    else RowJson(row, names[..|names| - 1])[names[|names| - 1] := CellValue(row, |names| - 1)]
  }

  /** With distinct names, each name labels the value of its own column. */
  lemma {:induction false} RowJsonLabels(row: map<int, PointValue>, names: seq<string>, col: int)
    requires NoDuplicates(names) && 0 <= col < |names|
    ensures RowJson(row, names)[names[col]] == CellValue(row, col)
  {
    var k := |names| - 1;
    if col < k {
      var init := names[..k];
      assert NoDuplicates(init) by {
        forall i, j | 0 <= i < j < |init| ensures init[i] != init[j] {
          assert init[i] == names[i] && init[j] == names[j];
        }
      }
      assert init[col] == names[col];
      RowJsonLabels(row, init, col);
      assert names[k] != names[col];
    }
  }

  /** The keys of a finite set of rows in ascending order. */
  function Ascending(keys: set<int>): (r: seq<int>)
    ensures forall k :: k in r <==> k in keys
    ensures forall i, j | 0 <= i < j < |r| :: r[i] < r[j]
    decreases |keys|
  {
    if keys == {} then []
    else
      HasMin(keys);
      var m :| m in keys && forall y | y in keys :: m <= y;
      var rest := Ascending(keys - {m});
      AscendingCons(keys, m, rest);
      [m] + rest
  }

  /** Putting the least key in front of the ascending rest gives the ascending whole. */
  lemma AscendingCons(keys: set<int>, m: int, rest: seq<int>)
    requires m in keys && forall y | y in keys :: m <= y
    requires forall k :: k in rest <==> k in keys - {m}
    requires forall i, j | 0 <= i < j < |rest| :: rest[i] < rest[j]
    ensures forall k :: k in [m] + rest <==> k in keys
    ensures forall i, j | 0 <= i < j < |[m] + rest| :: ([m] + rest)[i] < ([m] + rest)[j]
  {
    var r := [m] + rest;
    forall i, j | 0 <= i < j < |r| ensures r[i] < r[j] {
      if i == 0 {
        assert r[j] == rest[j - 1] && rest[j - 1] in rest;
      } else {
        assert r[i] == rest[i - 1] && r[j] == rest[j - 1];
      }
    }
  }

  lemma HasMin(keys: set<int>)
    requires keys != {}
    ensures exists m :: m in keys && forall y | y in keys :: m <= y
  {
    var m := MinOf(keys);
  }

  lemma MinOf(keys: set<int>) returns (m: int)
    requires keys != {}
    ensures m in keys && forall y | y in keys :: m <= y
  {
    var x := Element(keys);
    if keys == {x} {
      m := x;
    } else {
      var m' := MinOf(keys - {x});
      m := if x < m' then x else m';
      forall y | y in keys ensures m <= y {
        if y != x {
          assert y in keys - {x};
        }
      }
    }
  }

  /** The proof-side counterpart of `Wrappers.Pick`, for lemmas, which cannot call a method. */
  lemma Element<T>(s: set<T>) returns (x: T)
    requires s != {}
    ensures x in s
  {
    x :| x in s;
  }

  /** The array as a list of row dictionaries, rows in ascending order, each labelled by `names`. */
  function ArrayJsonWith(points: map<int, map<int, PointValue>>, names: seq<string>): (r: seq<map<string, Option<int>>>)
    ensures |r| == |points|
  {
    var rows := Ascending(points.Keys);
    assert |rows| == |points.Keys| by { AscendingCount(points.Keys, rows); }
    seq(|rows|, i requires 0 <= i < |rows| => RowJson(points[rows[i]], names))
  }

  lemma AscendingCount(keys: set<int>, rows: seq<int>)
    requires forall k :: k in rows <==> k in keys
    requires forall i, j | 0 <= i < j < |rows| :: rows[i] < rows[j]
    ensures |rows| == |keys|
  {
    assert NoDuplicates(rows);
    DistinctCount(rows);
    assert (set x | x in rows) == keys;
  }

  /**
   * The array rows labelled with its columns in their own order: row `p` is the `p`-th
   * smallest row received, and with distinct column names the entry for column `c` is the
   * value written to cell (row, c).
   */
  function ArrayJson(columns: seq<string>, points: map<int, map<int, PointValue>>): (r: seq<map<string, Option<int>>>)
    ensures |r| == |points|
  {
    ArrayJsonWith(points, columns)
  }

  lemma ArrayJsonCells(columns: seq<string>, points: map<int, map<int, PointValue>>, p: int, c: int)
    requires NoDuplicates(columns) && 0 <= p < |points| && 0 <= c < |columns|
    ensures var rows := Ascending(points.Keys);
            |rows| == |points| && rows[p] in points &&
            ArrayJson(columns, points)[p][columns[c]] == CellValue(points[rows[p]], c)
  {
    var rows := Ascending(points.Keys);
    AscendingCount(points.Keys, rows);
    RowJsonLabels(points[rows[p]], columns, c);
  }

  /** The agent's labelling: column `c` is named by the `c`-th name in sorted order. */
  function ArrayJsonAsWritten(columns: seq<string>, points: map<int, map<int, PointValue>>): (r: seq<map<string, Option<int>>>)
    ensures |r| == |points|
  {
    ArrayJsonWith(points, SortStrings(columns))
  }

  /** Code-point order on strings, as Python compares them. */
  predicate StrLe(a: string, b: string)
  {
    a == [] || (b != [] && (a[0] < b[0] || (a[0] == b[0] && StrLe(a[1..], b[1..]))))
  }

  function InsertSorted(x: string, s: seq<string>): (r: seq<string>)
    ensures multiset(r) == multiset(s) + multiset{x}
  {
    if s == [] then [x]
    else if StrLe(x, s[0]) then [x] + s
    else
      assert s == [s[0]] + s[1..];
      [s[0]] + InsertSorted(x, s[1..])
  }

  function SortStrings(s: seq<string>): (r: seq<string>)
    ensures multiset(r) == multiset(s)
  {
    if s == [] then []
    else
      assert s == [s[0]] + s[1..];
      InsertSorted(s[0], SortStrings(s[1..]))
  }

  /** Columns y, x and one value, 7, written to cell (0, 0), which is column y. */
  function UnsortedColumns(): seq<string> { ["y", "x"] }

  function OneCell(pv: PointValue): map<int, map<int, PointValue>>
  {
    map[0 := map[0 := pv]]
  }

  /** The agent reports the value of column y under the name x; the corrected labelling reports it under y. */
  lemma ArrayJsonMislabels(pv: PointValue)
    requires pv.value == Some(7)
    ensures ArrayJsonAsWritten(UnsortedColumns(), OneCell(pv))[0]["x"] == Some(7)
    ensures ArrayJsonAsWritten(UnsortedColumns(), OneCell(pv))[0]["y"] == None
    ensures ArrayJson(UnsortedColumns(), OneCell(pv))[0]["y"] == Some(7)
  {
    var row := OneCell(pv)[0];
    assert SortStrings(UnsortedColumns()) == ["x", "y"] by { assert StrLe("x", "y"); }
    OneCellRow(pv, ["x", "y"]);
    OneCellRow(pv, ["y", "x"]);
    assert ["x", "y"][..1] == ["x"] && ["y", "x"][..1] == ["y"];
    assert RowJson(row, ["x", "y"]) == map["x" := Some(7), "y" := None];
    assert RowJson(row, ["y", "x"]) == map["y" := Some(7), "x" := None];
  }

  /** With a single row, received at row 0, the labelled rows are that row's dictionary. */
  lemma OneCellRow(pv: PointValue, names: seq<string>)
    ensures ArrayJsonWith(OneCell(pv), names)[0] == RowJson(OneCell(pv)[0], names)
  {
    var points := OneCell(pv);
    assert points.Keys == {0};
    var rows := Ascending(points.Keys);
    AscendingCount(points.Keys, rows);
    assert rows[0] in points.Keys;
  }

  /** The cells received so far for an array point. */
  class PointArray {
    /** The definition of the array's head point. */
    const head: PointDefinition
    /** Row, then column, to the value written there. */
    var points: map<int, map<int, PointValue>>

    constructor (head: PointDefinition)
      ensures this.head == head && points == map[]
    {
      this.head := head;
      points := map[];
    }

    /** Whether an index lies in `[head.index, head's last array index]`. */
    predicate ContainsIndex(i: int)
      ensures ContainsIndex(i) <==> head.IsArray() && head.index <= i <= head.ArrayLastIndex().value
    {
      head.ArrayContains(i)
    }

    /** The value at a cell, if one was written. */
    function Cell(row: int, col: int): Option<PointValue>
      reads this
    {
      if row in points && col in points[row] then Some(points[row][col]) else None
    }

    /** Writes only the cell the value's index addresses. */
    method AddPointValue(pv: PointValue)
      requires head.IsArray() && |head.shape.columns| > 0
      modifies this
      ensures var size := |head.shape.columns|;
              Cell(pv.ArrayElement(size), pv.ArrayPointsIndex(size)) == Some(pv)
      ensures var size := |head.shape.columns|;
              forall r, c | (r, c) != (pv.ArrayElement(size), pv.ArrayPointsIndex(size)) :: Cell(r, c) == old(Cell(r, c))
    {
      var size := |head.shape.columns|;
      var i := pv.ArrayElement(size);
      var j := pv.ArrayPointsIndex(size);
      if i !in points {
        points := points[i := map[]];
      }
      points := points[i := points[i][j := pv]];
    }

    function AsJson(): (r: seq<map<string, Option<int>>>)
      reads this
      requires head.IsArray()
      ensures |r| == |points|
    {
      ArrayJson(head.shape.columns, points)
    }
  }

  /** The points received for one selector block. */
  class SelectorBlock {
    const blockIndex: Unwrapped
    const start: int
    const end: int
    var points: seq<PointValue>

    constructor (blockIndex: Unwrapped, start: int, end: int)
      ensures this.blockIndex == blockIndex && this.start == start && this.end == end && points == []
    {
      this.blockIndex := blockIndex;
      this.start := start;
      this.end := end;
      points := [];
    }

    predicate ContainsIndex(i: int)
      ensures ContainsIndex(i) <==> start <= i && i <= end
    {
      start <= i <= end
    }

    method AddPointValue(pv: PointValue)
      modifies this
      ensures points == old(points) + [pv]
    {
      points := points + [pv];
    }

    /** A separate block with the same bounds, index and points. */
    method Copy() returns (b: SelectorBlock)
      ensures fresh(b)
      ensures b.blockIndex == blockIndex && b.start == start && b.end == end && b.points == points
    {
      b := new SelectorBlock(blockIndex, start, end);
      b.points := points;
    }
  }
}
