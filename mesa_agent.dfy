/**
 * The MESA-ESS outstation agent: it regroups the points the master writes one at a time
 * into MESA-ESS Functions, tracking the array and selector block being received, echoes
 * written values back as input points, and publishes a Function's steps as one message.
 */
module Mesa {
  import opened Wrappers
  import opened Points
  import opened Catalog
  import opened FunctionDefs
  import opened Assembly
  import opened BaseAgent

  const ActionEcho := "echo"
  const ActionPublish := "publish"
  const ActionEchoAndPublish := "echo_and_publish"
  const ActionPublishAndRespond := "publish_and_respond"

  /** The step's value is sent back to the master as its response input point. */
  predicate Echoes(action: Option<string>)
  {
    action == Some(ActionEcho) || action == Some(ActionEchoAndPublish)
  }

  /** The Function is published when this step arrives. */
  predicate Publishes(action: Option<string>)
  {
    action == Some(ActionPublish) || action == Some(ActionEchoAndPublish) || action == Some(ActionPublishAndRespond)
  }

  datatype EngineError =
    | NoPointDefinitionFor(pointType: PointType, index: int)
    | StepLookup(lookup: StepLookupError)
    | Mismatch(pointName: string, functionName: string)
    | UnsupportedFunction(functionName: string)
    | NoCurrentArray
    | OutsideArray(index: int)
    | StepRejected(assembly: AssemblyError)
    | PointLookup(nameError: NameError)
    | NoResponsePoint
    | UnsupportedPointType(typeKey: Option<PointType>)
    | NotAnArray(name: string)
    | NoSuchColumn(column: string)
    | NoJsonForStep(name: string)

  /** A value for an input point: a scalar, or array rows of (column name, value) pairs in the order given. */
  datatype InputValue = Scalar(value: Unwrapped) | Rows(rows: seq<seq<(string, Unwrapped)>>)

  /** An update of one input point in the outstation's database, which may report it to the master. */
  datatype PointUpdate = PointUpdate(pointDef: PointDefinition, index: int, value: Unwrapped)

  datatype JsonValue = JsonScalar(value: Unwrapped) | JsonRows(rows: seq<map<string, Option<int>>>)

  /** The published Function: its name, each received step's value by point name, and the expected response. */
  datatype FunctionMessage = FunctionMessage(
    functionName: string,
    points: map<string, JsonValue>,
    expectedResponse: Option<Option<string>>)

  /** What processing a write sends out: an input point update, or a published Function. */
  datatype Instruction = Echo(update: PointUpdate) | Publish(message: FunctionMessage)

  /** Only Analog Input and Binary Input points can be updated. */
  function ApplyPointUpdate(def: PointDefinition, index: int, value: Unwrapped): (r: Result<PointUpdate, EngineError>)
    ensures r.Ok? <==> def.PointTypeOf() == Some(AnalogInput) || def.PointTypeOf() == Some(BinaryInput)
    ensures r.Ok? ==> r.value == PointUpdate(def, index, value)
    ensures r.Err? ==> r.error == UnsupportedPointType(def.PointTypeOf())
  {
    var t := PointTypeForGroup(def.group);
    if t == Some(AnalogInput) || t == Some(BinaryInput) then Ok(PointUpdate(def, index, value))
    else Err(UnsupportedPointType(t))
  }

  /** The column a name labels; with a repeated name, its last column. */
  function ColumnOf(columns: seq<string>, name: string): (r: Option<int>)
    ensures r.None? <==> name !in columns
    ensures r.Some? ==> 0 <= r.value < |columns| && columns[r.value] == name
    ensures r.Some? ==> forall j | r.value < j < |columns| :: columns[j] != name
  {
    if columns == [] then None
    else if columns[|columns| - 1] == name then Some(|columns| - 1)
    else ColumnOf(columns[..|columns| - 1], name)
  }

  /** The index of cell (row, col) of an array whose head is at `head` and whose rows have `width` cells. */
  function CellIndex(head: int, width: int, row: int, col: int): int
  {
    head + width * row + col
  }

  /** The update for one cell of row `row`: its name must label a column, and the point must accept updates. */
  function CellUpdate(def: PointDefinition, columns: seq<string>, row: int, cell: (string, Unwrapped))
    : (r: Result<PointUpdate, EngineError>)
    ensures r.Ok? <==> cell.0 in columns && ApplyPointUpdate(def, 0, cell.1).Ok?
    ensures r.Ok? ==> r.value == PointUpdate(def, CellIndex(def.index, |columns|, row, ColumnOf(columns, cell.0).value), cell.1)
    ensures r.Err? && cell.0 !in columns ==> r.error == NoSuchColumn(cell.0)
  {
    var col := ColumnOf(columns, cell.0);
    if col.None? then Err(NoSuchColumn(cell.0))
    else ApplyPointUpdate(def, CellIndex(def.index, |columns|, row, col.value), cell.1)
  }

  /** The updates for one row, in the order given, up to the first name that is not a column or the first failed update. */
  function RowUpdates(def: PointDefinition, columns: seq<string>, row: int, cells: seq<(string, Unwrapped)>)
    : (r: (seq<PointUpdate>, Option<EngineError>))
    ensures forall u | u in r.0 :: exists col | 0 <= col < |columns| :: u.index == CellIndex(def.index, |columns|, row, col)
    ensures |r.0| <= |cells|
    ensures r.1.None? ==> |r.0| == |cells|
    ensures forall k | 0 <= k < |r.0| :: CellUpdate(def, columns, row, cells[k]) == Ok(r.0[k])
  {
    if cells == [] then ([], None)
    else
      var prior := RowUpdates(def, columns, row, cells[..|cells| - 1]);
      if prior.1.Some? then prior
      else
        var u := CellUpdate(def, columns, row, cells[|cells| - 1]);
        if u.Err? then (prior.0, Some(u.error)) else (prior.0 + [u.value], None)
  }

  /** The updates for all rows: row r's cells go to indexes head + width * r + column. */
  function ArrayUpdates(def: PointDefinition, columns: seq<string>, rows: seq<seq<(string, Unwrapped)>>)
    : (r: (seq<PointUpdate>, Option<EngineError>))
    ensures forall u | u in r.0 :: exists row, col | 0 <= row < |rows| && 0 <= col < |columns| ::
              u.index == CellIndex(def.index, |columns|, row, col)
  {
    if rows == [] then ([], None)
    else
      var prior := ArrayUpdates(def, columns, rows[..|rows| - 1]);
      if prior.1.Some? then prior
      else
        var last := RowUpdates(def, columns, |rows| - 1, rows[|rows| - 1]);
        (prior.0 + last.0, last.1)
  }

  /** An echoed cell's index, written back to the array, decodes to a row and column within the rows echoed. */
  lemma EchoedCellDecodes(def: PointDefinition, columns: seq<string>, rows: seq<seq<(string, Unwrapped)>>,
                          u: PointUpdate, pv: PointValue)
    requires columns != [] && u in ArrayUpdates(def, columns, rows).0
    requires pv.pointDef.index == def.index && pv.index == u.index
    ensures 0 <= pv.ArrayElement(|columns|) < |rows| && 0 <= pv.ArrayPointsIndex(|columns|) < |columns|
    ensures pv.index == CellIndex(def.index, |columns|, pv.ArrayElement(|columns|), pv.ArrayPointsIndex(|columns|))
  {
    var row, col :| 0 <= row < |rows| && 0 <= col < |columns| && u.index == CellIndex(def.index, |columns|, row, col);
    ArrayAddressRoundTrip(pv, |columns|, row, col);
  }

  lemma {:induction false} RowUpdatesStops(def: PointDefinition, columns: seq<string>, row: int,
                                           cells: seq<(string, Unwrapped)>, m: nat)
    requires m <= |cells| && RowUpdates(def, columns, row, cells[..m]).1.Some?
    ensures RowUpdates(def, columns, row, cells) == RowUpdates(def, columns, row, cells[..m])
    decreases |cells|
  {
    if m < |cells| {
      var front := cells[..|cells| - 1];
      assert front[..m] == cells[..m];
      RowUpdatesStops(def, columns, row, front, m);
    } else {
      assert cells[..m] == cells;
    }
  }

  lemma {:induction false} ArrayUpdatesStops(def: PointDefinition, columns: seq<string>,
                                             rows: seq<seq<(string, Unwrapped)>>, m: nat)
    requires m <= |rows| && ArrayUpdates(def, columns, rows[..m]).1.Some?
    ensures ArrayUpdates(def, columns, rows) == ArrayUpdates(def, columns, rows[..m])
    decreases |rows|
  {
    if m < |rows| {
      var front := rows[..|rows| - 1];
      assert front[..m] == rows[..m];
      ArrayUpdatesStops(def, columns, front, m);
    } else {
      assert rows[..m] == rows;
    }
  }

  /** The updates of rows 0 .. n-1, each row's run after the previous one's. */
  function RowRuns(def: PointDefinition, columns: seq<string>, rows: seq<seq<(string, Unwrapped)>>, n: nat)
    : seq<PointUpdate>
    requires n <= |rows|
  {
    if n == 0 then [] else RowRuns(def, columns, rows, n - 1) + RowUpdates(def, columns, n - 1, rows[n - 1]).0
  }

  /**
   * An array update that meets no error sends every row whole, row after row: no row met an
   * error, and the updates are the rows' own updates concatenated in row order (so, by
   * RowUpdates, one update per cell, at its row's index for its column).
   */
  lemma {:induction false} ArrayUpdatesComplete(def: PointDefinition, columns: seq<string>,
                                                rows: seq<seq<(string, Unwrapped)>>)
    requires ArrayUpdates(def, columns, rows).1.None?
    ensures forall i | 0 <= i < |rows| :: RowUpdates(def, columns, i, rows[i]).1.None?
    ensures ArrayUpdates(def, columns, rows).0 == RowRuns(def, columns, rows, |rows|)
    decreases |rows|
  {
    if rows != [] {
      var n := |rows| - 1;
      var front := rows[..n];
      var prior := ArrayUpdates(def, columns, front);
      var last := RowUpdates(def, columns, n, rows[n]);
      assert prior.1.None? && last.1.None?;
      assert ArrayUpdates(def, columns, rows).0 == prior.0 + last.0;
      ArrayUpdatesComplete(def, columns, front);
      RowRunsPrefix(def, columns, rows, n, n);
      forall i | 0 <= i < |rows| ensures RowUpdates(def, columns, i, rows[i]).1.None? {
        if i < n {
          assert front[i] == rows[i];
          assert RowUpdates(def, columns, i, front[i]).1.None?;
        } else {
          assert i == n;
        }
      }
    }
  }

  lemma {:induction false} RowRunsPrefix(def: PointDefinition, columns: seq<string>,
                                         rows: seq<seq<(string, Unwrapped)>>, n: nat, j: nat)
    requires j <= n <= |rows|
    ensures RowRuns(def, columns, rows[..n], j) == RowRuns(def, columns, rows, j)
    decreases j
  {
    if j > 0 {
      RowRunsPrefix(def, columns, rows, n, j - 1);
    }
  }

  /**
   * A step's value in the published message: an array step's rows, or another step's
   * written value. A step whose value is of the other kind has no such representation.
   */
  function StepJson(step: Step, isArray: bool): (r: Result<JsonValue, EngineError>)
    reads if step.value.ArrayValue? && step.value.pointArray != null then {step.value.pointArray} else {}
    ensures isArray ==>
              (r.Ok? <==> step.value.ArrayValue? && step.value.pointArray != null && step.value.pointArray.head.IsArray())
    ensures isArray && r.Ok? ==>
              r.value == JsonRows(ArrayJson(step.value.pointArray.head.shape.columns, step.value.pointArray.points))
    ensures !isArray ==> (r.Ok? <==> step.value.Received?)
    ensures !isArray && r.Ok? ==> r.value == JsonScalar(step.value.pv.UnwrappedValue())
  {
    if isArray then
      match step.value
      case ArrayValue(a) =>
        if a != null && a.head.IsArray() then Ok(JsonRows(a.AsJson())) else Err(NoJsonForStep(step.definition.name))
      case Received(_) => Err(NoJsonForStep(step.definition.name))
    else
      match step.value
      case Received(pv) => Ok(JsonScalar(pv.UnwrappedValue()))
      case ArrayValue(_) => Err(NoJsonForStep(step.definition.name))
  }

  /** The arrays that steps' values refer to. */
  function ArraysOf(steps: seq<Step>): set<PointArray>
  {
    set s | s in steps && s.value.ArrayValue? && s.value.pointArray != null :: s.value.pointArray
  }

  /**
   * The published values of steps, in order, each step's point looked up by name in
   * `byName`; a later step overwrites an earlier one of the same name.
   */
  function MessagePoints(steps: seq<Step>, byName: map<string, PointDefinition>): (r: Result<map<string, JsonValue>, EngineError>)
    reads ArraysOf(steps)
    ensures r.Ok? ==> r.value.Keys == NamesOf(steps)
  {
    if steps == [] then Ok(map[])
    else
      var front := steps[..|steps| - 1];
      assert ArraysOf(front) <= ArraysOf(steps);
      var prior := MessagePoints(front, byName);
      if prior.Err? then prior
      else
        var s := steps[|steps| - 1];
        var name := s.definition.name;
        if name !in byName then Err(PointLookup(NoPointNamed(name)))
        else
          var json := StepJson(s, byName[name].IsArray());
          if json.Err? then Err(json.error) else Ok(prior.value[name := json.value])
  }

  /** One more step: its point is looked up and its value added, or the first failure stays. */
  lemma MessagePointsNext(steps: seq<Step>, byName: map<string, PointDefinition>, i: int)
    requires 0 <= i < |steps| && MessagePoints(steps[..i], byName).Ok?
    ensures var s := steps[i];
            var name := s.definition.name;
            MessagePoints(steps[..i + 1], byName) ==
              if name !in byName then Err(PointLookup(NoPointNamed(name)))
              else
                var json := StepJson(s, byName[name].IsArray());
                if json.Err? then Err(json.error) else Ok(MessagePoints(steps[..i], byName).value[name := json.value])
  {
    assert steps[..i + 1][..i] == steps[..i];
  }

  lemma {:induction false} MessagePointsStops(steps: seq<Step>, byName: map<string, PointDefinition>, m: nat)
    requires m <= |steps| && MessagePoints(steps[..m], byName).Err?
    ensures MessagePoints(steps, byName) == MessagePoints(steps[..m], byName)
    decreases |steps|
  {
    if m < |steps| {
      var front := steps[..|steps| - 1];
      assert front[..m] == steps[..m];
      MessagePointsStops(front, byName, m);
    } else {
      assert steps[..m] == steps;
    }
  }

  /**
   * In a published message, each point carries the value of the last step received under
   * its name, rendered by the kind of its point: an array's rows or a scalar.
   */
  lemma {:induction false} MessagePointsLastWins(steps: seq<Step>, byName: map<string, PointDefinition>, i: int)
    requires MessagePoints(steps, byName).Ok? && 0 <= i < |steps|
    requires forall j | i < j < |steps| :: steps[j].definition.name != steps[i].definition.name
    ensures steps[i].definition.name in byName
    ensures StepJson(steps[i], byName[steps[i].definition.name].IsArray()) ==
            Ok(MessagePoints(steps, byName).value[steps[i].definition.name])
    decreases |steps|
  {
    var front := steps[..|steps| - 1];
    if i < |steps| - 1 {
      MessagePointsLastWins(front, byName, i);
    }
  }

  /** An array that holds any index has at least one column. */
  lemma ContainsNeedsColumns(head: PointDefinition, i: int)
    requires head.ArrayContains(i)
    ensures |head.shape.columns| > 0
  {
    var n := |head.shape.columns|;
    assert head.shape.timesRepeated * n >= 1;
  }

  /** The echo instructions for a sequence of input point updates, in order. */
  function EchoAll(updates: seq<PointUpdate>): (r: seq<Instruction>)
    ensures |r| == |updates| && forall i | 0 <= i < |r| :: r[i] == Echo(updates[i])
  {
    seq(|updates|, i requires 0 <= i < |updates| => Echo(updates[i]))
  }

  /**
   * Why an array point does not fit the array being received (`cur`, null for none): the
   * head starts a new array; any other point needs a current array that holds its index.
   */
  function ArrayFit(pv: PointValue, cur: PointArray?): (r: Option<EngineError>)
  {
    if !pv.pointDef.IsArray() then None
    else if pv.StartsArray() then (if pv.pointDef.ArrayContains(pv.index) then None else Some(OutsideArray(pv.index)))
    else if cur == null then Some(NoCurrentArray)
    else if cur.ContainsIndex(pv.index) then None
    else Some(OutsideArray(pv.index))
  }

  /** A Function's refusal of a step, as the agent reports it. */
  function AsEngineResult(res: Result<Step, AssemblyError>): (r: Result<Step, EngineError>)
  {
    if res.Ok? then Ok(res.value) else Err(StepRejected(res.error))
  }

  /** A Function in progress, as the steps it holds and whether it is complete. */
  datatype InProgress = InProgress(definition: FunctionDefinition, steps: seq<Step>, complete: bool)

  /** What the agent knows when a point is written: the definitions, support flags and the Function in progress. */
  datatype Prior = Prior(functions: Functions, supported: map<string, Unwrapped>, current: Option<InProgress>)

  /** Whether a Function of name `name` is supported: it is unless its support point was last written falsy. */
  predicate SupportedIn(p: Prior, name: string)
  {
    name !in p.supported || Truthy(p.supported[name])
  }

  /**
   * Why a point named `pointName` of a step of `def` cannot join a Function: an incomplete
   * Function of another definition is in progress, or a new Function would be unsupported.
   */
  function JoinError(p: Prior, pointName: string, def: FunctionDefinition): (r: Option<EngineError>)
  {
    if p.current.Some? && p.current.value.definition != def && !p.current.value.complete then
      Some(Mismatch(pointName, p.current.value.definition.name))
    else if (p.current.None? || p.current.value.definition != def) && !SupportedIn(p, def.name) then
      Some(UnsupportedFunction(def.name))
    else None
  }

  /** The steps and completeness of the Function a step of `def` joins: the one in progress when it has that definition, else a new one. */
  function JoinedSteps(p: Prior, def: FunctionDefinition): (r: (seq<Step>, bool))
  {
    if p.current.Some? && p.current.value.definition == def then (p.current.value.steps, p.current.value.complete) else ([], false)
  }

  /**
   * What writing `pv`, the point of step `x`, does to the Function it joins, judged on `p`
   * and on `cur`, the array being received before the write: the Step added or the error,
   * and the Function's steps after. `arr` is the array being received after the write.
   */
  function JoinedAt(p: Prior, cur: PointArray?, x: IndexedStep, pv: PointValue, arr: PointArray?): (r: (Result<Step, EngineError>, seq<Step>))
    requires x.InRange()
    ensures r.0.Ok? ==> r.1 != [] && r.1[|r.1| - 1] == r.0.value
    ensures JoinError(p, pv.Name(), x.owner).Some? ==> r == (Err(JoinError(p, pv.Name(), x.owner).value), [])
  {
    var join := JoinError(p, pv.Name(), x.owner);
    if join.Some? then (Err(join.value), [])
    else
      var before := JoinedSteps(p, x.owner);
      var fit := ArrayFit(pv, cur);
      if fit.Some? then (Err(fit.value), before.0)
      else
        var added := AddedStep(x.owner, before.0, before.1, x.Step(), pv, arr);
        (AsEngineResult(added.0), added.1)
  }

  /**
   * What writing `pv` does to the Function it belongs to: it fails when no step or several
   * steps name the point, and otherwise as `JoinedAt` of the one step that does.
   */
  ghost function Joined(p: Prior, cur: PointArray?, pv: PointValue, arr: PointArray?): (r: (Result<Step, EngineError>, seq<Step>))
    ensures r.0.Ok? ==> OnlyStepNamed(p.functions, pv.Name()).Some? && r.1 != [] && r.1[|r.1| - 1] == r.0.value
  {
    var x := OnlyStepNamed(p.functions, pv.Name());
    if x.Some? then JoinedAt(p, cur, x.value, pv, arr)
    else if StepsNamed(p.functions, pv.Name()) == {} then (Err(StepLookup(NoStepNamed(pv.Name()))), [])
    else (Err(StepLookup(SeveralStepsNamed(pv.Name()))), [])
  }

  /**
   * What processing an Operate of `pv` did, from the state `before` with array `cur` being
   * received to the state `after` with array `arr`: it fails without instructions when the
   * point cannot join its Function (`Joined`); when it succeeds the Function it joined is the
   * one in progress, holds the steps `Joined` gives and is supported; a step of a supported
   * Function with nothing to echo or publish always succeeds silently.
   */
  ghost predicate OperateDone(before: Prior, after: Prior, cur: PointArray?, arr: PointArray?,
                              pv: PointValue, ok: bool, out: seq<Instruction>)
  {
    var j := Joined(before, cur, pv, arr);
    var x := OnlyStepNamed(before.functions, pv.Name());
    && (j.0.Err? ==> !ok && out == [])
    && (ok ==>
          && j.0.Ok? && x.Some? && after.current.Some? && after.current.value.steps == j.1
          && after.current.value.definition == x.value.owner && SupportedIn(before, x.value.owner.name))
    && ((j.0.Ok? && x.Some? && SupportedIn(before, x.value.owner.name)
         && !Echoes(j.0.value.definition.action) && !Publishes(j.0.value.definition.action)) ==> ok && out == [])
  }

  /**
   * The selector block `after` that follows receiving `pv`, given the block `before` and the
   * points it held then: a selector-block point starts a block of its own, keyed by its
   * written value; any other point leaves the block in place; a point within the block's
   * range is appended to it.
   */
  ghost predicate SelectorBlockAfter(after: SelectorBlock?, before: SelectorBlock?, pointsBefore: seq<PointValue>, pv: PointValue)
    reads after, before
  {
    if pv.pointDef.IsSelectorBlock() then
      && after != null
      && after.blockIndex == pv.UnwrappedValue()
      && after.start == pv.pointDef.shape.start
      && after.end == pv.pointDef.shape.end
      && after.points == (if after.ContainsIndex(pv.index) then [pv] else [])
    else
      && after == before
      && (before != null ==> before.points == pointsBefore + (if before.ContainsIndex(pv.index) then [pv] else []))
  }

  /** The outstation's state while Functions arrive. */
  class MesaAgent {
    const catalog: PointDefinitions
    const functionDefs: FunctionDefinitions
    const cache: CurrentValues
    var currentFunc: Function?
    var currentArray: PointArray?
    var currentSelectorBlock: SelectorBlock?
    /** Saved copies of selector blocks, by block index. */
    var selectorBlocks: map<Unwrapped, SelectorBlock>

    ghost predicate Valid()
      reads this, catalog, functionDefs, currentFunc
    {
      && catalog.Valid()
      && functionDefs.Valid()
      && (currentFunc != null ==> currentFunc.Valid())
      && (currentSelectorBlock != null ==> currentSelectorBlock !in selectorBlocks.Values)
    }

    constructor (catalog: PointDefinitions, functionDefs: FunctionDefinitions)
      requires catalog.Valid() && functionDefs.Valid()
      ensures Valid() && this.catalog == catalog && this.functionDefs == functionDefs
      ensures fresh(cache) && cache.values == map[]
      ensures currentFunc == null && currentArray == null && currentSelectorBlock == null && selectorBlocks == map[]
    {
      this.catalog := catalog;
      this.functionDefs := functionDefs;
      cache := new CurrentValues();
      currentFunc := null;
      currentArray := null;
      currentSelectorBlock := null;
      selectorBlocks := map[];
    }

    /** The index at which a command's definition is looked up: the array head's when the current array holds it. */
    function LookupIndex(index: int): (r: int)
      reads this
      ensures currentArray != null && currentArray.ContainsIndex(index) ==> r == currentArray.head.index
      ensures !(currentArray != null && currentArray.ContainsIndex(index)) ==> r == index
    {
      if currentArray != null && currentArray.ContainsIndex(index) then currentArray.head.index else index
    }

    /**
     * The PointValue for a command: a binary command resolves among the Binary Outputs, any
     * other among the Analog Outputs, at the current array's head when that array holds the
     * index; it keeps the index the master wrote.
     */
    function PointValueForCommand(commandType: CommandType, command: Command, index: int): (r: Result<PointValue, EngineError>)
      reads this, catalog
      requires catalog.Valid()
      ensures r.Ok? <==> Has(catalog.points, Some(CommandPointType(command)), LookupIndex(index))
      ensures r.Ok? ==> && r.value.pointDef.index == LookupIndex(index)
                        && r.value.pointDef.PointTypeOf() == Some(CommandPointType(command))
                        && r.value == CommandPointValue(commandType, command, r.value.pointDef, index)
      ensures r.Err? ==> r.error == NoPointDefinitionFor(CommandPointType(command), index)
    {
      var def := catalog.ForPointTypeAndIndex(Some(CommandPointType(command)), LookupIndex(index));
      if def.None? then Err(NoPointDefinitionFor(CommandPointType(command), index))
      else Ok(CommandPointValue(commandType, command, def.value, index))
    }

    /** The state a write is judged on: the definitions, their support flags and the Function in progress. */
    function PriorState(): (r: Prior)
      reads this, currentFunc, functionDefs`functions, functionDefs`supported
      ensures r.functions == functionDefs.functions && r.supported == functionDefs.supported
      ensures r.current.Some? <==> currentFunc != null
      ensures currentFunc != null ==> r.current.value == InProgress(currentFunc.definition, currentFunc.steps, currentFunc.complete)
    {
      Prior(functionDefs.functions, functionDefs.supported,
            if currentFunc == null then None else Some(InProgress(currentFunc.definition, currentFunc.steps, currentFunc.complete)))
    }

    /**
     * Installs a Function as the current one; a Function whose definition is not supported
     * is refused and the current Function stays as it was.
     */
    method SetCurrentFunction(f: Function) returns (err: Option<EngineError>)
      requires Valid() && f.Valid()
      modifies this`currentFunc
      ensures Valid()
      ensures err.None? <==> functionDefs.IsSupported(f.definition.name)
      ensures err.None? ==> currentFunc == f
      ensures err.Some? ==> err.value == UnsupportedFunction(f.definition.name) && currentFunc == old(currentFunc)
    {
      if !functionDefs.IsSupported(f.definition.name) {
        return Some(UnsupportedFunction(f.definition.name));
      }
      currentFunc := f;
      return None;
    }

    /**
     * The Function a point of definition `def` belongs to: the current one when it has that
     * definition; a fresh one when there is none or the current one is complete; an error
     * while an incomplete Function of another definition is in progress.
     */
    method CurrentFunctionFor(pointName: string, def: FunctionDefinition) returns (r: Result<Function, EngineError>)
      requires Valid()
      modifies this`currentFunc
      ensures Valid()
      ensures r.Ok? ==> r.value == currentFunc && r.value.Valid() && r.value.definition == def
      ensures old(currentFunc) != null && old(currentFunc.definition) == def ==>
                r.Ok? && r.value == old(currentFunc) && old(currentFunc.steps) == r.value.steps
      ensures old(currentFunc) != null && old(currentFunc.definition) != def && !old(currentFunc.complete) ==>
                r == Err(Mismatch(pointName, old(currentFunc.definition.name))) && currentFunc == old(currentFunc)
      ensures old(currentFunc) == null || (old(currentFunc.definition) != def && old(currentFunc.complete)) ==>
                && (functionDefs.IsSupported(def.name) ==> r.Ok? && fresh(r.value) && r.value.steps == [])
                && (!functionDefs.IsSupported(def.name) ==> r == Err(UnsupportedFunction(def.name)) && currentFunc == null)
    {
      var current := currentFunc;
      if current != null && def != current.definition {
        if !current.complete {
          return Err(Mismatch(pointName, current.definition.name));
        }
        currentFunc := null;
        current := null;
      }
      if current != null {
        var same: Function := current;
        return Ok(same);
      }
      var f := new Function(def);
      var err := SetCurrentFunction(f);
      if err.Some? {
        return Err(err.value);
      }
      return Ok(f);
    }

    /**
     * Updates an input point. A scalar goes to the point's own index and, when the point is
     * some Function's support point, becomes that Function's supported state. Array rows
     * go cell by cell to head + width * row + column, stopping at the first failure.
     */
    method UpdateInputPoint(def: PointDefinition, value: InputValue) returns (updates: seq<PointUpdate>, err: Option<EngineError>)
      modifies functionDefs`supported
      ensures value.Scalar? ==>
                var u := ApplyPointUpdate(def, def.index, value.value);
                && (u.Err? ==> updates == [] && err == Some(u.error) && functionDefs.supported == old(functionDefs.supported))
                && (u.Ok? ==> updates == [u.value] && err.None?)
                && (u.Ok? && (forall f | f in functionDefs.functions :: functionDefs.functions[f].supportPointName != Some(def.name)) ==>
                      functionDefs.supported == old(functionDefs.supported))
                && (u.Ok? && (exists f | f in functionDefs.functions :: functionDefs.functions[f].supportPointName == Some(def.name)) ==>
                      exists f | f in functionDefs.functions && functionDefs.functions[f].supportPointName == Some(def.name) ::
                        functionDefs.supported == old(functionDefs.supported)[f := value.value]
                        && functionDefs.IsSupported(f) == Truthy(value.value))
      ensures value.Rows? ==> functionDefs.supported == old(functionDefs.supported)
      ensures value.Rows? && !def.IsArray() ==> updates == [] && err == Some(NotAnArray(def.name))
      ensures value.Rows? && def.IsArray() ==> (updates, err) == ArrayUpdates(def, def.shape.columns, value.rows)
    {
      match value
      case Scalar(v) =>
        var u := ApplyPointUpdate(def, def.index, v);
        if u.Err? {
          return [], Some(u.error);
        }
        updates, err := [u.value], None;
        var f := functionDefs.FunctionForSupportPoint(def.name);
        if f.Some? {
          functionDefs.SetSupported(f.value, v);
        }
      case Rows(rows) =>
        if !def.IsArray() {
          return [], Some(NotAnArray(def.name));
        }
        updates, err := ArrayInputUpdates(def, def.shape.columns, rows);
    }

    /** The updates for array rows, row by row and cell by cell. */
    static method ArrayInputUpdates(def: PointDefinition, columns: seq<string>, rows: seq<seq<(string, Unwrapped)>>)
      returns (updates: seq<PointUpdate>, err: Option<EngineError>)
      ensures (updates, err) == ArrayUpdates(def, columns, rows)
    {
      updates, err := [], None;
      var r := 0;
      while r < |rows|
        invariant 0 <= r <= |rows|
        invariant ArrayUpdates(def, columns, rows[..r]) == (updates, None) && err.None?
      {
        assert rows[..r + 1][..r] == rows[..r];
        var rowUpdates, rowErr := RowInputUpdates(def, columns, r, rows[r]);
        updates := updates + rowUpdates;
        if rowErr.Some? {
          err := rowErr;
          ArrayUpdatesStops(def, columns, rows, r + 1);
          return;
        }
        r := r + 1;
      }
      assert rows[..r] == rows;
    }

    static method RowInputUpdates(def: PointDefinition, columns: seq<string>, row: int, cells: seq<(string, Unwrapped)>)
      returns (updates: seq<PointUpdate>, err: Option<EngineError>)
      ensures (updates, err) == RowUpdates(def, columns, row, cells)
    {
      updates, err := [], None;
      var c := 0;
      while c < |cells|
        invariant 0 <= c <= |cells|
        invariant RowUpdates(def, columns, row, cells[..c]) == (updates, None) && err.None?
      {
        assert cells[..c + 1][..c] == cells[..c];
        var (name, v) := cells[c];
        var col := ColumnOf(columns, name);
        if col.None? {
          err := Some(NoSuchColumn(name));
          RowUpdatesStops(def, columns, row, cells, c + 1);
          return;
        }
        var u := ApplyPointUpdate(def, CellIndex(def.index, |columns|, row, col.value), v);
        if u.Err? {
          err := Some(u.error);
          RowUpdatesStops(def, columns, row, cells, c + 1);
          return;
        }
        updates := updates + [u.value];
        c := c + 1;
      }
      assert cells[..c] == cells;
    }

    /** The points of the current selector block, or none when there is no block. */
    function SelectorPoints(): (r: seq<PointValue>)
      reads this, currentSelectorBlock
      ensures currentSelectorBlock != null ==> r == currentSelectorBlock.points
      ensures currentSelectorBlock == null ==> r == []
    {
      if currentSelectorBlock == null then [] else currentSelectorBlock.points
    }

    /**
     * A selector-block point starts a new block keyed by its written value; then any point
     * within the current block's range is appended to it. Saved blocks are not touched.
     */
    method UpdateSelectorBlock(pv: PointValue)
      requires Valid()
      modifies this`currentSelectorBlock, currentSelectorBlock
      ensures Valid()
      ensures SelectorBlockAfter(currentSelectorBlock, old(currentSelectorBlock), old(SelectorPoints()), pv)
      ensures pv.pointDef.IsSelectorBlock() ==> fresh(currentSelectorBlock)
      ensures forall b | b in selectorBlocks.Values :: b.points == old(b.points)
    {
      if pv.pointDef.IsSelectorBlock() {
        currentSelectorBlock := new SelectorBlock(pv.UnwrappedValue(), pv.pointDef.shape.start, pv.pointDef.shape.end);
      }
      if currentSelectorBlock != null && currentSelectorBlock.ContainsIndex(pv.index) {
        currentSelectorBlock.AddPointValue(pv);
      }
    }

    /**
     * An array point: the head starts a new array; any other point needs a current array
     * that holds its index. The point is then written to its cell.
     */
    method UpdateArray(pv: PointValue) returns (err: Option<EngineError>)
      requires Valid()
      modifies this`currentArray, currentArray
      ensures Valid()
      ensures err == ArrayFit(pv, old(currentArray))
      ensures !pv.pointDef.IsArray() ==> err.None? && currentArray == old(currentArray)
      ensures !pv.pointDef.IsArray() && currentArray != null ==> currentArray.points == old(currentArray.points)
      ensures pv.StartsArray() ==> currentArray != null && fresh(currentArray) && currentArray.head == pv.pointDef
      ensures pv.pointDef.IsArray() && !pv.StartsArray() ==> currentArray == old(currentArray)
      ensures pv.pointDef.IsArray() && !pv.StartsArray() && old(currentArray) == null ==> err == Some(NoCurrentArray)
      ensures pv.pointDef.IsArray() && currentArray != null ==>
                && (err.None? <==> currentArray.ContainsIndex(pv.index))
                && (err.Some? ==> err == Some(OutsideArray(pv.index)))
      ensures pv.pointDef.IsArray() && err.None? ==>
                var size := |currentArray.head.shape.columns|;
                && size > 0
                && currentArray.Cell(pv.ArrayElement(size), pv.ArrayPointsIndex(size)) == Some(pv)
                && forall row, col | (row, col) != (pv.ArrayElement(size), pv.ArrayPointsIndex(size)) ::
                     currentArray.Cell(row, col) == (if pv.StartsArray() then None else old(currentArray.Cell(row, col)))
    {
      if !pv.pointDef.IsArray() {
        return None;
      }
      if pv.StartsArray() {
        currentArray := new PointArray(pv.pointDef);
      } else if currentArray == null {
        return Some(NoCurrentArray);
      }
      var a := currentArray;
      if !a.ContainsIndex(pv.index) {
        return Some(OutsideArray(pv.index));
      }
      ContainsNeedsColumns(a.head, pv.index);
      a.AddPointValue(pv);
      return None;
    }

    /**
     * Adds a received point to the Function it belongs to: the point must name exactly one
     * step; the Function is the current one or a new one; selector block and array state
     * are updated before the step is added.
     */
    method UpdateFunctionForPointValue(pv: PointValue) returns (r: Result<Step, EngineError>)
      requires Valid()
      modifies this`currentFunc, this`currentArray, this`currentSelectorBlock, functionDefs`stepIndex
      modifies currentFunc, currentArray, currentSelectorBlock
      ensures Valid()
      ensures var j := Joined(old(PriorState()), old(currentArray), pv, currentArray);
              && r == j.0
              && (r.Ok? ==> currentFunc != null && currentFunc.steps == j.1)
      ensures OnlyStepNamed(functionDefs.functions, pv.Name()).None? ==>
                && currentFunc == old(currentFunc) && currentArray == old(currentArray)
                && currentSelectorBlock == old(currentSelectorBlock)
      ensures r.Ok? ==>
                && currentFunc != null && currentFunc.steps != []
                && r.value == currentFunc.steps[|currentFunc.steps| - 1]
                && OnlyStepNamed(functionDefs.functions, pv.Name()).Some?
                && OnlyStepNamed(functionDefs.functions, pv.Name()).value.owner == currentFunc.definition
      ensures var x := OnlyStepNamed(functionDefs.functions, pv.Name());
              x.Some? && JoinError(old(PriorState()), pv.Name(), x.value.owner).None? ==>
                && SelectorBlockAfter(currentSelectorBlock, old(currentSelectorBlock), old(SelectorPoints()), pv)
                && (pv.pointDef.IsSelectorBlock() ==> fresh(currentSelectorBlock))
    {
      var x := functionDefs.StepDefinitionForPoint(pv.Name());
      if x.Err? {
        assert OnlyStepNamed(functionDefs.functions, pv.Name()).None?;
        return Err(StepLookup(x.error));
      }
      OnlyStepNamedIs(functionDefs.functions, pv.Name(), x.value);
      r := JoinFunction(pv, x.value);
    }

    /**
     * Adds a point whose step definition is `x` to the Function of `x`'s owner, the current one
     * or a new one: the step the Function takes or the reason it cannot, as `JoinedAt` says.
     */
    method JoinFunction(pv: PointValue, x: IndexedStep) returns (r: Result<Step, EngineError>)
      requires Valid() && x.InRange()
      modifies this`currentFunc, this`currentArray, this`currentSelectorBlock
      modifies currentFunc, currentArray, currentSelectorBlock
      ensures Valid()
      ensures var j := JoinedAt(old(PriorState()), old(currentArray), x, pv, currentArray);
              && r == j.0
              && (JoinError(old(PriorState()), pv.Name(), x.owner).None? ==>
                    currentFunc != null && currentFunc.definition == x.owner && currentFunc.steps == j.1)
      ensures r.Ok? ==>
                && currentFunc != null && currentFunc.steps != []
                && r.value == currentFunc.steps[|currentFunc.steps| - 1]
                && currentFunc.definition == x.owner
      ensures JoinError(old(PriorState()), pv.Name(), x.owner).None? ==>
                && SelectorBlockAfter(currentSelectorBlock, old(currentSelectorBlock), old(SelectorPoints()), pv)
                && (pv.pointDef.IsSelectorBlock() ==> fresh(currentSelectorBlock))
      ensures JoinError(old(PriorState()), pv.Name(), x.owner).Some? ==>
                currentSelectorBlock == old(currentSelectorBlock) && SelectorPoints() == old(SelectorPoints())
    {
      ghost var join := JoinError(PriorState(), pv.Name(), x.owner);
      var cur := CurrentFunctionFor(pv.Name(), x.owner);
      if cur.Err? {
        assert join.Some?;
        return Err(cur.error);
      }
      assert join.None?;
      var f := cur.value;
      r := AddToFunction(f, x.Step(), pv);
    }

    /** Updates the selector block and array state for a point, then adds it to the current Function. */
    method AddToFunction(f: Function, stepDef: StepDefinition, pv: PointValue) returns (r: Result<Step, EngineError>)
      requires Valid() && f == currentFunc
      modifies this`currentArray, this`currentSelectorBlock, currentArray, currentSelectorBlock, f
      ensures Valid()
      ensures var fit := ArrayFit(pv, old(currentArray));
              var added := AddedStep(f.definition, old(f.steps), old(f.complete), stepDef, pv, currentArray);
              && (fit.Some? ==> r == Err(fit.value) && f.steps == old(f.steps))
              && (fit.None? ==> r == AsEngineResult(added.0) && f.steps == added.1)
      ensures r.Ok? ==> f.steps != [] && r.value == f.steps[|f.steps| - 1]
      ensures SelectorBlockAfter(currentSelectorBlock, old(currentSelectorBlock), old(SelectorPoints()), pv)
      ensures pv.pointDef.IsSelectorBlock() ==> fresh(currentSelectorBlock)
      ensures r.Ok? && pv.pointDef.IsArray() ==>
                && currentArray != null && currentArray.ContainsIndex(pv.index)
                && var size := |currentArray.head.shape.columns|;
                   size > 0 && currentArray.Cell(pv.ArrayElement(size), pv.ArrayPointsIndex(size)) == Some(pv)
    {
      UpdateSelectorBlock(pv);
      assert SelectorBlockAfter(currentSelectorBlock, old(currentSelectorBlock), old(SelectorPoints()), pv);
      var arrayErr := UpdateArray(pv);
      if arrayErr.Some? {
        return Err(arrayErr.value);
      }
      var step := f.AddPointValue(stepDef, pv, currentArray);
      if step.Err? {
        return Err(StepRejected(step.error));
      }
      return Ok(step.value);
    }

    /**
     * The published message for a Function when `step` arrives: each received step's value
     * by its point's name, and the expected response when the step publishes and responds.
     */
    method FunctionMessageFor(step: Step, func: Function) returns (r: Result<FunctionMessage, EngineError>)
      requires catalog.Valid()
      modifies catalog`nameIndex
      ensures catalog.Valid()
      ensures r.Ok? ==>
                && r.value.functionName == func.definition.name
                && MessagePoints(func.steps, catalog.nameIndex) == Ok(r.value.points)
                && (r.value.expectedResponse.Some? <==> step.definition.action == Some(ActionPublishAndRespond))
                && (r.value.expectedResponse.Some? ==> r.value.expectedResponse.value == step.definition.response)
      ensures old(catalog.nameIndex) != map[] ==>
                && catalog.nameIndex == old(catalog.nameIndex)
                && (r.Err? <==> MessagePoints(func.steps, catalog.nameIndex).Err?)
                && (r.Err? ==> r.error == MessagePoints(func.steps, catalog.nameIndex).error)
    {
      var points := StepPoints(func.steps);
      if points.Err? {
        return Err(points.error);
      }
      var expected := if step.definition.action == Some(ActionPublishAndRespond) then Some(step.definition.response) else None;
      return Ok(FunctionMessage(func.definition.name, points.value, expected));
    }

    /** Each step's published value under its point's name, looking the points up in the catalog. */
    method StepPoints(steps: seq<Step>) returns (r: Result<map<string, JsonValue>, EngineError>)
      requires catalog.Valid()
      modifies catalog`nameIndex
      ensures catalog.Valid()
      ensures r.Ok? ==> MessagePoints(steps, catalog.nameIndex) == r
      ensures old(catalog.nameIndex) != map[] ==>
                catalog.nameIndex == old(catalog.nameIndex) && MessagePoints(steps, catalog.nameIndex) == r
    {
      var points: map<string, JsonValue> := map[];
      var i := 0;
      assert steps[..i] == [];
      while i < |steps|
        invariant 0 <= i <= |steps|
        invariant catalog.Valid()
        invariant i > 0 ==> catalog.nameIndex != map[]
        invariant old(catalog.nameIndex) != map[] ==> catalog.nameIndex == old(catalog.nameIndex)
        invariant MessagePoints(steps[..i], catalog.nameIndex) == Ok(points)
      {
        var next := AddStepPoint(steps, i, points);
        if next.Err? {
          return next;
        }
        points := next.value;
        i := i + 1;
      }
      assert steps[..i] == steps;
      return Ok(points);
    }

    /**
     * The message after one more step: the step's point is looked up by name in the catalog
     * and its value rendered by the kind of that point.
     */
    method AddStepPoint(steps: seq<Step>, i: int, points: map<string, JsonValue>) returns (r: Result<map<string, JsonValue>, EngineError>)
      requires catalog.Valid() && 0 <= i < |steps|
      requires i > 0 ==> catalog.nameIndex != map[]
      requires MessagePoints(steps[..i], catalog.nameIndex) == Ok(points)
      modifies catalog`nameIndex
      ensures catalog.Valid()
      ensures old(catalog.nameIndex) != map[] ==> catalog.nameIndex == old(catalog.nameIndex)
      ensures r.Ok? ==> catalog.nameIndex != map[] && MessagePoints(steps[..i + 1], catalog.nameIndex) == r
      ensures r.Err? && old(catalog.nameIndex) != map[] ==> MessagePoints(steps, catalog.nameIndex) == r
    {
      var s := steps[i];
      var name := s.definition.name;
      var pd := catalog.GetPointNamed(name);
      assert forall a | a in ArraysOf(steps[..i]) :: unchanged(a);
      if i == 0 {
        assert steps[..i] == [];
      }
      assert MessagePoints(steps[..i], catalog.nameIndex) == Ok(points);
      MessagePointsNext(steps, catalog.nameIndex, i);
      if pd.Err? {
        if name !in catalog.nameIndex {
          MessagePointsStops(steps, catalog.nameIndex, i + 1);
        }
        return Err(PointLookup(pd.error));
      }
      var json := StepJson(s, pd.value.IsArray());
      if json.Err? {
        MessagePointsStops(steps, catalog.nameIndex, i + 1);
        return Err(json.error);
      }
      return Ok(points[name := json.value]);
    }

    /**
     * Saves a copy of the current selector block under its block index; later points added
     * to the live block do not reach the copy.
     */
    method SaveSelectorBlock()
      requires Valid() && currentSelectorBlock != null
      modifies this`selectorBlocks
      ensures Valid()
      ensures var k := currentSelectorBlock.blockIndex;
              && selectorBlocks.Keys == old(selectorBlocks).Keys + {k}
              && fresh(selectorBlocks[k]) && selectorBlocks[k] != currentSelectorBlock
              && selectorBlocks[k].points == currentSelectorBlock.points
              && selectorBlocks[k].start == currentSelectorBlock.start && selectorBlocks[k].end == currentSelectorBlock.end
              && forall j | j in selectorBlocks && j != k :: selectorBlocks[j] == old(selectorBlocks)[j]
    {
      var copy := currentSelectorBlock.Copy();
      selectorBlocks := selectorBlocks[currentSelectorBlock.blockIndex := copy];
    }

    /**
     * Sends a step's written value back to the master as its response point, when the step
     * names one.
     */
    method EchoStep(step: Step, value: Unwrapped) returns (out: seq<Instruction>, err: Option<EngineError>)
      requires catalog.Valid()
      modifies catalog`nameIndex, functionDefs`supported
      ensures catalog.Valid()
      ensures step.definition.response.None? ==> out == [] && err.Some?
      ensures err.Some? ==> functionDefs.supported == old(functionDefs.supported)
      ensures err.None? && (forall f | f in functionDefs.functions :: functionDefs.functions[f].supportPointName != step.definition.response) ==>
                functionDefs.supported == old(functionDefs.supported)
      ensures err.None? && (exists f | f in functionDefs.functions :: functionDefs.functions[f].supportPointName == step.definition.response) ==>
                exists f | f in functionDefs.functions && functionDefs.functions[f].supportPointName == step.definition.response ::
                  functionDefs.supported == old(functionDefs.supported)[f := value] && functionDefs.IsSupported(f) == Truthy(value)
      ensures forall i | 0 <= i < |out| :: out[i].Echo? && out[i].update.value == value
      ensures err.None? ==>
                && step.definition.response.Some?
                && |out| == 1 && out[0].update.pointDef.name == step.definition.response.value
                && out[0].update.index == out[0].update.pointDef.index
      ensures old(catalog.nameIndex) == map[] && !UniqueNames(catalog.points) ==>
                out == [] && err.Some? && err.value.PointLookup? && err.value.nameError.DuplicateName?
      ensures (old(catalog.nameIndex) != map[] || UniqueNames(catalog.points)) ==>
                && (step.definition.response.None? ==> err == Some(NoResponsePoint))
                && (step.definition.response.Some? && step.definition.response.value !in catalog.nameIndex ==>
                      out == [] && err == Some(PointLookup(NoPointNamed(step.definition.response.value))))
                && (step.definition.response.Some? && step.definition.response.value in catalog.nameIndex ==>
                      var d := catalog.nameIndex[step.definition.response.value];
                      var u := ApplyPointUpdate(d, d.index, value);
                      && (u.Ok? ==> err.None? && out == EchoAll([u.value]))
                      && (u.Err? ==> out == [] && err == Some(u.error)))
    {
      if step.definition.response.None? {
        var byName := catalog.PointsByName();
        return [], Some(if byName.Err? then PointLookup(byName.error) else NoResponsePoint);
      }
      var rd := catalog.GetPointNamed(step.definition.response.value);
      if rd.Err? {
        return [], Some(PointLookup(rd.error));
      }
      var updates, e := UpdateInputPoint(rd.value, Scalar(value));
      return EchoAll(updates), e;
    }

    /**
     * A PointValue from the master: it is cached; an Operate is then processed further. A
     * Select changes nothing else.
     */
    method ProcessValue(pv: PointValue)
      returns (out: seq<Instruction>, err: Option<EngineError>, ghost after: Prior, ghost arr: PointArray?)
      requires Valid()
      modifies this`currentFunc, this`currentArray, this`currentSelectorBlock, this`selectorBlocks
      modifies catalog`nameIndex, functionDefs`stepIndex, functionDefs`supported, cache
      modifies currentFunc, currentArray, currentSelectorBlock
      ensures Valid()
      ensures cache.Get(pv.pointDef.PointTypeOf(), pv.index) == Some(pv)
      ensures forall key, i | (key, i) != (pv.pointDef.PointTypeOf(), pv.index) ::
                Lookup(cache.values, key, i) == Lookup(old(cache.values), key, i)
      ensures pv.commandType == Select ==>
                && out == [] && err.None?
                && currentFunc == old(currentFunc) && currentArray == old(currentArray)
                && currentSelectorBlock == old(currentSelectorBlock) && selectorBlocks == old(selectorBlocks)
                && (currentFunc != null ==> currentFunc.steps == old(currentFunc.steps))
      ensures err.Some? ==> currentFunc == null
      ensures after == PriorState() && arr == currentArray
      ensures pv.commandType == Operate ==>
                && OperateDone(old(PriorState()), after, old(currentArray), arr, pv, err.None?, out)
                && var j := Joined(old(PriorState()), old(currentArray), pv, arr); j.0.Err? ==> err == Some(j.0.error)
      ensures pv.commandType == Operate && err.None? && pv.pointDef.IsSelectorBlock() && pv.pointDef.shape.saveOnWrite ==>
                && currentSelectorBlock != null && pv.UnwrappedValue() in selectorBlocks
                && selectorBlocks[pv.UnwrappedValue()] != currentSelectorBlock
                && selectorBlocks[pv.UnwrappedValue()].points == currentSelectorBlock.points
      ensures forall b | b in old(selectorBlocks).Values :: b.points == old(b.points)
    {
      cache.Add(pv);
      if pv.commandType == Select {
        return [], None, PriorState(), currentArray;
      }
      out, err, arr := ProcessOperate(pv, old(PriorState()), old(currentArray));
      after := PriorState();
    }

    /**
     * An Operate: the value is added to its Function, which becomes the current one if
     * supported; a save-on-write point saves the selector block; the step is then echoed
     * and published as its action says. Any failure drops the current Function.
     */
    method ProcessOperate(pv: PointValue, ghost before: Prior, ghost cur: PointArray?)
      returns (out: seq<Instruction>, err: Option<EngineError>, ghost arr: PointArray?)
      requires Valid() && before == PriorState() && cur == currentArray
      modifies this`currentFunc, this`currentArray, this`currentSelectorBlock, this`selectorBlocks
      modifies catalog`nameIndex, functionDefs`stepIndex, functionDefs`supported
      modifies currentFunc, currentArray, currentSelectorBlock
      ensures Valid()
      ensures err.Some? ==> currentFunc == null
      ensures arr == currentArray
      ensures OperateDone(before, PriorState(), cur, arr, pv, err.None?, out)
      ensures var j := Joined(before, cur, pv, arr); j.0.Err? ==> err == Some(j.0.error)
      ensures err.None? && pv.pointDef.IsSelectorBlock() && pv.pointDef.shape.saveOnWrite ==>
                && currentSelectorBlock != null && pv.UnwrappedValue() in selectorBlocks
                && selectorBlocks[pv.UnwrappedValue()] != currentSelectorBlock
                && selectorBlocks[pv.UnwrappedValue()].points == currentSelectorBlock.points
      ensures forall b | b in old(selectorBlocks).Values :: b.points == old(b.points)
    {
      out := [];
      var step := UpdateFunctionForPointValue(pv);
      arr := currentArray;
      if step.Err? {
        currentFunc := null;
        return out, Some(step.error), arr;
      }
      out, err := RunStep(pv, currentFunc, step.value, before, cur, arr);
    }

    /**
     * The rest of an Operate once its step is added to `f`: `f` becomes the current Function
     * if supported, a save-on-write point saves the selector block, and the step's actions
     * run. Any failure drops the current Function.
     */
    method RunStep(pv: PointValue, f: Function, step: Step, ghost p: Prior, ghost cur: PointArray?, ghost arr: PointArray?)
      returns (out: seq<Instruction>, err: Option<EngineError>)
      requires Valid() && f == currentFunc && arr == currentArray
      requires var j := Joined(p, cur, pv, arr); j.0 == Ok(step) && f.steps == j.1
      requires var x := OnlyStepNamed(p.functions, pv.Name()); x.Some? && f.definition == x.value.owner
      requires p.supported == functionDefs.supported
      requires pv.pointDef.IsSelectorBlock() ==> currentSelectorBlock != null && currentSelectorBlock.blockIndex == pv.UnwrappedValue()
      modifies this`currentFunc, this`selectorBlocks, catalog`nameIndex, functionDefs`supported
      ensures Valid()
      ensures err.Some? ==> currentFunc == null
      ensures err.None? ==> currentFunc == f && old(functionDefs.IsSupported(f.definition.name))
      ensures (old(functionDefs.IsSupported(f.definition.name))
               && !Echoes(step.definition.action) && !Publishes(step.definition.action)) ==> err.None? && out == []
      ensures OperateDone(p, PriorState(), cur, arr, pv, err.None?, out)
      ensures err.None? && pv.pointDef.IsSelectorBlock() && pv.pointDef.shape.saveOnWrite ==>
                && currentSelectorBlock != null && pv.UnwrappedValue() in selectorBlocks
                && selectorBlocks[pv.UnwrappedValue()] != currentSelectorBlock
                && selectorBlocks[pv.UnwrappedValue()].points == currentSelectorBlock.points
    {
      out := [];
      var unsupported := SetCurrentFunction(f);
      if unsupported.Some? {
        currentFunc := null;
        return out, unsupported;
      }
      if pv.pointDef.IsSelectorBlock() && pv.pointDef.shape.saveOnWrite {
        SaveSelectorBlock();
      }
      out, err := StepActions(step, f, pv.UnwrappedValue());
      if err.Some? {
        currentFunc := null;
      }
    }

    /** The echo and publication a received step's action calls for, in that order. */
    method StepActions(step: Step, f: Function, value: Unwrapped) returns (out: seq<Instruction>, err: Option<EngineError>)
      requires catalog.Valid()
      modifies catalog`nameIndex, functionDefs`supported
      ensures catalog.Valid()
      ensures !Echoes(step.definition.action) && !Publishes(step.definition.action) ==> out == [] && err.None?
      ensures !Echoes(step.definition.action) ==> functionDefs.supported == old(functionDefs.supported)
      ensures || functionDefs.supported == old(functionDefs.supported)
              || exists f | f in functionDefs.functions && functionDefs.functions[f].supportPointName == step.definition.response ::
                   functionDefs.supported == old(functionDefs.supported)[f := value]
      ensures err.None? && Publishes(step.definition.action) ==>
                |out| > 0 && out[|out| - 1].Publish? && out[|out| - 1].message.functionName == f.definition.name
      ensures err.None? && Echoes(step.definition.action) ==> |out| > 0 && out[0].Echo? && out[0].update.value == value
    {
      out, err := [], None;
      if Echoes(step.definition.action) {
        out, err := EchoStep(step, value);
        if err.Some? {
          return;
        }
      }
      if Publishes(step.definition.action) {
        var msg := FunctionMessageFor(step, f);
        if msg.Err? {
          return out, Some(msg.error);
        }
        out := out + [Publish(msg.value)];
      }
    }

    /** Drops a value from the cache once its processing has failed; nothing but the cache changes. */
    method DiscardCachedPointValue(pv: PointValue)
      requires Valid()
      modifies cache
      ensures Valid() && PriorState() == old(PriorState())
      ensures cache.Get(pv.pointDef.PointTypeOf(), pv.index) == None
      ensures forall key, i | (key, i) != (pv.pointDef.PointTypeOf(), pv.index) ::
                Lookup(cache.values, key, i) == Lookup(old(cache.values), key, i)
      ensures forall b | b in selectorBlocks.Values :: b.points == old(b.points)
    {
      cache.Discard(pv);
    }

    /**
     * A PointValue from the master is processed; when that fails, the value is dropped from
     * the cache again and the failure is returned.
     */
    method ProcessOrDiscard(pv: PointValue)
      returns (out: seq<Instruction>, err: Option<EngineError>, ghost after: Prior, ghost arr: PointArray?)
      requires Valid()
      modifies this`currentFunc, this`currentArray, this`currentSelectorBlock, this`selectorBlocks
      modifies catalog`nameIndex, functionDefs`stepIndex, functionDefs`supported, cache
      modifies currentFunc, currentArray, currentSelectorBlock
      ensures Valid()
      ensures after == PriorState() && arr == currentArray
      ensures err.None? ==> cache.Get(pv.pointDef.PointTypeOf(), pv.index) == Some(pv)
      ensures err.Some? ==> currentFunc == null && cache.Get(pv.pointDef.PointTypeOf(), pv.index) == None
      ensures forall key, i | (key, i) != (pv.pointDef.PointTypeOf(), pv.index) ::
                Lookup(cache.values, key, i) == Lookup(old(cache.values), key, i)
      ensures pv.commandType == Select ==> err.None? && out == []
      ensures pv.commandType == Operate ==> OperateDone(old(PriorState()), after, old(currentArray), arr, pv, err.None?, out)
      ensures forall b | b in old(selectorBlocks).Values :: b.points == old(b.points)
    {
      out, err, after, arr := ProcessValue(pv);
      if err.Some? {
        DiscardCachedPointValue(pv);
      }
    }

    /**
     * A Select or Operate from the master: a command with no point definition fails and
     * changes nothing; a value whose processing fails is dropped from the cache and the
     * command fails; otherwise the command succeeds. A Select only caches its value.
     */
    method ProcessPointValue(commandType: CommandType, command: Command, index: int)
      returns (status: CommandStatus, out: seq<Instruction>, ghost err: Option<EngineError>, ghost after: Prior, ghost arr: PointArray?)
      requires Valid()
      modifies this`currentFunc, this`currentArray, this`currentSelectorBlock, this`selectorBlocks
      modifies catalog`nameIndex, functionDefs`stepIndex, functionDefs`supported, cache
      modifies currentFunc, currentArray, currentSelectorBlock
      ensures Valid()
      ensures after == PriorState() && arr == currentArray
      ensures var pv := old(PointValueForCommand(commandType, command, index));
              var key := Some(CommandPointType(command));
              && (pv.Err? ==>
                    && status == DownstreamFail && out == [] && cache.values == old(cache.values)
                    && currentFunc == old(currentFunc) && currentArray == old(currentArray)
                    && currentSelectorBlock == old(currentSelectorBlock) && selectorBlocks == old(selectorBlocks))
              && (pv.Ok? && status == Success ==> cache.Get(key, index) == Some(pv.value))
              && (pv.Ok? && status == DownstreamFail ==> currentFunc == null && cache.Get(key, index) == None)
              && (pv.Ok? ==> forall k, i | (k, i) != (key, index) :: Lookup(cache.values, k, i) == Lookup(old(cache.values), k, i))
              && (pv.Ok? && commandType == Select ==> status == Success && out == [])
              && (pv.Ok? ==> (status == Success <==> err.None?))
              && (pv.Ok? && commandType == Operate ==> OperateDone(old(PriorState()), after, old(currentArray), arr, pv.value, err.None?, out))
      ensures forall b | b in old(selectorBlocks).Values :: b.points == old(b.points)
    {
      var pv := PointValueForCommand(commandType, command, index);
      if pv.Err? {
        return DownstreamFail, [], None, PriorState(), currentArray;
      }
      var e;
      out, e, after, arr := ProcessOrDiscard(pv.value);
      err := e;
      status := if e.None? then Success else DownstreamFail;
    }
  }
}
