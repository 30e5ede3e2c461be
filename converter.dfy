/**
 * The offline converter that turns the MESA-ESS point and function worksheets into point
 * and function definitions: point index allocation, the loading of worksheet rows into
 * points, the creation of the extra output points functions need, the conversion of
 * function worksheet rows into steps, and the two whole-catalog validations.
 */
module DataConverter {
  import opened Wrappers
  import opened ConverterConstants
  import opened PyText

  /** A converted point definition. */
  datatype ConvPoint = ConvPoint(
    dataType: DataType,
    index: int,
    name: string,
    group: int,
    variation: int,
    description: Option<string>,
    units: Option<string>,
    kind: Option<PointKind>,
    columns: seq<string>,
    timesRepeated: Option<int>,
    selectorStart: Option<int>,
    selectorEnd: Option<int>)
  {
    predicate IsArray()
    {
      kind == Some(ArrayKind)
    }

    /** The last index the point occupies as index allocation reckons it: an array reserves MaxArrayPoints rows per column. */
    function ReservedEnd(): int
    {
      if IsArray() then index + |columns| * MaxArrayPoints - 1 else index
    }
  }

  /** A new output point of a data type, with the type's group and variation and nothing else. */
  function ExtraPoint(dt: DataType, index: int, name: string): ConvPoint
  {
    ConvPoint(dt, index, name, DefaultGroup(dt), DefaultVariation(dt), None, None, None, [], None, None, None)
  }

  /** The cells of a point worksheet row that the converter reads. */
  datatype SheetRow = SheetRow(pointIndex: string, uniqueString: string, description: string, units: string)

  /** The cells of a function worksheet row; the flag and function code columns may be absent. */
  datatype StepRow = StepRow(step: string, iecName: string, description: string, flag: Option<string>, fcodes: Option<string>)

  /** A converted function step. */
  datatype ConvStep = ConvStep(
    stepNumber: int,
    pointName: string,
    description: string,
    optional: Option<string>,
    fcodes: Option<seq<string>>,
    action: Option<string>)

  /** A converted function. */
  datatype ConvFunction = ConvFunction(name: string, reference: Option<string>, supportPoint: Option<string>, steps: seq<ConvStep>)

  /** The points added by hand for a function that has no worksheet of its own. */
  datatype AddedPoints = AddedPoints(
    editSelectorName: Option<string>,
    otherPointNames: seq<string>,
    arrayPointName: Option<string>,
    arrayColumns: seq<string>)

  datatype ConvError =
    | DuplicatePoint(name: string)
    | BadIndexPrefix(prefix: string)
    | BadInteger(text: string)
    | BadOptionalFlag(flag: string)
    | UnknownFunctionCode(code: string)
    | DuplicateIndex(index: int, dataType: DataType)
    | DuplicatePoints(point: ConvPoint, pointByName: ConvPoint)
    | DuplicateUse(pointName: string, functionName: string, otherFunctionName: string)
    | InputPointInFunction(pointName: string, functionName: string)

  /** The errors raised as ValueError, which row loading catches; an unknown function code is a KeyError. */
  predicate IsValueError(e: ConvError)
  {
    !e.UnknownFunctionCode?
  }

  // ---------------------------------------------------------------- index allocation

  /**
   * The highest index in use for a data type, as the scan over the points in catalog order
   * reckons it: a point counts only when its index exceeds the highest so far, and an array
   * then counts up to the end of its reserved rows.
   */
  function HighWater(points: seq<ConvPoint>, dt: DataType): (r: int)
    ensures r >= 0
  {
    if points == [] then 0 else Raise(HighWater(points[..|points| - 1], dt), points[|points| - 1], dt)
  }

  /** One step of the scan: the mark after looking at one more point. */
  function Raise(prev: int, pt: ConvPoint, dt: DataType): (r: int)
    ensures r >= prev
  {
    if pt.dataType == dt && pt.index > prev then pt.ReservedEnd() else prev
  }

  /** The scan of a prefix one point longer. */
  lemma HighWaterSnoc(points: seq<ConvPoint>, i: nat, dt: DataType)
    requires i < |points|
    ensures HighWater(points[..i + 1], dt) == Raise(HighWater(points[..i], dt), points[i], dt)
  {
    assert points[..i + 1][..i] == points[..i];
  }

  /** Every array of the catalog has at least one column. */
  predicate ArraysHaveColumns(points: seq<ConvPoint>)
  {
    forall k | 0 <= k < |points| :: points[k].IsArray() ==> |points[k].columns| > 0
  }

  /** No point of the data type has an index above the high-water mark. */
  lemma {:induction false} HighWaterBounds(points: seq<ConvPoint>, dt: DataType)
    requires ArraysHaveColumns(points)
    ensures forall k | 0 <= k < |points| && points[k].dataType == dt :: points[k].index <= HighWater(points, dt)
  {
    if points != [] {
      var front := points[..|points| - 1];
      var last := points[|points| - 1];
      assert ArraysHaveColumns(front) by {
        forall k | 0 <= k < |front| ensures front[k] == points[k] { }
      }
      HighWaterBounds(front, dt);
      var prev := HighWater(front, dt);
      assert HighWater(points, dt) == Raise(prev, last, dt);
      assert last.IsArray() ==> |last.columns| > 0;
      assert last.dataType == dt ==> last.index <= Raise(prev, last, dt);
      forall k | 0 <= k < |front| && points[k].dataType == dt
        ensures points[k].index <= HighWater(points, dt)
      {
        assert points[k] == front[k];
      }
    }
  }

  /** The high-water mark is 0, or the end of some point of the data type. */
  lemma {:induction false} HighWaterAttained(points: seq<ConvPoint>, dt: DataType)
    ensures HighWater(points, dt) == 0
            || exists k | 0 <= k < |points| :: points[k].dataType == dt && points[k].ReservedEnd() == HighWater(points, dt)
  {
    if points != [] {
      var front := points[..|points| - 1];
      HighWaterAttained(front, dt);
      assert HighWater(points, dt) == Raise(HighWater(front, dt), points[|points| - 1], dt);
      if HighWater(points, dt) != HighWater(front, dt) {
        var last := |points| - 1;
        assert points[last].dataType == dt && points[last].ReservedEnd() == HighWater(points, dt);
      } else if HighWater(front, dt) != 0 {
        var k :| 0 <= k < |front| && front[k].dataType == dt && front[k].ReservedEnd() == HighWater(front, dt);
        assert points[k] == front[k];
      }
    }
  }

  /**
   * The points of a data type come in increasing order, each past the reserved rows of every
   * earlier one, at non-negative indexes, and no array sits at index 0.
   */
  predicate LaidOut(points: seq<ConvPoint>, dt: DataType)
  {
    && (forall j | 0 <= j < |points| && points[j].dataType == dt ::
          points[j].index >= 0 && (points[j].IsArray() ==> points[j].index > 0))
    && (forall i, j | 0 <= i < j < |points| && points[i].dataType == dt && points[j].dataType == dt ::
          points[i].ReservedEnd() < points[j].index)
  }

  /** For a laid-out catalog the high-water mark is the end of the data type's last point. */
  lemma {:induction false} HighWaterOfLaidOut(points: seq<ConvPoint>, dt: DataType, last: nat)
    requires LaidOut(points, dt)
    requires last < |points| && points[last].dataType == dt
    requires forall j | last < j < |points| :: points[j].dataType != dt
    ensures HighWater(points, dt) == points[last].ReservedEnd()
  {
    var front := points[..|points| - 1];
    assert LaidOut(front, dt) by {
      forall j | 0 <= j < |front| ensures front[j] == points[j] { }
    }
    if last < |points| - 1 {
      HighWaterOfLaidOut(front, dt, last);
      assert front[last] == points[last];
    } else {
      var earlier := LastOfType(front, dt);
      if earlier.Some? {
        HighWaterOfLaidOut(front, dt, earlier.value);
        assert front[earlier.value] == points[earlier.value];
        assert points[earlier.value].ReservedEnd() < points[last].index;
      } else {
        HighWaterNone(front, dt);
      }
    }
  }

  /** The position of the last point of a data type. */
  function LastOfType(points: seq<ConvPoint>, dt: DataType): (r: Option<nat>)
    ensures r.Some? ==> r.value < |points| && points[r.value].dataType == dt
                        && forall j | r.value < j < |points| :: points[j].dataType != dt
    ensures r.None? ==> forall j | 0 <= j < |points| :: points[j].dataType != dt
  {
    if points == [] then None
    else if points[|points| - 1].dataType == dt then Some(|points| - 1)
    else LastOfType(points[..|points| - 1], dt)
  }

  /** Without points of the data type the high-water mark is 0. */
  lemma {:induction false} HighWaterNone(points: seq<ConvPoint>, dt: DataType)
    requires forall j | 0 <= j < |points| :: points[j].dataType != dt
    ensures HighWater(points, dt) == 0
  {
    if points != [] {
      var front := points[..|points| - 1];
      assert forall j | 0 <= j < |front| :: front[j] == points[j];
      HighWaterNone(front, dt);
    }
  }

  // ---------------------------------------------------------------- worksheet rows

  /** The index of a point worksheet row: the integer after a prefix that names the data type. */
  function PointIndexOf(dt: DataType, cell: string): (r: Result<int, ConvError>)
    ensures var text := ScrubNewlines(cell);
            && (r.Ok? <==> |text| >= 2 && text[..2] == DataTypeName(dt) && ParseInt(text[2..]).Some?)
            && (r.Ok? ==> text == DataTypeName(dt) + text[2..] && ParseInt(text[2..]) == Some(r.value))
  {
    var text := ScrubNewlines(cell);
    var prefix := if |text| >= 2 then text[..2] else text;
    if prefix != DataTypeName(dt) then Err(BadIndexPrefix(prefix))
    else
      var digits := text[2..];
      var n := ParseInt(digits);
      if n.None? then Err(BadInteger(digits)) else Ok(n.value)
  }

  /** The name of a point worksheet row; a missing or meaningless one is made from the data type and the index cell. */
  function PointNameOf(dt: DataType, row: SheetRow): (r: string)
    ensures var name := ScrubNewlines(row.uniqueString);
            if |name| < 1 || name in BadPointNames then r == DataTypeName(dt) + "." + row.pointIndex else r == name
    ensures r != [] && r !in BadPointNames
  {
    var name := ScrubNewlines(row.uniqueString);
    if |name| < 1 || name in BadPointNames then
      var invented := DataTypeName(dt) + "." + row.pointIndex;
      assert invented[0] == 'A' || invented[0] == 'B';
      assert forall b | b in BadPointNames :: b[0] != 'A' && b[0] != 'B';
      invented
    else name
  }

  /**
   * The point a worksheet row defines: nothing when the row's override skips it; an error only
   * when the row gives its own index and that is malformed; otherwise a point of the worksheet's
   * data type, group and variation, under the override's or a meaningful name, with the
   * override's or the cell's index and the row's own description when it has one.
   */
  function RowPoint(dt: DataType, rowNum: int, row: SheetRow): (r: Result<Option<ConvPoint>, ConvError>)
    ensures var o := ExtraPointData(dt, rowNum);
            && (o.skip <==> r == Ok(None))
            && (r.Err? <==> !o.skip && o.index.None? && PointIndexOf(dt, row.pointIndex).Err?)
            && (r.Ok? && r.value.Some? ==>
                  var p := r.value.value;
                  && p.dataType == dt && p.group == DefaultGroup(dt) && p.variation == DefaultVariation(dt)
                  && (o.index.Some? ==> p.index == o.index.value)
                  && (o.index.None? ==> |ScrubNewlines(row.pointIndex)| >= 2 && ParseInt(ScrubNewlines(row.pointIndex)[2..]) == Some(p.index))
                  && (o.name.None? ==> p.name != [] && p.name !in BadPointNames)
                  && (row.description != "" ==> p.description == Some(row.description)))
  {
    var o := ExtraPointData(dt, rowNum);
    if o.skip then Ok(None)
    else
      var index := if o.index.Some? then Ok(o.index.value) else PointIndexOf(dt, row.pointIndex);
      if index.Err? then Err(index.error)
      else
        Ok(Some(ConvPoint(
          dt, index.value,
          if o.name.Some? then o.name.value else PointNameOf(dt, row),
          DefaultGroup(dt), DefaultVariation(dt),
          if row.description != "" then Some(row.description) else o.description,
          if row.units != "" then Some(row.units) else None,
          o.kind, if o.columns.Some? then o.columns.value else [], o.timesRepeated,
          o.selectorStart, o.selectorEnd)))
  }

  // ---------------------------------------------------------------- function worksheet rows

  /** The function codes a list of code names stands for, in order, blank codes dropped; the first unknown name is an error. */
  function MapCodes(names: seq<string>): (r: Result<seq<string>, ConvError>)
    ensures r.Ok? <==> forall k | 0 <= k < |names| :: FcodeMap(names[k]).Some?
    ensures r.Err? ==> r.error.UnknownFunctionCode? && r.error.code in names && FcodeMap(r.error.code).None?
    ensures r.Ok? ==> |r.value| <= |names|
                      && forall c | c in r.value :: c == "direct_operate" || c == "operate" || c == "select"
  {
    if names == [] then Ok([])
    else
      var code := FcodeMap(names[0]);
      if code.None? then Err(UnknownFunctionCode(names[0]))
      else
        var rest := MapCodes(names[1..]);
        if rest.Err? then
          assert rest.error.code in names;
          Err(rest.error)
        else
          assert forall k | 1 <= k < |names| :: names[k] == names[1..][k - 1];
          Ok(if code.value.Some? then [code.value.value] + rest.value else rest.value)
  }

  /** The optional flag of a step: M, O or C after stripping, none when blank; anything else is an error. */
  function OptionalFlag(cell: Option<string>): (r: Result<Option<string>, ConvError>)
    ensures r.Err? <==> cell.Some? && RStrip(cell.value) != "" && RStrip(cell.value) !in ["M", "O", "C"]
    ensures r.Ok? && r.value.Some? ==> cell.Some? && r.value.value in ["M", "O", "C"] && r.value.value == RStrip(cell.value)
    ensures r.Ok? && r.value.None? ==> cell.None? || RStrip(cell.value) == ""
  {
    if cell.None? then Ok(None)
    else
      var flag := RStrip(cell.value);
      if flag == "" then Ok(None)
      else if flag in ["M", "O", "C"] then
        assert flag == "M" || flag == "O" || flag == "C";
        assert flag[..1] == flag;
        Ok(Some(flag[..1]))
      else Err(BadOptionalFlag(flag))
  }

  /**
   * The function codes saved with a step: those of the comma-separated cell, kept only when
   * there is more than one or one of them is a Select, as a lone Operate is the default.
   */
  function SavedFcodes(cell: Option<string>): (r: Result<Option<seq<string>>, ConvError>)
    ensures cell.None? || cell.value == "" ==> r == Ok(None)
    ensures cell.Some? && cell.value != "" ==>
              (r.Err? <==> MapCodes(Split(cell.value, ',')).Err?)
              && (r.Ok? ==> var codes := MapCodes(Split(cell.value, ',')).value;
                            (r.value.Some? <==> |codes| > 1 || "select" in codes)
                            && (r.value.Some? ==> r.value.value == codes))
  {
    if cell.None? || cell.value == "" then Ok(None)
    else
      var codes := MapCodes(Split(cell.value, ','));
      if codes.Err? then Err(codes.error)
      else if |codes.value| > 1 || "select" in codes.value then Ok(Some(codes.value))
      else Ok(None)
  }

  /**
   * The point name a function step refers to: the function's extra name for the step, which
   * overrides the sheet, or else the name cell without its trailing whitespace.
   */
  function StepPointName(functionName: string, stepNumber: int, row: StepRow): (r: string)
    ensures var extra := ExtraDataForFunctionStep(functionName, stepNumber, "name");
            extra.Some? ==> r == extra.value
    ensures ExtraDataForFunctionStep(functionName, stepNumber, "name").None? ==>
              && |r| <= |row.iecName| && r == row.iecName[..|r|] && (r == [] || !IsSpace(r[|r| - 1]))
              && forall k | |r| <= k < |row.iecName| :: IsSpace(row.iecName[k])
  {
    var extra := ExtraDataForFunctionStep(functionName, stepNumber, "name");
    if extra.Some? then extra.value else RStrip(row.iecName)
  }

  /** The action of a step: the function's extra action, when not blank. */
  function StepAction(functionName: string, stepNumber: int): (r: Option<string>)
    ensures r.Some? ==> r.value != "" && r == ExtraDataForFunctionStep(functionName, stepNumber, "action")
  {
    var action := ExtraDataForFunctionStep(functionName, stepNumber, "action");
    if action.Some? && action.value != "" then action else None
  }

  // ---------------------------------------------------------------- whole-catalog properties

  /** Within each data type, no two points share an index. */
  predicate IndexesUnique(points: seq<ConvPoint>)
  {
    forall i, j | 0 <= i < j < |points| :: points[i].dataType == points[j].dataType ==> points[i].index != points[j].index
  }

  /** No two points share a name. */
  predicate NamesUnique(points: seq<ConvPoint>)
  {
    forall i, j | 0 <= i < j < |points| :: points[i].name != points[j].name
  }

  /** The name index holds, for each name, the position of the first point with that name. */
  predicate IndexesFirst(points: seq<ConvPoint>, byName: map<string, nat>)
  {
    && (forall n | n in byName :: byName[n] < |points| && points[byName[n]].name == n)
    && (forall i | 0 <= i < |points| :: NameIndexed(points, byName, i))
  }

  /** The point at a position has its name indexed, at that position or an earlier one. */
  predicate NameIndexed(points: seq<ConvPoint>, byName: map<string, nat>, i: int)
    requires 0 <= i < |points|
  {
    points[i].name in byName && byName[points[i].name] <= i
  }

  /** Where the name index leads from a point: the first point with its name. */
  function FirstOfName(points: seq<ConvPoint>, byName: map<string, nat>, i: int): (r: nat)
    requires IndexesFirst(points, byName) && 0 <= i < |points|
    ensures r <= i && points[r].name == points[i].name
  {
    assert NameIndexed(points, byName, i);
    byName[points[i].name]
  }

  /** Every point's name leads, through the name index, to a point of the same data type and index. */
  predicate NamesResolve(points: seq<ConvPoint>, byName: map<string, nat>)
    requires IndexesFirst(points, byName)
  {
    forall i | 0 <= i < |points| ::
      points[FirstOfName(points, byName, i)].dataType == points[i].dataType
      && points[FirstOfName(points, byName, i)].index == points[i].index
  }

  /** The same check comparing indexes only, whatever the data types. */
  predicate NamesResolveAsWritten(points: seq<ConvPoint>, byName: map<string, nat>)
    requires IndexesFirst(points, byName)
  {
    forall i | 0 <= i < |points| :: points[FirstOfName(points, byName, i)].index == points[i].index
  }

  /** Given unique indexes, the name check passes exactly when names are unique. */
  lemma NamesResolveIffUnique(points: seq<ConvPoint>, byName: map<string, nat>)
    requires IndexesFirst(points, byName) && IndexesUnique(points)
    ensures NamesResolve(points, byName) <==> NamesUnique(points)
  {
    if NamesUnique(points) {
      forall i | 0 <= i < |points| ensures FirstOfName(points, byName, i) == i {
        var k := FirstOfName(points, byName, i);
        assert points[k].name == points[i].name;
      }
    } else {
      var i, j :| 0 <= i < j < |points| && points[i].name == points[j].name;
      var k := FirstOfName(points, byName, j);
      assert NameIndexed(points, byName, i);
      assert k <= i;
      assert points[k].dataType == points[j].dataType ==> points[k].index != points[j].index;
    }
  }

  /** Two points of different data types sharing a name and an index pass the index-only check. */
  lemma DuplicateNameAcceptedAsWritten()
    ensures var points := [ExtraPoint(AI, 5, "X"), ExtraPoint(BI, 5, "X")];
            var byName := map["X" := 0];
            && IndexesFirst(points, byName) && IndexesUnique(points)
            && NamesResolveAsWritten(points, byName)
            && !NamesUnique(points) && !NamesResolve(points, byName)
  {
    var points := [ExtraPoint(AI, 5, "X"), ExtraPoint(BI, 5, "X")];
    var byName := map["X" := 0];
    assert NameIndexed(points, byName, 0) && NameIndexed(points, byName, 1);
    assert FirstOfName(points, byName, 0) == 0 && FirstOfName(points, byName, 1) == 0;
    assert points[0].name == points[1].name;
    assert points[FirstOfName(points, byName, 1)].dataType != points[1].dataType;
  }

  /** No two steps of any functions, or of one function, use the same point. */
  predicate UsesDistinct(defs: map<string, ConvFunction>)
  {
    forall f1, k1, f2, k2 |
      f1 in defs && f2 in defs && 0 <= k1 < |defs[f1].steps| && 0 <= k2 < |defs[f2].steps| && (f1, k1) != (f2, k2) ::
      defs[f1].steps[k1].pointName != defs[f2].steps[k2].pointName
  }

  /** Every step's point is known by name. */
  predicate StepPointsKnown(defs: map<string, ConvFunction>, byName: map<string, nat>)
  {
    forall f, k | f in defs && 0 <= k < |defs[f].steps| :: defs[f].steps[k].pointName in byName
  }

  /** Every step's point is an output point. */
  predicate StepsUseOutputs(defs: map<string, ConvFunction>, points: seq<ConvPoint>, byName: map<string, nat>)
    requires IndexesFirst(points, byName) && StepPointsKnown(defs, byName)
  {
    forall f, k | f in defs && 0 <= k < |defs[f].steps| :: IsOutputGroup(points[byName[defs[f].steps[k].pointName]].group)
  }

  /** The catalog grew: old points stay where they were and old names keep their positions. */
  predicate Extends(oldPoints: seq<ConvPoint>, oldByName: map<string, nat>, points: seq<ConvPoint>, byName: map<string, nat>)
  {
    && |oldPoints| <= |points| && points[..|oldPoints|] == oldPoints
    && forall n | n in oldByName :: n in byName && byName[n] == oldByName[n]
  }

  /** Whether the hand-made points include a selector block, and an array. */
  predicate HasSelector(points: AddedPoints)
  {
    points.editSelectorName.Some? && points.editSelectorName.value != ""
  }

  predicate HasArray(points: AddedPoints)
  {
    points.arrayPointName.Some? && points.arrayPointName.value != ""
  }

  /** The names of the hand-made points, in the order they are created. */
  function AddedNames(points: AddedPoints): seq<string>
  {
    (if HasSelector(points) then [points.editSelectorName.value] else [])
    + points.otherPointNames
    + (if HasArray(points) then [points.arrayPointName.value] else [])
  }

  /** A point known before the catalog grew is still the one its name leads to. */
  lemma ExtendsKeepsPoint(oldPoints: seq<ConvPoint>, oldByName: map<string, nat>, points: seq<ConvPoint>, byName: map<string, nat>, n: string)
    requires Extends(oldPoints, oldByName, points, byName) && IndexesFirst(oldPoints, oldByName) && n in oldByName
    ensures n in byName && byName[n] < |oldPoints| && points[byName[n]] == oldPoints[oldByName[n]]
  {
    assert points[..|oldPoints|][oldByName[n]] == points[oldByName[n]];
  }

  lemma ExtendsTransitive(p0: seq<ConvPoint>, b0: map<string, nat>, p1: seq<ConvPoint>, b1: map<string, nat>, p2: seq<ConvPoint>, b2: map<string, nat>)
    requires Extends(p0, b0, p1, b1) && Extends(p1, b1, p2, b2)
    ensures Extends(p0, b0, p2, b2)
  {
    assert p2[..|p0|] == p2[..|p1|][..|p0|];
  }

  /** Growing the catalog keeps every step's point known and an output point. */
  lemma StepsUseOutputsExtend(defs: map<string, ConvFunction>, oldPoints: seq<ConvPoint>, oldByName: map<string, nat>,
                              points: seq<ConvPoint>, byName: map<string, nat>)
    requires IndexesFirst(oldPoints, oldByName) && IndexesFirst(points, byName)
    requires Extends(oldPoints, oldByName, points, byName)
    requires StepPointsKnown(defs, oldByName) && StepsUseOutputs(defs, oldPoints, oldByName)
    ensures StepPointsKnown(defs, byName) && StepsUseOutputs(defs, points, byName)
  {
    forall f, k | f in defs && 0 <= k < |defs[f].steps|
      ensures defs[f].steps[k].pointName in byName
      ensures IsOutputGroup(points[byName[defs[f].steps[k].pointName]].group)
    {
      ExtendsKeepsPoint(oldPoints, oldByName, points, byName, defs[f].steps[k].pointName);
    }
  }

  /** Every step's point is known by name and is an output point. */
  predicate StepsResolvedIn(steps: seq<ConvStep>, points: seq<ConvPoint>, byName: map<string, nat>)
  {
    forall k | 0 <= k < |steps| ::
      steps[k].pointName in byName && byName[steps[k].pointName] < |points|
      && IsOutputGroup(points[byName[steps[k].pointName]].group)
  }

  lemma StepsResolvedSnoc(steps: seq<ConvStep>, s: ConvStep, points: seq<ConvPoint>, byName: map<string, nat>)
    requires StepsResolvedIn(steps, points, byName)
    requires s.pointName in byName && byName[s.pointName] < |points| && IsOutputGroup(points[byName[s.pointName]].group)
    ensures StepsResolvedIn(steps + [s], points, byName)
  {
    var all := steps + [s];
    forall k | 0 <= k < |all|
      ensures all[k].pointName in byName && byName[all[k].pointName] < |points|
      ensures IsOutputGroup(points[byName[all[k].pointName]].group)
    {
      if k < |steps| {
        assert all[k] == steps[k];
      }
    }
  }

  lemma StepsResolvedExtend(steps: seq<ConvStep>, oldPoints: seq<ConvPoint>, oldByName: map<string, nat>,
                            points: seq<ConvPoint>, byName: map<string, nat>)
    requires IndexesFirst(oldPoints, oldByName) && Extends(oldPoints, oldByName, points, byName)
    requires StepsResolvedIn(steps, oldPoints, oldByName)
    ensures StepsResolvedIn(steps, points, byName)
  {
    forall k | 0 <= k < |steps|
      ensures steps[k].pointName in byName && byName[steps[k].pointName] < |points|
      ensures IsOutputGroup(points[byName[steps[k].pointName]].group)
    {
      ExtendsKeepsPoint(oldPoints, oldByName, points, byName, steps[k].pointName);
    }
  }

  /** New Analog Output points under the given names at consecutive indexes from the first. */
  function ExtraRun(first: int, names: seq<string>): (r: seq<ConvPoint>)
    ensures |r| == |names|
    ensures forall k | 0 <= k < |names| :: r[k] == ExtraPoint(AO, first + k, names[k])
  {
    seq(|names|, k requires 0 <= k < |names| => ExtraPoint(AO, first + k, names[k]))
  }

  lemma UpdateInRun<T>(a: seq<T>, run: seq<T>, x: T)
    requires run != []
    ensures (a + run)[|a| := x] == a + run[0 := x]
  {
  }

  lemma ConcatAssoc<T>(a: seq<T>, b: seq<T>, c: seq<T>, d: seq<T>)
    ensures a + (b + c + d) == a + b + c + d
  {
  }

  /** The catalog after the leading points and then the array head is the catalog before plus the open run. */
  lemma OpenRunParts(points: AddedPoints, first: int, before: seq<ConvPoint>, lead: seq<ConvPoint>, after: seq<ConvPoint>)
    requires var head := SelectorHead(points, first);
             lead == before + head + ExtraRun(first + |head|, points.otherPointNames)
    requires after == lead + ArrayHead(points, first + |SelectorHead(points, first)| + |points.otherPointNames|)
    ensures after == before + OpenRun(points, first)
  {
    var head := SelectorHead(points, first);
    ConcatAssoc(before, head, ExtraRun(first + |head|, points.otherPointNames),
                ArrayHead(points, first + |head| + |points.otherPointNames|));
  }

  /** Two runs of Analog Output allocations, of h and then n indexes, advance the next index by h + n. */
  lemma NextAfterRuns(m0: map<DataType, int>, m1: map<DataType, int>, m2: map<DataType, int>, first: int, h: nat, n: nat)
    requires h == 0 ==> m1 == m0
    requires h > 0 ==> m1 == m0[AO := first + h]
    requires n == 0 ==> m2 == m1
    requires n > 0 ==> m2 == m1[AO := first + h + n]
    ensures h + n == 0 ==> m2 == m0
    ensures h + n > 0 ==> m2 == m0[AO := first + h + n]
  {
    if h > 0 && n > 0 {
      assert m0[AO := first + h][AO := first + h + n] == m0[AO := first + h + n];
    }
  }

  /** A run one name longer is the run followed by the next point. */
  lemma ExtraRunNext(before: seq<ConvPoint>, first: int, names: seq<string>, i: nat)
    requires i < |names|
    ensures before + ExtraRun(first, names[..i + 1]) == before + ExtraRun(first, names[..i]) + [ExtraPoint(AO, first + i, names[i])]
  {
    assert ExtraRun(first, names[..i + 1]) == ExtraRun(first, names[..i]) + [ExtraPoint(AO, first + i, names[i])];
  }

  /** The last index a function's hand-made points reserve: past the array's rows when there is an array. */
  function AddedEnd(points: AddedPoints, first: int): int
  {
    first + |AddedNames(points)| - 1 + (if HasArray(points) then 2 * MaxArrayPoints - 1 else 0)
  }

  /** The selector block head a function's hand-made points start with, if they have one; its range is set last. */
  function SelectorHead(points: AddedPoints, first: int): (r: seq<ConvPoint>)
    ensures |r| == if HasSelector(points) then 1 else 0
  {
    if HasSelector(points) then [ExtraPoint(AO, first, points.editSelectorName.value).(kind := Some(SelectorBlockKind))] else []
  }

  /** The array head a function's hand-made points end with, if they have one. */
  function ArrayHead(points: AddedPoints, index: int): (r: seq<ConvPoint>)
    ensures |r| == if HasArray(points) then 1 else 0
  {
    if HasArray(points) then
      [ExtraPoint(AO, index, points.arrayPointName.value).(
         kind := Some(ArrayKind), columns := points.arrayColumns, timesRepeated := Some(MaxArrayPoints))]
    else []
  }

  /** The hand-made points as created, before the selector block's range is set. */
  function OpenRun(points: AddedPoints, first: int): (r: seq<ConvPoint>)
    ensures |r| == |AddedNames(points)|
  {
    var selector := SelectorHead(points, first);
    selector + ExtraRun(first + |selector|, points.otherPointNames)
      + ArrayHead(points, first + |selector| + |points.otherPointNames|)
  }

  /**
   * The points created for a function without a worksheet, from the first free Analog Output
   * index: the selector block head, the other points, the array head. The selector block
   * spans to the last index reserved; its start reads None when no Analog Output index had
   * been allocated before.
   */
  function AddedRun(points: AddedPoints, first: int, known: bool): seq<ConvPoint>
  {
    var run := OpenRun(points, first);
    if HasSelector(points) then
      run[0 := run[0].(selectorStart := if known then Some(first) else None, selectorEnd := Some(AddedEnd(points, first)))]
    else run
  }

  /**
   * The hand-made points are Analog Outputs named in creation order at consecutive indexes.
   * The selector block, when there is one, comes first and spans every one of them, and the
   * rows an array reserves end exactly at its last index.
   */
  lemma AddedRunLayout(points: AddedPoints, first: int, known: bool)
    ensures var run := AddedRun(points, first, known);
            var names := AddedNames(points);
            && |run| == |names|
            && (forall k | 0 <= k < |run| ::
                  && run[k].dataType == AO && run[k].group == DefaultGroup(AO)
                  && run[k].index == first + k && run[k].name == names[k]
                  && first <= run[k].index <= AddedEnd(points, first))
            && (HasSelector(points) ==>
                  && run[0].kind == Some(SelectorBlockKind)
                  && run[0].selectorStart == (if known then Some(run[0].index) else None)
                  && run[0].selectorEnd == Some(AddedEnd(points, first)))
            && (HasArray(points) ==>
                  && run[|run| - 1].IsArray() && run[|run| - 1].columns == points.arrayColumns
                  && (|points.arrayColumns| == 2 ==> run[|run| - 1].ReservedEnd() == AddedEnd(points, first)))
  {
    var run := AddedRun(points, first, known);
    var names := AddedNames(points);
    var s := if HasSelector(points) then 1 else 0;
    var others := points.otherPointNames;
    forall k | 0 <= k < |run|
      ensures run[k].dataType == AO && run[k].group == DefaultGroup(AO)
      ensures run[k].index == first + k && run[k].name == names[k]
    {
      if k < s {
        assert run[k].name == names[k];
      } else if k < s + |others| {
        assert run[k] == ExtraPoint(AO, first + s + (k - s), others[k - s]);
        assert names[k] == others[k - s];
      } else {
        assert names[k] == points.arrayPointName.value;
      }
    }
  }

  // ---------------------------------------------------------------- validation

  /** No two points of one data type share an index. */
  predicate IndexesUniqueFor(points: seq<ConvPoint>, dt: DataType)
  {
    forall i, j | 0 <= i < j < |points| && points[i].dataType == dt && points[j].dataType == dt ::
      points[i].index != points[j].index
  }

  /** Unique indexes are unique indexes in each data type. */
  lemma IndexesUniqueByType(points: seq<ConvPoint>)
    ensures IndexesUnique(points) <==>
            IndexesUniqueFor(points, AI) && IndexesUniqueFor(points, AO) && IndexesUniqueFor(points, BI) && IndexesUniqueFor(points, BO)
  {
    if IndexesUniqueFor(points, AI) && IndexesUniqueFor(points, AO) && IndexesUniqueFor(points, BI) && IndexesUniqueFor(points, BO) {
      forall i, j | 0 <= i < j < |points| && points[i].dataType == points[j].dataType
        ensures points[i].index != points[j].index
      {
        assert IndexesUniqueFor(points, points[i].dataType);
      }
    }
  }

  /** A point's name is used by a step of the function. */
  predicate UsedBy(defs: map<string, ConvFunction>, f: string, name: string)
  {
    f in defs && exists k | 0 <= k < |defs[f].steps| :: defs[f].steps[k].pointName == name
  }

  /** Each step of the given functions is recorded as the one use of its point name. */
  predicate UsesRecorded(defs: map<string, ConvFunction>, done: set<string>, usedAt: map<string, (string, nat)>)
  {
    forall f, k | f in done && f in defs && 0 <= k < |defs[f].steps| ::
      defs[f].steps[k].pointName in usedAt && usedAt[defs[f].steps[k].pointName] == (f, k)
  }

  /** Every recorded use is a step of a function, and uses the recorded name. */
  predicate UsesReal(defs: map<string, ConvFunction>, usedAt: map<string, (string, nat)>)
  {
    forall n | n in usedAt ::
      usedAt[n].0 in defs && usedAt[n].1 < |defs[usedAt[n].0].steps| && defs[usedAt[n].0].steps[usedAt[n].1].pointName == n
  }

  /** The steps before k of a function are each recorded as their point name's use. */
  predicate StepsRecorded(steps: seq<ConvStep>, usedAt: map<string, (string, nat)>, f: string, k: nat)
  {
    forall j | 0 <= j < k && j < |steps| :: steps[j].pointName in usedAt && usedAt[steps[j].pointName] == (f, j)
  }

  lemma StepsRecordedNext(steps: seq<ConvStep>, usedAt: map<string, (string, nat)>, f: string, k: nat)
    requires k < |steps| && steps[k].pointName !in usedAt && StepsRecorded(steps, usedAt, f, k)
    ensures StepsRecorded(steps, usedAt[steps[k].pointName := (f, k)], f, k + 1)
  {
  }

  /** Once a function's steps are all recorded, it joins the functions already checked. */
  lemma FunctionRecorded(defs: map<string, ConvFunction>, done: set<string>, usedAt: map<string, (string, nat)>, f: string)
    requires f in defs && UsesRecorded(defs, done, usedAt) && StepsRecorded(defs[f].steps, usedAt, f, |defs[f].steps|)
    requires UsesBefore(usedAt, done, f, |defs[f].steps|)
    ensures UsesRecorded(defs, done + {f}, usedAt) && UsesBefore(usedAt, done + {f}, f, 0)
  {
  }

  /** The function each recorded point name is used by. */
  function FunctionsOf(usedAt: map<string, (string, nat)>): (r: map<string, string>)
    ensures r.Keys == usedAt.Keys
  {
    map n | n in usedAt :: usedAt[n].0
  }

  lemma FunctionsOfRecord(usedAt: map<string, (string, nat)>, name: string, f: string, k: nat)
    ensures FunctionsOf(usedAt[name := (f, k)]) == FunctionsOf(usedAt)[name := f]
  {
  }

  /** Every recorded use is at a function already checked, or earlier in the function being checked. */
  predicate UsesBefore(usedAt: map<string, (string, nat)>, done: set<string>, f: string, k: nat)
  {
    forall n | n in usedAt :: usedAt[n].0 in done || (usedAt[n].0 == f && usedAt[n].1 < k)
  }

  /** Recording a new point name's use at a step keeps the records real and keeps the uses already recorded. */
  lemma RecordUse(defs: map<string, ConvFunction>, done: set<string>, usedAt: map<string, (string, nat)>, f: string, k: nat)
    requires f in defs && k < |defs[f].steps| && defs[f].steps[k].pointName !in usedAt
    requires UsesReal(defs, usedAt) && UsesRecorded(defs, done, usedAt)
    ensures UsesReal(defs, usedAt[defs[f].steps[k].pointName := (f, k)])
    ensures UsesRecorded(defs, done, usedAt[defs[f].steps[k].pointName := (f, k)])
  {
  }

  /** When every step of every function is recorded as its name's one use, no two uses share a point. */
  lemma UsesDistinctByRecord(defs: map<string, ConvFunction>, usedAt: map<string, (string, nat)>)
    requires UsesRecorded(defs, defs.Keys, usedAt)
    ensures UsesDistinct(defs)
  {
    forall f1, k1, f2, k2 |
      f1 in defs && f2 in defs && 0 <= k1 < |defs[f1].steps| && 0 <= k2 < |defs[f2].steps| && (f1, k1) != (f2, k2)
      ensures defs[f1].steps[k1].pointName != defs[f2].steps[k2].pointName
    {
      assert usedAt[defs[f1].steps[k1].pointName] == (f1, k1);
      assert usedAt[defs[f2].steps[k2].pointName] == (f2, k2);
    }
  }

  /** Every step of the given functions uses an output point. */
  predicate OutputsIn(defs: map<string, ConvFunction>, done: set<string>, points: seq<ConvPoint>, byName: map<string, nat>)
  {
    forall f, k | f in done && f in defs && 0 <= k < |defs[f].steps| ::
      defs[f].steps[k].pointName in byName && byName[defs[f].steps[k].pointName] < |points|
      && IsOutputGroup(points[byName[defs[f].steps[k].pointName]].group)
  }

  /**
   * Checks one function's steps in order, recording each point name's use: a name already
   * recorded is a duplicate use, and a step's point must be an output point.
   */
  method CheckFunctionSteps(defs: map<string, ConvFunction>, points: seq<ConvPoint>, byName: map<string, nat>,
                            f: string, pointFunction: map<string, string>,
                            ghost usedAt: map<string, (string, nat)>, ghost done: set<string>)
    returns (pointFunction': map<string, string>, ghost usedAt': map<string, (string, nat)>, error: Option<ConvError>)
    requires IndexesFirst(points, byName) && StepPointsKnown(defs, byName) && f in defs && f !in done
    requires pointFunction == FunctionsOf(usedAt) && UsesBefore(usedAt, done, f, 0)
    requires UsesReal(defs, usedAt) && UsesRecorded(defs, done, usedAt)
    ensures error.None? ==>
              && pointFunction' == FunctionsOf(usedAt') && UsesBefore(usedAt', done + {f}, f, 0)
              && UsesReal(defs, usedAt') && UsesRecorded(defs, done + {f}, usedAt')
              && OutputsIn(defs, {f}, points, byName)
    ensures error.Some? ==> error.value.DuplicateUse? || error.value.InputPointInFunction?
    ensures error.Some? && error.value.DuplicateUse? ==>
              && !UsesDistinct(defs) && error.value.functionName == f
              && UsedBy(defs, f, error.value.pointName)
              && UsedBy(defs, error.value.otherFunctionName, error.value.pointName)
    ensures error.Some? && error.value.InputPointInFunction? ==>
              && error.value.functionName == f && UsedBy(defs, f, error.value.pointName)
              && error.value.pointName in byName && !IsOutputGroup(points[byName[error.value.pointName]].group)
              && !StepsUseOutputs(defs, points, byName)
  {
    pointFunction', usedAt', error := pointFunction, usedAt, None;
    var steps := defs[f].steps;
    var k := 0;
    while k < |steps|
      invariant 0 <= k <= |steps|
      invariant pointFunction' == FunctionsOf(usedAt') && UsesBefore(usedAt', done, f, k)
      invariant UsesReal(defs, usedAt') && UsesRecorded(defs, done, usedAt')
      invariant StepsRecorded(steps, usedAt', f, k)
      invariant forall j | 0 <= j < k ::
                  steps[j].pointName in byName && IsOutputGroup(points[byName[steps[j].pointName]].group)
    {
      var name := steps[k].pointName;
      assert defs[f].steps[k].pointName == name;
      if name in pointFunction' {
        ghost var g, j := usedAt'[name].0, usedAt'[name].1;
        assert defs[g].steps[j].pointName == name && (g, j) != (f, k);
        assert UsedBy(defs, g, name);
        return pointFunction', usedAt', Some(DuplicateUse(name, f, pointFunction'[name]));
      }
      RecordUse(defs, done, usedAt', f, k);
      StepsRecordedNext(steps, usedAt', f, k);
      FunctionsOfRecord(usedAt', name, f, k);
      pointFunction' := pointFunction'[name := f];
      usedAt' := usedAt'[name := (f, k)];
      var pt := points[byName[name]];
      if !IsOutputGroup(pt.group) {
        return pointFunction', usedAt', Some(InputPointInFunction(name, f));
      }
      k := k + 1;
    }
    FunctionRecorded(defs, done, usedAt', f);
  }

  /** The text of a function's extra "ref" or "support_point" element. */
  function ExtraText(functionName: string, element: string): (r: Option<string>)
    ensures r.Some? <==> ExtraDataForFunction(functionName, element).Some? && ExtraDataForFunction(functionName, element).value.Text?
  {
    var v := ExtraDataForFunction(functionName, element);
    if v.Some? && v.value.Text? then Some(v.value.text) else None
  }

  /** The part of the converter's state that converting a function worksheet reads and grows. */
  datatype ConvState = ConvState(points: seq<ConvPoint>, byName: map<string, nat>, next: map<DataType, int>)
  {
    predicate Valid()
    {
      IndexesFirst(points, byName)
    }

    /** The index the next allocation for a data type yields. */
    function NextIndexFor(dt: DataType): int
    {
      if dt in next then next[dt] else HighWater(points, dt) + 1
    }

    /** The state once a point is appended, its name indexed unless already in use. */
    function Appended(p: ConvPoint): (r: ConvState)
      ensures r.points == points + [p] && r.next == next
      ensures r.byName == if p.name in byName then byName else byName[p.name := |points|]
    {
      ConvState(points + [p], if p.name in byName then byName else byName[p.name := |points|], next)
    }
  }

  /** Appending a point keeps a state well formed and grows it; its name leads to a point of that name. */
  lemma AppendedValid(st: ConvState, p: ConvPoint)
    requires st.Valid()
    ensures st.Appended(p).Valid() && Extends(st.points, st.byName, st.Appended(p).points, st.Appended(p).byName)
    ensures var r := st.Appended(p); p.name in r.byName && r.points[r.byName[p.name]].name == p.name
  {
    var r := st.Appended(p);
    forall i | 0 <= i < |r.points| ensures NameIndexed(r.points, r.byName, i) {
      if i < |st.points| {
        assert NameIndexed(st.points, st.byName, i);
      }
    }
    assert r.points[..|st.points|] == st.points;
  }

  /**
   * Where a step's point name leads: nowhere for an unknown name, to the name itself for an
   * output point, and otherwise to a new output point named after it with ".out" (a Binary
   * Output for a Binary Input, else an Analog Output), created at its type's next index; the
   * new point stays created even when its name is a duplicate, which is an error. (The index
   * never leads past the points in a well-formed state; the guard only keeps this total.)
   */
  function ResolveOutput(st: ConvState, name: string): (r: (Result<Option<string>, ConvError>, ConvState))
  {
    if name !in st.byName || st.byName[name] >= |st.points| then (Ok(None), st)
    else
      var pt := st.points[st.byName[name]];
      if IsOutputGroup(pt.group) then (Ok(Some(name)), st)
      else
        var dt := if pt.group == 1 then BO else AO;
        var out := name + ".out";
        var st' := st.Appended(ExtraPoint(dt, st.NextIndexFor(dt), out));
        (if out in st.byName then Err(DuplicatePoint(out)) else Ok(Some(out)), st'.(next := st.next[dt := st.NextIndexFor(dt) + 1]))
  }

  /**
   * Resolving a name in a well-formed state: an unknown name leads nowhere and changes nothing;
   * an output point's name leads to itself; an input point's name leads to its ".out" point,
   * whose name in use already is an error; the state stays well formed and only grows.
   */
  lemma ResolveOutputMeaning(st: ConvState, name: string)
    requires st.Valid()
    ensures var r := ResolveOutput(st, name);
            && r.1.Valid() && Extends(st.points, st.byName, r.1.points, r.1.byName)
            && (r.0 == Ok(None) <==> name !in st.byName)
            && (r.0.Err? <==> name in st.byName && !IsOutputGroup(st.points[st.byName[name]].group) && name + ".out" in st.byName)
            && (r.0.Err? ==> r.0.error == DuplicatePoint(name + ".out"))
            && (r.0.Ok? && r.0.value.Some? ==>
                  var n := r.0.value.value;
                  && (n == name <==> IsOutputGroup(st.points[st.byName[name]].group))
                  && (n == name || n == name + ".out")
                  && n in r.1.byName && IsOutputGroup(r.1.points[r.1.byName[n]].group))
            && (name !in st.byName || IsOutputGroup(st.points[st.byName[name]].group) ==> r.1 == st)
  {
    if name in st.byName && !IsOutputGroup(st.points[st.byName[name]].group) {
      var pt := st.points[st.byName[name]];
      var dt := if pt.group == 1 then BO else AO;
      var out := name + ".out";
      assert |out| == |name| + 4;
      AppendedValid(st, ExtraPoint(dt, st.NextIndexFor(dt), out));
      OutputGroupsAreOutputTypes(dt);
    }
  }

  /** What a function worksheet row says, read independently of the catalog. */
  datatype ParsedRow = ParsedRow(
    stepText: string,
    number: Option<int>,
    pointName: string,
    description: string,
    flag: Result<Option<string>, ConvError>,
    codes: Result<Option<seq<string>>, ConvError>,
    action: Option<string>)

  /** A row of a function's worksheet read: its step number, the point name and action the number selects, its flag and codes. */
  function ParseRow(functionName: string, row: StepRow): (p: ParsedRow)
    ensures p.number == ParseInt(row.step) && p.stepText == row.step && p.description == row.description
    ensures p.flag == OptionalFlag(row.flag) && p.codes == SavedFcodes(row.fcodes)
    ensures p.number.Some? ==>
              p.pointName == StepPointName(functionName, p.number.value, row) && p.action == StepAction(functionName, p.number.value)
  {
    var n := ParseInt(row.step);
    ParsedRow(row.step, n, if n.Some? then StepPointName(functionName, n.value, row) else "", row.description,
              OptionalFlag(row.flag), SavedFcodes(row.fcodes), if n.Some? then StepAction(functionName, n.value) else None)
  }

  /** The rows of a function's worksheet read one by one. */
  function ParseRows(functionName: string, rows: seq<StepRow>): (r: seq<ParsedRow>)
    ensures |r| == |rows| && forall k | 0 <= k < |rows| :: r[k] == ParseRow(functionName, rows[k])
  {
    seq(|rows|, k requires 0 <= k < |rows| => ParseRow(functionName, rows[k]))
  }

  /**
   * A read row converted in a state: its step, none when its point is unknown, or the error it
   * raises; and the state after it, grown by any ".out" point created.
   */
  function RowStep(st: ConvState, p: ParsedRow): (r: (Result<Option<ConvStep>, ConvError>, ConvState))
  {
    if p.number.None? then (Err(BadInteger(p.stepText)), st)
    else
      var found := ResolveOutput(st, p.pointName);
      if found.0.Err? then (Err(found.0.error), found.1)
      else if found.0.value.None? then (Ok(None), found.1)
      else if p.flag.Err? then (Err(p.flag.error), found.1)
      else if p.codes.Err? then (Err(p.codes.error), found.1)
      else (Ok(Some(ConvStep(p.number.value, found.0.value.value, p.description, p.flag.value, p.codes.value, p.action))), found.1)
  }

  /** A row keeps a well-formed state well formed and only grows it. */
  lemma RowStepValid(st: ConvState, p: ParsedRow)
    requires st.Valid()
    ensures var r := RowStep(st, p);
            r.1.Valid() && Extends(st.points, st.byName, r.1.points, r.1.byName)
  {
    if p.number.Some? {
      ResolveOutputMeaning(st, p.pointName);
    } else {
      assert st.points[..|st.points|] == st.points;
    }
  }

  /** How a row fails or is dropped: a bad step number, an unknown point, a duplicate ".out" point, a bad flag. */
  lemma RowStepErrors(st: ConvState, functionName: string, row: StepRow)
    ensures var r := RowStep(st, ParseRow(functionName, row));
            && (ParseInt(row.step).None? ==> r == (Err(BadInteger(row.step)), st))
            && (ParseInt(row.step).Some? ==>
                  var n := ParseInt(row.step).value;
                  var found := ResolveOutput(st, StepPointName(functionName, n, row));
                  && r.1 == found.1
                  && (found.0.Err? ==> r.0 == Err(found.0.error))
                  && (found.0 == Ok(None) ==> r.0 == Ok(None))
                  && (found.0.Ok? && found.0.value.Some? && OptionalFlag(row.flag).Err? ==>
                        r.0 == Err(BadOptionalFlag(RStrip(row.flag.value)))))
            && (r.0.Err? ==> IsValueError(r.0.error) || (row.fcodes.Some? && MapCodes(Split(row.fcodes.value, ',')).Err?))
  {
  }

  /** A row whose number parses, whose point resolves and whose flag and codes are good gives a step, with these fields. */
  lemma RowStepFields(st: ConvState, functionName: string, row: StepRow)
    requires st.Valid()
    ensures var r := RowStep(st, ParseRow(functionName, row));
            && (ParseInt(row.step).Some? && OptionalFlag(row.flag).Ok? && SavedFcodes(row.fcodes).Ok?
                && ResolveOutput(st, StepPointName(functionName, ParseInt(row.step).value, row)).0.Ok?
                && ResolveOutput(st, StepPointName(functionName, ParseInt(row.step).value, row)).0.value.Some? ==>
                  r.0.Ok? && r.0.value.Some?)
            && (r.0.Ok? && r.0.value.Some? ==>
                  var s := r.0.value.value;
                  && ParseInt(row.step) == Some(s.stepNumber)
                  && StepsResolvedIn([s], r.1.points, r.1.byName)
                  && (s.pointName == StepPointName(functionName, s.stepNumber, row)
                      || s.pointName == StepPointName(functionName, s.stepNumber, row) + ".out")
                  && s.description == row.description
                  && OptionalFlag(row.flag) == Ok(s.optional)
                  && SavedFcodes(row.fcodes) == Ok(s.fcodes)
                  && s.action == StepAction(functionName, s.stepNumber))
  {
    if ParseInt(row.step).Some? {
      ResolveOutputMeaning(st, StepPointName(functionName, ParseInt(row.step).value, row));
    }
  }

  /** An error raised by a row that load_function does not catch: an unknown function code. */
  predicate Fatal(res: Result<Option<ConvStep>, ConvError>)
  {
    res.Err? && !IsValueError(res.error)
  }

  /**
   * The rows of a function worksheet converted in order after the steps so far: a row's step
   * is appended, a row naming no point or raising a ValueError is skipped, and an unknown
   * function code stops the conversion with that error.
   */
  function StepsFold(st: ConvState, rows: seq<ParsedRow>, steps: seq<ConvStep>): (r: (Result<seq<ConvStep>, ConvError>, ConvState))
    ensures r.0.Err? ==> r.0.error.UnknownFunctionCode?
    ensures r.0.Ok? ==> |steps| <= |r.0.value| <= |steps| + |rows| && r.0.value[..|steps|] == steps
    decreases |rows|
  {
    if rows == [] then (Ok(steps), st)
    else
      var (res, st1) := RowStep(st, rows[0]);
      if Fatal(res) then (Err(res.error), st1)
      else StepsFold(st1, rows[1..], if res.Ok? && res.value.Some? then steps + [res.value.value] else steps)
  }

  /** The fold keeps a well-formed state well formed and only grows it. */
  lemma {:induction false} StepsFoldValid(st: ConvState, rows: seq<ParsedRow>, steps: seq<ConvStep>)
    requires st.Valid()
    ensures var r := StepsFold(st, rows, steps);
            r.1.Valid() && Extends(st.points, st.byName, r.1.points, r.1.byName)
    decreases |rows|
  {
    if rows == [] {
      assert st.points[..|st.points|] == st.points;
    } else {
      var (res, st1) := RowStep(st, rows[0]);
      RowStepValid(st, rows[0]);
      if !Fatal(res) {
        var next := if res.Ok? && res.value.Some? then steps + [res.value.value] else steps;
        StepsFoldValid(st1, rows[1..], next);
        var r := StepsFold(st1, rows[1..], next);
        ExtendsTransitive(st.points, st.byName, st1.points, st1.byName, r.1.points, r.1.byName);
      }
    }
  }

  /** Every step the fold keeps names an output point of the state it ends in. */
  lemma {:induction false} StepsFoldResolved(st: ConvState, rows: seq<ParsedRow>, steps: seq<ConvStep>)
    requires st.Valid() && StepsResolvedIn(steps, st.points, st.byName)
    ensures var r := StepsFold(st, rows, steps);
            r.0.Ok? ==> StepsResolvedIn(r.0.value, r.1.points, r.1.byName)
    decreases |rows|
  {
    if rows != [] {
      var (res, st1) := RowStep(st, rows[0]);
      RowStepValid(st, rows[0]);
      if rows[0].number.Some? {
        ResolveOutputMeaning(st, rows[0].pointName);
      }
      if !Fatal(res) {
        StepsResolvedExtend(steps, st.points, st.byName, st1.points, st1.byName);
        if res.Ok? && res.value.Some? {
          StepsResolvedSnoc(steps, res.value.value, st1.points, st1.byName);
          StepsFoldResolved(st1, rows[1..], steps + [res.value.value]);
        } else {
          StepsFoldResolved(st1, rows[1..], steps);
        }
      }
    }
  }

  /** The converter's state: the points in creation order, the name index, the functions, and the next index per data type. */
  class Converter {
    var pointDefs: seq<ConvPoint>
    var pointsByName: map<string, nat>
    var functionDefs: map<string, ConvFunction>
    /** The next index to assign per data type; a type without an entry has not allocated one yet. */
    var nextIndex: map<DataType, int>

    ghost predicate Valid()
      reads this
    {
      IndexesFirst(pointDefs, pointsByName) && StepPointsKnown(functionDefs, pointsByName)
    }

    constructor ()
      ensures Valid()
      ensures pointDefs == [] && pointsByName == map[] && functionDefs == map[] && nextIndex == map[]
    {
      pointDefs := [];
      pointsByName := map[];
      functionDefs := map[];
      nextIndex := map[];
    }

    /** The points, the name index and the next indexes, as a value. */
    function State(): (r: ConvState)
      reads this`pointDefs, this`pointsByName, this`nextIndex
      ensures r.points == pointDefs && r.byName == pointsByName && r.next == nextIndex
      ensures forall dt :: r.NextIndexFor(dt) == NextIndexFor(dt)
    {
      ConvState(pointDefs, pointsByName, nextIndex)
    }

    /** The index the next allocation for a data type yields. */
    function NextIndexFor(dt: DataType): int
      reads this`nextIndex, this`pointDefs
    {
      if dt in nextIndex then nextIndex[dt] else HighWater(pointDefs, dt) + 1
    }

    /** The point a name leads to. */
    function PointNamed(name: string): ConvPoint
      reads this
      requires Valid() && name in pointsByName
    {
      pointDefs[pointsByName[name]]
    }

    /**
     * Allocates an index for a data type: on the first call one past the high-water mark of
     * the points so far, then one past the previous allocation.
     */
    method GetNextIndex(dt: DataType) returns (index: int)
      modifies this`nextIndex
      ensures index == old(NextIndexFor(dt))
      ensures nextIndex == old(nextIndex)[dt := index + 1]
    {
      if dt in nextIndex {
        index := nextIndex[dt];
      } else {
        var next := 0;
        var i := 0;
        while i < |pointDefs|
          invariant 0 <= i <= |pointDefs|
          invariant next == HighWater(pointDefs[..i], dt)
          invariant nextIndex == old(nextIndex)
        {
          var pt := pointDefs[i];
          if pt.dataType == dt && pt.index > next {
            next := pt.index;
            if pt.IsArray() {
              next := next + |pt.columns| * MaxArrayPoints - 1;
            }
          }
          HighWaterSnoc(pointDefs, i, dt);
          i := i + 1;
        }
        assert pointDefs[..i] == pointDefs;
        index := next + 1;
      }
      nextIndex := nextIndex[dt := index + 1];
    }

    /**
     * Appends a point; a name already in use is reported as a duplicate, the point staying
     * appended and the name still leading to its first point.
     */
    method AddPoint(p: ConvPoint) returns (duplicate: bool)
      requires Valid()
      modifies this`pointDefs, this`pointsByName
      ensures Valid()
      ensures pointDefs == old(pointDefs) + [p]
      ensures duplicate <==> p.name in old(pointsByName)
      ensures pointsByName == if duplicate then old(pointsByName) else old(pointsByName)[p.name := |old(pointDefs)|]
    {
      pointDefs := pointDefs + [p];
      duplicate := p.name in pointsByName;
      if !duplicate {
        pointsByName := pointsByName[p.name := |pointDefs| - 1];
      }
      forall i | 0 <= i < |pointDefs| ensures NameIndexed(pointDefs, pointsByName, i) {
        if i < |old(pointDefs)| {
          assert NameIndexed(old(pointDefs), old(pointsByName), i);
        }
      }
    }

    /** Loads one worksheet row; a malformed row or a duplicate name is reported, a duplicate staying appended. */
    method LoadPoint(dt: DataType, rowNum: int, row: SheetRow) returns (error: Option<ConvError>)
      requires Valid()
      modifies this`pointDefs, this`pointsByName
      ensures Valid()
      ensures var rp := RowPoint(dt, rowNum, row);
              && (rp.Ok? && rp.value.Some? ==>
                    && pointDefs == old(pointDefs) + [rp.value.value]
                    && (error.Some? <==> rp.value.value.name in old(pointsByName))
                    && (error.Some? ==> error.value == DuplicatePoint(rp.value.value.name) && pointsByName == old(pointsByName))
                    && (error.None? ==> pointsByName == old(pointsByName)[rp.value.value.name := |old(pointDefs)|]))
              && (rp.Ok? && rp.value.None? ==> error.None? && pointDefs == old(pointDefs) && pointsByName == old(pointsByName))
              && (rp.Err? ==> error == Some(rp.error) && pointDefs == old(pointDefs) && pointsByName == old(pointsByName))
    {
      var rp := RowPoint(dt, rowNum, row);
      if rp.Err? {
        return Some(rp.error);
      }
      if rp.value.None? {
        return None;
      }
      var duplicate := AddPoint(rp.value.value);
      error := if duplicate then Some(DuplicatePoint(rp.value.value.name)) else None;
    }

    /** Creates an output point of a data type at its next index, under a name; a duplicate name is reported. */
    method CreateExtraOutputPoint(dt: DataType, name: string) returns (position: nat, index: int, duplicate: bool)
      requires Valid()
      modifies this`pointDefs, this`pointsByName, this`nextIndex
      ensures Valid()
      ensures Extends(old(pointDefs), old(pointsByName), pointDefs, pointsByName)
      ensures position == |old(pointDefs)| && index == old(NextIndexFor(dt))
      ensures pointDefs == old(pointDefs) + [ExtraPoint(dt, index, name)]
      ensures nextIndex == old(nextIndex)[dt := index + 1]
      ensures duplicate <==> name in old(pointsByName)
      ensures pointsByName == if duplicate then old(pointsByName) else old(pointsByName)[name := position]
    {
      index := GetNextIndex(dt);
      position := |pointDefs|;
      duplicate := AddPoint(ExtraPoint(dt, index, name));
    }

    /**
     * The output point for a name: None for an unknown name, the point itself when it is an
     * output point, and otherwise a new output point named after it with ".out", a Binary
     * Output for a Binary Input and an Analog Output otherwise.
     */
    method GetOutputPointByName(name: string) returns (r: Result<Option<ConvPoint>, ConvError>)
      requires Valid()
      modifies this`pointDefs, this`pointsByName, this`nextIndex
      ensures Valid()
      ensures name !in old(pointsByName) ==>
                r == Ok(None) && pointDefs == old(pointDefs) && pointsByName == old(pointsByName) && nextIndex == old(nextIndex)
      ensures name in old(pointsByName) && IsOutputGroup(old(PointNamed(name)).group) ==>
                r == Ok(Some(old(PointNamed(name))))
                && pointDefs == old(pointDefs) && pointsByName == old(pointsByName) && nextIndex == old(nextIndex)
      ensures name in old(pointsByName) && !IsOutputGroup(old(PointNamed(name)).group) ==>
                var dt := if old(PointNamed(name)).group == 1 then BO else AO;
                && pointDefs == old(pointDefs) + [ExtraPoint(dt, old(NextIndexFor(dt)), name + ".out")]
                && nextIndex == old(nextIndex)[dt := old(NextIndexFor(dt)) + 1]
                && (r.Err? <==> name + ".out" in old(pointsByName))
                && (r.Err? ==> r.error == DuplicatePoint(name + ".out"))
      ensures Extends(old(pointDefs), old(pointsByName), pointDefs, pointsByName)
      ensures r.Ok? && r.value.Some? ==>
                r.value.value.name in pointsByName && PointNamed(r.value.value.name) == r.value.value
                && IsOutputGroup(r.value.value.group)
                && (r.value.value.name == name || r.value.value.name == name + ".out")
      ensures var e := old(ResolveOutput(State(), name));
              && State() == e.1
              && (r.Err? ==> e.0 == Err(r.error))
              && (r.Ok? ==> e.0 == Ok(if r.value.Some? then Some(r.value.value.name) else None))
    {
      if name !in pointsByName {
        return Ok(None);
      }
      var pt := pointDefs[pointsByName[name]];
      if pt.group == 40 || pt.group == 10 {
        return Ok(Some(pt));
      }
      var dt := if pt.group == 1 then BO else AO;
      var position, index, duplicate := CreateExtraOutputPoint(dt, name + ".out");
      if duplicate {
        return Err(DuplicatePoint(name + ".out"));
      }
      return Ok(Some(pointDefs[position]));
    }

    /**
     * Converts one function worksheet row into a step: the step number must be an integer;
     * a step whose point has no definition is dropped; the flag must be blank, M, O or C;
     * function codes must all be known.
     */
    method CreateFunctionStep(functionName: string, row: StepRow) returns (r: Result<Option<ConvStep>, ConvError>)
      requires Valid()
      modifies this`pointDefs, this`pointsByName, this`nextIndex
      ensures Valid()
      ensures Extends(old(pointDefs), old(pointsByName), pointDefs, pointsByName)
      ensures ParseInt(row.step).None? ==> r == Err(BadInteger(row.step)) && pointDefs == old(pointDefs)
      ensures ParseInt(row.step).Some? && StepPointName(functionName, ParseInt(row.step).value, row) !in old(pointsByName) ==>
                r == Ok(None) && pointDefs == old(pointDefs)
      ensures r.Err? ==> IsValueError(r.error) || (row.fcodes.Some? && MapCodes(Split(row.fcodes.value, ',')).Err?)
      ensures r.Ok? && r.value.Some? ==>
                var s := r.value.value;
                && ParseInt(row.step) == Some(s.stepNumber)
                && s.pointName in pointsByName && IsOutputGroup(PointNamed(s.pointName).group)
                && (s.pointName == StepPointName(functionName, s.stepNumber, row)
                    || s.pointName == StepPointName(functionName, s.stepNumber, row) + ".out")
                && s.description == row.description
                && OptionalFlag(row.flag) == Ok(s.optional)
                && SavedFcodes(row.fcodes) == Ok(s.fcodes)
                && s.action == StepAction(functionName, s.stepNumber)
      ensures (r, State()) == old(RowStep(State(), ParseRow(functionName, row)))
    {
      var stepNumber := ParseInt(row.step);
      if stepNumber.None? {
        return Err(BadInteger(row.step));
      }
      var pointName := StepPointName(functionName, stepNumber.value, row);
      var pointDef := GetOutputPointByName(pointName);
      if pointDef.Err? {
        return Err(pointDef.error);
      }
      if pointDef.value.None? {
        return Ok(None);
      }
      var flag := OptionalFlag(row.flag);
      if flag.Err? {
        return Err(flag.error);
      }
      var codes := SavedFcodes(row.fcodes);
      if codes.Err? {
        return Err(codes.error);
      }
      var step := ConvStep(stepNumber.value, pointDef.value.value.name, row.description, flag.value, codes.value,
                           StepAction(functionName, stepNumber.value));
      return Ok(Some(step));
    }

    /** Overwrites a point's other properties, its name staying. */
    method Retag(position: nat, p: ConvPoint)
      requires Valid() && position < |pointDefs| && p.name == pointDefs[position].name
      modifies this`pointDefs
      ensures Valid()
      ensures pointDefs == old(pointDefs)[position := p]
    {
      pointDefs := pointDefs[position := p];
      forall i | 0 <= i < |pointDefs| ensures NameIndexed(pointDefs, pointsByName, i) {
        assert NameIndexed(old(pointDefs), pointsByName, i);
      }
    }

    /**
     * Converts a function worksheet: its extra reference and support point, and one step per
     * row, a row raising a ValueError being skipped; an unknown function code stops the
     * conversion and the function is not recorded.
     */
    method LoadFunction(functionName: string, rows: seq<StepRow>) returns (r: Result<ConvFunction, ConvError>)
      requires Valid()
      modifies this`pointDefs, this`pointsByName, this`nextIndex, this`functionDefs
      ensures Valid()
      ensures Extends(old(pointDefs), old(pointsByName), pointDefs, pointsByName)
      ensures r.Err? ==> r.error.UnknownFunctionCode? && functionDefs == old(functionDefs)
      ensures r.Ok? ==>
                && functionDefs == old(functionDefs)[functionName := r.value]
                && r.value.name == functionName
                && r.value.reference == ExtraText(functionName, "ref")
                && r.value.supportPoint == ExtraText(functionName, "support_point")
                && |r.value.steps| <= |rows|
                && StepsResolvedIn(r.value.steps, pointDefs, pointsByName)
      ensures old(StepsUseOutputs(functionDefs, pointDefs, pointsByName)) ==> StepsUseOutputs(functionDefs, pointDefs, pointsByName)
      ensures var (res, st) := old(StepsFold(State(), ParseRows(functionName, rows), []));
              && State() == st
              && (r.Err? <==> res.Err?)
              && (r.Err? ==> r.error == res.error)
              && (r.Ok? ==> r.value.steps == res.value)
    {
      var steps, fatal := LoadSteps(functionName, rows);
      if fatal.Some? {
        return Err(fatal.value);
      }
      var f := ConvFunction(functionName, ExtraText(functionName, "ref"), ExtraText(functionName, "support_point"), steps);
      if old(StepsUseOutputs(functionDefs, pointDefs, pointsByName)) {
        StepsUseOutputsExtend(functionDefs, old(pointDefs), old(pointsByName), pointDefs, pointsByName);
      }
      functionDefs := functionDefs[functionName := f];
      return Ok(f);
    }

    /** The rows of a function worksheet converted in order, as the fold over them says. */
    method LoadSteps(functionName: string, rows: seq<StepRow>) returns (steps: seq<ConvStep>, fatal: Option<ConvError>)
      requires Valid()
      modifies this`pointDefs, this`pointsByName, this`nextIndex
      ensures Valid() && functionDefs == old(functionDefs)
      ensures Extends(old(pointDefs), old(pointsByName), pointDefs, pointsByName)
      ensures var (res, st) := old(StepsFold(State(), ParseRows(functionName, rows), []));
              && State() == st
              && (fatal.Some? <==> res.Err?)
              && (fatal.Some? ==> fatal.value == res.error)
              && (fatal.None? ==> steps == res.value)
      ensures fatal.None? ==> |steps| <= |rows| && StepsResolvedIn(steps, pointDefs, pointsByName)
      ensures fatal.Some? ==> fatal.value.UnknownFunctionCode?
    {
      ghost var st0 := State();
      StepsFoldValid(st0, ParseRows(functionName, rows), []);
      steps := [];
      var i := 0;
      while i < |rows|
        invariant 0 <= i <= |rows|
        invariant Valid()
        invariant StepsResolvedIn(steps, pointDefs, pointsByName)
        invariant StepsFold(st0, ParseRows(functionName, rows), []) == StepsFold(State(), ParseRows(functionName, rows)[i..], steps)
      {
        assert ParseRows(functionName, rows)[i..][1..] == ParseRows(functionName, rows)[i + 1..];
        steps, fatal := NextStep(functionName, rows[i], steps);
        if fatal.Some? {
          return;
        }
        i := i + 1;
      }
      fatal := None;
    }

    /** One row of a function worksheet: its step, if any, is appended; a KeyError is returned as fatal. */
    method NextStep(functionName: string, row: StepRow, steps: seq<ConvStep>) returns (steps': seq<ConvStep>, fatal: Option<ConvError>)
      requires Valid() && StepsResolvedIn(steps, pointDefs, pointsByName)
      modifies this`pointDefs, this`pointsByName, this`nextIndex
      ensures Valid() && StepsResolvedIn(steps', pointDefs, pointsByName)
      ensures Extends(old(pointDefs), old(pointsByName), pointDefs, pointsByName)
      ensures |steps| <= |steps'| <= |steps| + 1 && steps'[..|steps|] == steps
      ensures fatal.Some? ==> fatal.value.UnknownFunctionCode?
      ensures var (res, st) := old(RowStep(State(), ParseRow(functionName, row)));
              && State() == st
              && (fatal.Some? <==> Fatal(res))
              && (Fatal(res) ==> fatal == Some(res.error))
              && (res.Ok? && res.value.Some? ==> steps' == steps + [res.value.value])
              && (!(res.Ok? && res.value.Some?) ==> steps' == steps)
    {
      ghost var points0, byName0 := pointDefs, pointsByName;
      var step := CreateFunctionStep(functionName, row);
      StepsResolvedExtend(steps, points0, byName0, pointDefs, pointsByName);
      steps' := steps;
      fatal := None;
      if step.Err? && !IsValueError(step.error) {
        fatal := Some(step.error);
      } else if step.Ok? && step.value.Some? {
        assert pointsByName[step.value.value.pointName] < |pointDefs|;
        StepsResolvedSnoc(steps, step.value.value, pointDefs, pointsByName);
        steps' := steps + [step.value.value];
      }
    }

    /** Creates Analog Output points under the given names at consecutive indexes; the first duplicate name stops it. */
    method AddOutputPoints(names: seq<string>) returns (error: Option<ConvError>)
      requires Valid()
      modifies this`pointDefs, this`pointsByName, this`nextIndex
      ensures Valid()
      ensures Extends(old(pointDefs), old(pointsByName), pointDefs, pointsByName)
      ensures error.Some? ==> error.value.DuplicatePoint? && error.value.name in names
      ensures error.None? ==>
                && pointDefs == old(pointDefs) + ExtraRun(old(NextIndexFor(AO)), names)
                && (names != [] ==> nextIndex == old(nextIndex)[AO := old(NextIndexFor(AO)) + |names|])
                && (names == [] ==> nextIndex == old(nextIndex))
    {
      ghost var first := NextIndexFor(AO);
      var i := 0;
      while i < |names|
        invariant 0 <= i <= |names|
        invariant Valid()
        invariant Extends(old(pointDefs), old(pointsByName), pointDefs, pointsByName)
        invariant pointDefs == old(pointDefs) + ExtraRun(first, names[..i])
        invariant NextIndexFor(AO) == first + i
        invariant i > 0 ==> nextIndex == old(nextIndex)[AO := first + i]
        invariant i == 0 ==> nextIndex == old(nextIndex)
      {
        ghost var points0, byName0 := pointDefs, pointsByName;
        var duplicate := AddOutputPointAt(names, i, old(pointDefs), first);
        ExtendsTransitive(old(pointDefs), old(pointsByName), points0, byName0, pointDefs, pointsByName);
        if duplicate {
          return Some(DuplicatePoint(names[i]));
        }
        i := i + 1;
      }
      assert names[..i] == names;
      return None;
    }

    /** One step of AddOutputPoints: the next name's point, at the index after the run so far. */
    method AddOutputPointAt(names: seq<string>, i: nat, ghost before: seq<ConvPoint>, ghost first: int) returns (duplicate: bool)
      requires Valid() && i < |names|
      requires pointDefs == before + ExtraRun(first, names[..i]) && NextIndexFor(AO) == first + i
      modifies this`pointDefs, this`pointsByName, this`nextIndex
      ensures Valid()
      ensures Extends(old(pointDefs), old(pointsByName), pointDefs, pointsByName)
      ensures duplicate <==> names[i] in old(pointsByName)
      ensures pointDefs == before + ExtraRun(first, names[..i + 1])
      ensures nextIndex == old(nextIndex)[AO := first + i + 1]
      ensures NextIndexFor(AO) == first + i + 1
    {
      var position, index, duplicate' := CreateExtraOutputPoint(AO, names[i]);
      duplicate := duplicate';
      ExtraRunNext(before, first, names, i);
    }

    /** Creates a selector block head at the next Analog Output index. */
    method CreateSelectorHead(name: string) returns (position: nat, duplicate: bool)
      requires Valid()
      modifies this`pointDefs, this`pointsByName, this`nextIndex
      ensures Valid()
      ensures Extends(old(pointDefs), old(pointsByName), pointDefs, pointsByName)
      ensures position == |old(pointDefs)|
      ensures duplicate <==> name in old(pointsByName)
      ensures nextIndex == old(nextIndex)[AO := old(NextIndexFor(AO)) + 1]
      ensures !duplicate ==>
                pointDefs == old(pointDefs) + [ExtraPoint(AO, old(NextIndexFor(AO)), name).(kind := Some(SelectorBlockKind))]
    {
      var index;
      position, index, duplicate := CreateExtraOutputPoint(AO, name);
      if !duplicate {
        Retag(position, pointDefs[position].(kind := Some(SelectorBlockKind)));
      }
    }

    /** Creates an array head at the next Analog Output index and reserves 2 * MaxArrayPoints indexes for it. */
    method CreateArrayHead(name: string, columns: seq<string>) returns (duplicate: bool)
      requires Valid()
      modifies this`pointDefs, this`pointsByName, this`nextIndex
      ensures Valid()
      ensures Extends(old(pointDefs), old(pointsByName), pointDefs, pointsByName)
      ensures duplicate <==> name in old(pointsByName)
      ensures !duplicate ==>
                && pointDefs == old(pointDefs) + [ExtraPoint(AO, old(NextIndexFor(AO)), name).(
                     kind := Some(ArrayKind), columns := columns, timesRepeated := Some(MaxArrayPoints))]
                && nextIndex == old(nextIndex)[AO := old(NextIndexFor(AO)) + 2 * MaxArrayPoints]
    {
      var position;
      var index;
      position, index, duplicate := CreateExtraOutputPoint(AO, name);
      if !duplicate {
        Retag(position, pointDefs[position].(kind := Some(ArrayKind), columns := columns,
                                             timesRepeated := Some(MaxArrayPoints)));
        nextIndex := nextIndex[AO := nextIndex[AO] + 2 * MaxArrayPoints - 1];
      }
    }

    /** Sets a selector block's range: from the given start to the index before the next one, which stays unallocated. */
    method CloseSelector(selector: nat, start: Option<int>)
      requires Valid() && selector < |pointDefs|
      modifies this`pointDefs, this`nextIndex
      ensures Valid()
      ensures pointDefs == old(pointDefs)[selector := old(pointDefs[selector]).(selectorStart := start,
                                                                              selectorEnd := Some(old(NextIndexFor(AO)) - 1))]
      ensures nextIndex == old(nextIndex)[AO := old(NextIndexFor(AO))]
    {
      var next := GetNextIndex(AO);
      Retag(selector, pointDefs[selector].(selectorStart := start, selectorEnd := Some(next - 1)));
      nextIndex := nextIndex[AO := next];
    }

    /** Creates the selector block head when the function has one; returns where it is. */
    method CreateSelectorIfAny(points: AddedPoints) returns (selector: nat, error: Option<ConvError>)
      requires Valid()
      modifies this`pointDefs, this`pointsByName, this`nextIndex
      ensures Valid()
      ensures Extends(old(pointDefs), old(pointsByName), pointDefs, pointsByName)
      ensures selector == |old(pointDefs)|
      ensures error.Some? ==> HasSelector(points) && error == Some(DuplicatePoint(points.editSelectorName.value))
      ensures error.None? ==>
                var first := old(NextIndexFor(AO));
                && pointDefs == old(pointDefs) + SelectorHead(points, first)
                && NextIndexFor(AO) == first + |SelectorHead(points, first)|
                && (HasSelector(points) ==> nextIndex == old(nextIndex)[AO := first + 1])
                && (!HasSelector(points) ==> nextIndex == old(nextIndex))
    {
      selector, error := |pointDefs|, None;
      if HasSelector(points) {
        var duplicate;
        selector, duplicate := CreateSelectorHead(points.editSelectorName.value);
        if duplicate {
          return selector, Some(DuplicatePoint(points.editSelectorName.value));
        }
      }
    }

    /** Creates the selector block head, if any, and the other points; returns where the selector is and its start. */
    method CreateLeadingPoints(points: AddedPoints) returns (selector: nat, start: Option<int>, error: Option<ConvError>)
      requires Valid()
      modifies this`pointDefs, this`pointsByName, this`nextIndex
      ensures Valid()
      ensures Extends(old(pointDefs), old(pointsByName), pointDefs, pointsByName)
      ensures error.Some? ==> error.value.DuplicatePoint? && error.value.name in AddedNames(points)
      ensures error.None? ==>
                var first := old(NextIndexFor(AO));
                var head := SelectorHead(points, first);
                var count := |head| + |points.otherPointNames|;
                && pointDefs == old(pointDefs) + head + ExtraRun(first + |head|, points.otherPointNames)
                && (count > 0 ==> nextIndex == old(nextIndex)[AO := first + count])
                && (count == 0 ==> nextIndex == old(nextIndex))
                && selector == |old(pointDefs)|
                && start == (if AO in old(nextIndex) then Some(first) else None)
    {
      ghost var first := NextIndexFor(AO);
      ghost var head := SelectorHead(points, first);
      start := if AO in nextIndex then Some(nextIndex[AO]) else None;
      selector, error := CreateSelectorIfAny(points);
      if error.Some? {
        return;
      }
      ghost var points1, byName1, next1 := pointDefs, pointsByName, nextIndex;
      error := AddOutputPoints(points.otherPointNames);
      ExtendsTransitive(old(pointDefs), old(pointsByName), points1, byName1, pointDefs, pointsByName);
      if error.None? {
        NextAfterRuns(old(nextIndex), next1, nextIndex, first, |head|, |points.otherPointNames|);
      }
    }

    /** Creates a function's hand-made points, the selector block's range still unset; returns where the selector is and its start. */
    method CreateOpenRun(points: AddedPoints) returns (selector: nat, start: Option<int>, error: Option<ConvError>)
      requires Valid()
      modifies this`pointDefs, this`pointsByName, this`nextIndex
      ensures Valid()
      ensures Extends(old(pointDefs), old(pointsByName), pointDefs, pointsByName)
      ensures error.Some? ==> error.value.DuplicatePoint? && error.value.name in AddedNames(points)
      ensures error.None? ==>
                var first := old(NextIndexFor(AO));
                var count := |SelectorHead(points, first)| + |points.otherPointNames|;
                && pointDefs == old(pointDefs) + OpenRun(points, first)
                && (HasArray(points) ==> nextIndex == old(nextIndex)[AO := first + count + 2 * MaxArrayPoints])
                && (!HasArray(points) && count > 0 ==> nextIndex == old(nextIndex)[AO := first + count])
                && (!HasArray(points) && count == 0 ==> nextIndex == old(nextIndex))
                && selector == |old(pointDefs)|
                && start == (if AO in old(nextIndex) then Some(first) else None)
    {
      ghost var first := NextIndexFor(AO);
      ghost var head := SelectorHead(points, first);
      ghost var count := |head| + |points.otherPointNames|;
      selector, start, error := CreateLeadingPoints(points);
      if error.Some? {
        return;
      }
      assert NextIndexFor(AO) == first + count;
      ghost var lead := pointDefs;
      if HasArray(points) {
        ghost var points2, byName2, next2 := pointDefs, pointsByName, nextIndex;
        var duplicate := CreateArrayHead(points.arrayPointName.value, points.arrayColumns);
        ExtendsTransitive(old(pointDefs), old(pointsByName), points2, byName2, pointDefs, pointsByName);
        if duplicate {
          return selector, start, Some(DuplicatePoint(points.arrayPointName.value));
        }
        NextAfterRuns(old(nextIndex), next2, nextIndex, first, count, 2 * MaxArrayPoints);
      }
      assert pointDefs == lead + ArrayHead(points, first + count);
      OpenRunParts(points, first, old(pointDefs), lead, pointDefs);
    }

    /**
     * Creates the points of a function that has no worksheet: its selector block, its other
     * points and its array head, as consecutive Analog Outputs. The array reserves
     * 2 * MaxArrayPoints indexes; the selector block spans from its own index (read before
     * the selector is created, hence None while no Analog Output index has been allocated)
     * to the last index reserved, and that index is not consumed. A duplicate name stops
     * the creation.
     */
    method AddPointsForAddedFunction(points: AddedPoints) returns (error: Option<ConvError>)
      requires Valid()
      modifies this`pointDefs, this`pointsByName, this`nextIndex
      ensures Valid()
      ensures Extends(old(pointDefs), old(pointsByName), pointDefs, pointsByName)
      ensures error.Some? ==> error.value.DuplicatePoint? && error.value.name in AddedNames(points)
      ensures error.None? ==>
                && pointDefs == old(pointDefs) + AddedRun(points, old(NextIndexFor(AO)), AO in old(nextIndex))
                && (AddedNames(points) != [] ==> nextIndex == old(nextIndex)[AO := AddedEnd(points, old(NextIndexFor(AO))) + 1])
                && (AddedNames(points) == [] ==> nextIndex == old(nextIndex))
    {
      ghost var first := NextIndexFor(AO);
      var selector, start;
      selector, start, error := CreateOpenRun(points);
      if error.None? && HasSelector(points) {
        ghost var points3, next3 := pointDefs, nextIndex;
        assert NextIndexFor(AO) == AddedEnd(points, first) + 1;
        CloseSelector(selector, start);
        assert next3[AO := next3[AO]] == next3;
        var run := OpenRun(points, first);
        UpdateInRun(old(pointDefs), run, run[0].(selectorStart := start, selectorEnd := Some(AddedEnd(points, first))));
      }
    }

    /** Validation #1 for one data type: its first repeated index, scanning in catalog order, is an error. */
    method CheckIndexesFor(dt: DataType) returns (error: Option<ConvError>)
      ensures error.None? <==> IndexesUniqueFor(pointDefs, dt)
      ensures error.Some? ==>
                && error.value.DuplicateIndex? && error.value.dataType == dt
                && exists i, j | 0 <= i < j < |pointDefs| ::
                     && pointDefs[i].dataType == dt && pointDefs[i].index == error.value.index
                     && pointDefs[j].dataType == dt && pointDefs[j].index == error.value.index
    {
      var seen: set<int> := {};
      ghost var at: map<int, nat> := map[];
      var i := 0;
      while i < |pointDefs|
        invariant 0 <= i <= |pointDefs|
        invariant seen == at.Keys
        invariant forall x | x in at :: at[x] < i && pointDefs[at[x]].dataType == dt && pointDefs[at[x]].index == x
        invariant forall k | 0 <= k < i && pointDefs[k].dataType == dt :: pointDefs[k].index in seen
        invariant forall a, b | 0 <= a < b < i && pointDefs[a].dataType == dt && pointDefs[b].dataType == dt ::
                    pointDefs[a].index != pointDefs[b].index
      {
        var pt := pointDefs[i];
        if pt.dataType == dt {
          if pt.index in seen {
            ghost var j := at[pt.index];
            assert pointDefs[j].index == pointDefs[i].index;
            return Some(DuplicateIndex(pt.index, dt));
          }
          seen := seen + {pt.index};
          at := at[pt.index := i];
        }
        i := i + 1;
      }
      return None;
    }

    /**
     * Checks the points: indexes are unique within each data type (checked type by type), then
     * every point's name leads to a point of the same data type and index. The source compares
     * the indexes only; see NamesResolveAsWritten.
     */
    method ValidatePoints() returns (error: Option<ConvError>)
      requires Valid()
      ensures error.None? <==> IndexesUnique(pointDefs) && NamesResolve(pointDefs, pointsByName)
      ensures error.Some? && error.value.DuplicateIndex? ==>
                exists i, j | 0 <= i < j < |pointDefs| ::
                  && pointDefs[i].dataType == error.value.dataType && pointDefs[i].index == error.value.index
                  && pointDefs[j].dataType == error.value.dataType && pointDefs[j].index == error.value.index
      ensures error.Some? && !error.value.DuplicateIndex? ==>
                && IndexesUnique(pointDefs) && error.value.DuplicatePoints?
                && exists i | 0 <= i < |pointDefs| ::
                     && error.value.point == pointDefs[i]
                     && error.value.pointByName == pointDefs[FirstOfName(pointDefs, pointsByName, i)]
                     && (error.value.point.dataType != error.value.pointByName.dataType
                         || error.value.point.index != error.value.pointByName.index)
    {
      var types := [AI, AO, BI, BO];
      var t := 0;
      while t < |types|
        invariant 0 <= t <= |types|
        invariant forall u | 0 <= u < t :: IndexesUniqueFor(pointDefs, types[u])
      {
        error := CheckIndexesFor(types[t]);
        if error.Some? {
          IndexesUniqueByType(pointDefs);
          return;
        }
        t := t + 1;
      }
      assert IndexesUniqueFor(pointDefs, types[0]) && IndexesUniqueFor(pointDefs, types[1]);
      assert IndexesUniqueFor(pointDefs, types[2]) && IndexesUniqueFor(pointDefs, types[3]);
      IndexesUniqueByType(pointDefs);
      var i := 0;
      while i < |pointDefs|
        invariant 0 <= i <= |pointDefs|
        invariant forall k | 0 <= k < i ::
                    pointDefs[FirstOfName(pointDefs, pointsByName, k)].dataType == pointDefs[k].dataType
                    && pointDefs[FirstOfName(pointDefs, pointsByName, k)].index == pointDefs[k].index
      {
        assert NameIndexed(pointDefs, pointsByName, i);
        var pt := pointDefs[i];
        var byName := pointDefs[pointsByName[pt.name]];
        assert byName == pointDefs[FirstOfName(pointDefs, pointsByName, i)];
        if byName.dataType != pt.dataType || byName.index != pt.index {
          return Some(DuplicatePoints(pt, byName));
        }
        i := i + 1;
      }
      return None;
    }

    /**
     * Checks the functions, in any order: no point is used by two steps, and every step's
     * point is an output point.
     */
    method ValidateFunctions() returns (error: Option<ConvError>)
      requires Valid()
      ensures error.None? <==> UsesDistinct(functionDefs) && StepsUseOutputs(functionDefs, pointDefs, pointsByName)
      ensures error.Some? ==> error.value.DuplicateUse? || error.value.InputPointInFunction?
      ensures error.Some? && error.value.DuplicateUse? ==>
                && UsedBy(functionDefs, error.value.functionName, error.value.pointName)
                && UsedBy(functionDefs, error.value.otherFunctionName, error.value.pointName)
      ensures error.Some? && error.value.InputPointInFunction? ==>
                && UsedBy(functionDefs, error.value.functionName, error.value.pointName)
                && error.value.pointName in pointsByName && !IsOutputGroup(PointNamed(error.value.pointName).group)
    {
      var pointFunction: map<string, string> := map[];
      ghost var usedAt: map<string, (string, nat)> := map[];
      var todo := functionDefs.Keys;
      ghost var done: set<string> := {};
      while todo != {}
        invariant todo <= functionDefs.Keys && done == functionDefs.Keys - todo
        invariant pointFunction == FunctionsOf(usedAt) && UsesBefore(usedAt, done, "", 0)
        invariant UsesReal(functionDefs, usedAt) && UsesRecorded(functionDefs, done, usedAt)
        invariant OutputsIn(functionDefs, done, pointDefs, pointsByName)
        decreases |todo|
      {
        var f := Pick(todo);
        pointFunction, usedAt, error := CheckFunctionSteps(functionDefs, pointDefs, pointsByName, f, pointFunction, usedAt, done);
        if error.Some? {
          return;
        }
        todo := todo - {f};
        done := done + {f};
      }
      assert done == functionDefs.Keys;
      UsesDistinctByRecord(functionDefs, usedAt);
      return None;
    }
  }
}
