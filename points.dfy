/**
 * DNP3 point definitions and the point values an outstation receives from its master
 * (PointDefinition and PointValue of the base DNP3 agent).
 *
 * A point definition arrives as a JSON object; PointRecord holds its attributes with
 * None for an absent key, and ValidatePoint turns it into a PointDefinition or names the
 * first rule it breaks, in the order the agent checks them.
 */
module Points {
  import opened Wrappers

  /** The point types of the DNP3 object groups (IEEE Std 1815, Annex A). */
  datatype PointType =
    | BinaryInput | DoubleBitBinary | BinaryOutput | Counter | AnalogInput | AnalogOutput
    | TimeAndDate | ClassObjects | FileControl | InternalIndications | DeviceStorage
    | DeviceProfile | DataSetRegistration | DataSetPrototype | DataSetDescriptor | DataSet
    | DataSetEvent | Application | StatusOfRequestedOperation | FloatingPoint | Bcd
    | UnsignedInteger | OctetString | VirtualTerminal | Authentication | SecurityStatistic

  /** Every object group that has a point type. */
  predicate KnownGroup(group: int)
  {
    || 1 <= group <= 4 || 10 <= group <= 13 || 20 <= group <= 23 || 30 <= group <= 34
    || 40 <= group <= 43 || 50 <= group <= 52 || group == 60 || group == 70
    || 80 <= group <= 83 || 85 <= group <= 88 || 90 <= group <= 91 || 100 <= group <= 102
    || 110 <= group <= 113 || 120 <= group <= 122
  }

  /** The point type of an object group, None for a group the table does not list. */
  function PointTypeForGroup(group: int): (r: Option<PointType>)
    ensures r.None? <==> !KnownGroup(group)
    ensures r == Some(BinaryInput) <==> 1 <= group <= 2
    ensures r == Some(BinaryOutput) <==> 10 <= group <= 13
    ensures r == Some(AnalogInput) <==> 30 <= group <= 34
    ensures r == Some(AnalogOutput) <==> 40 <= group <= 43
  {
    if 1 <= group <= 2 then Some(BinaryInput)
    else if 3 <= group <= 4 then Some(DoubleBitBinary)
    else if 10 <= group <= 13 then Some(BinaryOutput)
    else if 20 <= group <= 23 then Some(Counter)
    else if 30 <= group <= 34 then Some(AnalogInput)
    else if 40 <= group <= 43 then Some(AnalogOutput)
    else if 50 <= group <= 52 then Some(TimeAndDate)
    else if group == 60 then Some(ClassObjects)
    else if group == 70 then Some(FileControl)
    else if group == 80 then Some(InternalIndications)
    else if group == 81 then Some(DeviceStorage)
    else if group == 82 then Some(DeviceProfile)
    else if group == 83 then Some(DataSetRegistration)
    else if group == 85 then Some(DataSetPrototype)
    else if group == 86 then Some(DataSetDescriptor)
    else if group == 87 then Some(DataSet)
    else if group == 88 then Some(DataSetEvent)
    else if group == 90 then Some(Application)
    else if group == 91 then Some(StatusOfRequestedOperation)
    else if group == 100 then Some(FloatingPoint)
    else if group == 101 then Some(Bcd)
    else if group == 102 then Some(UnsignedInteger)
    else if 110 <= group <= 111 then Some(OctetString)
    else if 112 <= group <= 113 then Some(VirtualTerminal)
    else if group == 120 then Some(Authentication)
    else if 121 <= group <= 122 then Some(SecurityStatistic)
    else None
  }

  datatype EventDefault = EventDefault(group: int, variation: int)

  /** Default event group and variation; only the four analog/binary input/output types have one. */
  function EventDefaults(t: Option<PointType>): (r: Option<EventDefault>)
    ensures r.Some? <==> t in {Some(AnalogInput), Some(AnalogOutput), Some(BinaryInput), Some(BinaryOutput)}
    ensures r.Some? ==> PointTypeForGroup(r.value.group) == t
  {
    match t
    case Some(AnalogInput) => Some(EventDefault(32, 3))
    case Some(AnalogOutput) => Some(EventDefault(42, 3))
    case Some(BinaryInput) => Some(EventDefault(2, 1))
    case Some(BinaryOutput) => Some(EventDefault(11, 1))
    case _ => None
  }

  const ArrayType := "array"
  const SelectorBlockType := "selector_block"

  /** The attributes of one JSON point definition; None stands for an absent (or null) key. */
  datatype PointRecord = PointRecord(
    name: Option<string>,
    kind: Option<string>,
    group: Option<int>,
    variation: Option<int>,
    index: Option<int>,
    description: Option<string>,
    scalingMultiplier: Option<int>,
    units: Option<string>,
    eventClass: Option<int>,
    eventGroup: Option<int>,
    eventVariation: Option<int>,
    arrayPoints: Option<seq<string>>,
    arrayTimesRepeated: Option<int>,
    selectorBlockStart: Option<int>,
    selectorBlockEnd: Option<int>,
    saveOnWrite: Option<bool>)

  /**
   * What kind of point a definition is. An array names its columns (the `name` of each
   * `array_points` entry) and how many rows it has; a selector block has an inclusive index
   * range and says whether a write to it saves a snapshot.
   */
  datatype Shape =
    | Plain
    | ArrayShape(columns: seq<string>, timesRepeated: int)
    | SelectorBlockShape(start: int, end: int, saveOnWrite: bool)

  datatype PointDefinition = PointDefinition(
    name: string,
    group: int,
    variation: int,
    index: int,
    description: string,
    scalingMultiplier: int,
    units: string,
    eventClass: int,
    eventGroup: int,
    eventVariation: int,
    shape: Shape)
  {
    /** The point type, derived from the group; indexes are unique within a point type. */
    function PointTypeOf(): Option<PointType>
    {
      PointTypeForGroup(group)
    }

    predicate IsArray() { shape.ArrayShape? }

    predicate IsSelectorBlock() { shape.SelectorBlockShape? }

    /** The last index of an array: each of its rows takes one index per column. */
    function ArrayLastIndex(): Option<int>
    {
      if IsArray() then Some(index + shape.timesRepeated * |shape.columns| - 1) else None
    }

    /** Whether an index falls in `[index, ArrayLastIndex()]`; false for a non-array. */
    predicate ArrayContains(i: int)
    {
      IsArray() && index <= i <= ArrayLastIndex().value
    }
  }

  /** The rule a rejected point definition breaks. */
  datatype PointError =
    | InvalidType
    | MissingGroup
    | MissingVariation
    | MissingIndex
    | MissingEventGroup
    | MissingEventVariation
    | MissingArrayPoints
    | MissingArrayTimesRepeated
    | ArrayPointsOnNonArray
    | ArrayTimesRepeatedOnNonArray
    | MissingSelectorBlockStart
    | MissingSelectorBlockEnd
    | SelectorBlockEndBeforeStart
    | SelectorBlockStartOnNonSelectorBlock
    | SelectorBlockEndOnNonSelectorBlock
    | SaveOnWriteOnNonSelectorBlock

  /** The rules of a valid point definition, stated all at once. */
  predicate Admissible(rec: PointRecord)
  {
    var isArray := rec.kind == Some(ArrayType);
    var isBlock := rec.kind == Some(SelectorBlockType);
    && (rec.kind.None? || isArray || isBlock)
    && rec.group.Some? && rec.variation.Some? && rec.index.Some?
    && (rec.eventGroup.Some? || EventDefaults(PointTypeForGroup(rec.group.value)).Some?)
    && (rec.eventVariation.Some? || EventDefaults(PointTypeForGroup(rec.group.value)).Some?)
    && (isArray <==> rec.arrayPoints.Some?)
    && (isArray <==> rec.arrayTimesRepeated.Some?)
    && (isBlock <==> rec.selectorBlockStart.Some?)
    && (isBlock <==> rec.selectorBlockEnd.Some?)
    && (isBlock ==> rec.selectorBlockStart.value <= rec.selectorBlockEnd.value)
    && (!isBlock ==> rec.saveOnWrite.None?)
  }

  function OrElse<T>(o: Option<T>, default: T): T
  {
    if o.Some? then o.value else default
  }

  /**
   * Builds a PointDefinition from a record, filling the defaults (empty name, description
   * and units, scaling 1, event class 2, event group and variation by point type,
   * save-on-write false for a selector block) and rejecting the record at the first rule
   * it breaks, in the agent's order.
   */
  function ValidatePoint(rec: PointRecord): (r: Result<PointDefinition, PointError>)
    ensures r.Ok? <==> Admissible(rec)
    ensures (rec.kind.Some? && rec.kind.value != ArrayType && rec.kind.value != SelectorBlockType)
              ==> r == Err(InvalidType)
    ensures r.Ok? ==>
              var d := r.value;
              var defaults := EventDefaults(PointTypeForGroup(rec.group.value));
              && d.name == OrElse(rec.name, "")
              && d.group == rec.group.value && d.variation == rec.variation.value
              && d.index == rec.index.value
              && d.description == OrElse(rec.description, "")
              && d.scalingMultiplier == OrElse(rec.scalingMultiplier, 1)
              && d.units == OrElse(rec.units, "")
              && d.eventClass == OrElse(rec.eventClass, 2)
              && d.eventGroup == (if rec.eventGroup.Some? then rec.eventGroup.value else defaults.value.group)
              && d.eventVariation
                   == (if rec.eventVariation.Some? then rec.eventVariation.value else defaults.value.variation)
              && (d.IsArray() <==> rec.kind == Some(ArrayType))
              && (d.IsSelectorBlock() <==> rec.kind == Some(SelectorBlockType))
              && (d.IsArray() ==> d.shape == ArrayShape(rec.arrayPoints.value, rec.arrayTimesRepeated.value))
              && (d.IsSelectorBlock() ==>
                    d.shape == SelectorBlockShape(rec.selectorBlockStart.value, rec.selectorBlockEnd.value,
                                                  OrElse(rec.saveOnWrite, false)))
  {
    if rec.kind.Some? && rec.kind.value != ArrayType && rec.kind.value != SelectorBlockType then Err(InvalidType)
    else if rec.group.None? then Err(MissingGroup)
    else if rec.variation.None? then Err(MissingVariation)
    else if rec.index.None? then Err(MissingIndex)
    else
      var defaults := EventDefaults(PointTypeForGroup(rec.group.value));
      if rec.eventGroup.None? && defaults.None? then Err(MissingEventGroup)
      else if rec.eventVariation.None? && defaults.None? then Err(MissingEventVariation)
      else
        var eventGroup := if rec.eventGroup.Some? then rec.eventGroup.value else defaults.value.group;
        var eventVariation := if rec.eventVariation.Some? then rec.eventVariation.value else defaults.value.variation;
        var isArray := rec.kind == Some(ArrayType);
        var isBlock := rec.kind == Some(SelectorBlockType);
        if isArray && rec.arrayPoints.None? then Err(MissingArrayPoints)
        else if isArray && rec.arrayTimesRepeated.None? then Err(MissingArrayTimesRepeated)
        else if !isArray && rec.arrayPoints.Some? then Err(ArrayPointsOnNonArray)
        else if !isArray && rec.arrayTimesRepeated.Some? then Err(ArrayTimesRepeatedOnNonArray)
        else if isBlock && rec.selectorBlockStart.None? then Err(MissingSelectorBlockStart)
        else if isBlock && rec.selectorBlockEnd.None? then Err(MissingSelectorBlockEnd)
        else if isBlock && rec.selectorBlockStart.value > rec.selectorBlockEnd.value then Err(SelectorBlockEndBeforeStart)
        else if !isBlock && rec.selectorBlockStart.Some? then Err(SelectorBlockStartOnNonSelectorBlock)
        else if !isBlock && rec.selectorBlockEnd.Some? then Err(SelectorBlockEndOnNonSelectorBlock)
        else if !isBlock && rec.saveOnWrite.Some? then Err(SaveOnWriteOnNonSelectorBlock)
        else
          var shape :=
            if isArray then ArrayShape(rec.arrayPoints.value, rec.arrayTimesRepeated.value)
            else if isBlock then SelectorBlockShape(rec.selectorBlockStart.value, rec.selectorBlockEnd.value,
                                                    OrElse(rec.saveOnWrite, false))
            else Plain;
          Ok(PointDefinition(OrElse(rec.name, ""), rec.group.value, rec.variation.value, rec.index.value,
                             OrElse(rec.description, ""), OrElse(rec.scalingMultiplier, 1),
                             OrElse(rec.units, ""), OrElse(rec.eventClass, 2), eventGroup, eventVariation, shape))
  }

  /** Every valid definition has an event group whose point type is its own, unless it names one. */
  lemma ValidatedEventGroup(rec: PointRecord)
    requires ValidatePoint(rec).Ok? && rec.eventGroup.None?
    ensures PointTypeForGroup(ValidatePoint(rec).value.eventGroup) == ValidatePoint(rec).value.PointTypeOf()
  {
  }

  /** An array's index range holds exactly `timesRepeated` rows of one index per column. */
  lemma {:induction false} ArrayRange(d: PointDefinition, i: int)
    requires d.IsArray() && |d.shape.columns| > 0
    ensures d.ArrayContains(i) <==>
              d.index <= i && (i - d.index) / |d.shape.columns| < d.shape.timesRepeated
  {
    var size := |d.shape.columns|;
    var off := i - d.index;
    if 0 <= off {
      DivBelow(off, size, d.shape.timesRepeated);
    }
  }

  /** `off / size < n` exactly when `off < n * size`, for a non-negative offset and positive size. */
  lemma DivBelow(off: int, size: int, n: int)
    requires 0 <= off && 0 < size
    ensures off / size < n <==> off <= n * size - 1
  {
    var q, rem := off / size, off % size;
    assert off == q * size + rem && 0 <= rem < size;
    if q < n {
      assert q + 1 <= n;
      MulMono(q + 1, n, size);
    } else {
      MulMono(n, q, size);
    }
  }

  lemma MulMono(a: int, b: int, c: int)
    requires a <= b && 0 < c
    ensures a * c <= b * c
  {
    assert b * c - a * c == (b - a) * c;
  }

  datatype CommandType = Select | Operate

  /** The control codes of a Control Relay Output Block command. */
  datatype ControlCode = Nul | PulseOn | PulseOff | LatchOn | LatchOff | ClosePulseOn | TripPulseOn | Undefined

  /** A value the agent passes on: a number, or the on/off state of a binary command. */
  datatype Unwrapped = Num(n: int) | Flag(b: bool)

  /**
   * A value written by the master. `index` is the index the master wrote, which for an
   * array point differs from the index of the array's head definition `pointDef`.
   */
  datatype PointValue = PointValue(
    commandType: CommandType,
    functionCode: Option<ControlCode>,
    value: Option<int>,
    pointDef: PointDefinition,
    index: int)
  {
    function Name(): string { pointDef.name }

    /** The write is to the head point of an array. */
    predicate StartsArray()
    {
      pointDef.IsArray() && index == pointDef.index
    }

    /** The array row of this write (floor division, which is Dafny's for a positive divisor). */
    function ArrayElement(size: int): int
      requires size > 0
    {
      (index - pointDef.index) / size
    }

    /** The array column of this write. */
    function ArrayPointsIndex(size: int): int
      requires size > 0
    {
      (index - pointDef.index) % size
    }

    /** The written value; a binary command without a value is on exactly when it latches on. */
    function UnwrappedValue(): (r: Unwrapped)
      ensures r.Num? <==> value.Some?
      ensures r.Num? ==> r.n == value.value
      ensures r.Flag? ==> (r.b <==> functionCode == Some(LatchOn))
    {
      if value.None? then Flag(functionCode == Some(LatchOn)) else Num(value.value)
    }
  }

  /**
   * Array addressing round trip: the index `head + size * row + col` that the agent uses to
   * echo cell (row, col) decodes back to that row and column, and every write decodes to a
   * column in range.
   */
  lemma {:induction false} ArrayAddressRoundTrip(pv: PointValue, size: int, row: int, col: int)
    requires size > 0 && 0 <= col < size
    requires pv.index == pv.pointDef.index + size * row + col
    ensures pv.ArrayElement(size) == row && pv.ArrayPointsIndex(size) == col
  {
    var off := pv.index - pv.pointDef.index;
    assert off == row * size + col;
    DivModUnique(off, size, row, col);
  }

  /** The row and column of any write reassemble its index. */
  lemma ArrayAddressCovers(pv: PointValue, size: int)
    requires size > 0
    ensures 0 <= pv.ArrayPointsIndex(size) < size
    ensures pv.index == pv.pointDef.index + size * pv.ArrayElement(size) + pv.ArrayPointsIndex(size)
  {
  }

  lemma DivModUnique(off: int, size: int, q: int, rem: int)
    requires 0 < size && 0 <= rem < size && off == q * size + rem
    ensures off / size == q && off % size == rem
  {
    var q', r' := off / size, off % size;
    assert off == q' * size + r';
    if q' < q {
      MulMono(q' + 1, q, size);
      assert false;
    } else if q < q' {
      MulMono(q + 1, q', size);
      assert false;
    }
  }
}
