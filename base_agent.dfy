/**
 * The DNP3 outstation agent's handling of a command from the master: resolving it to a
 * PointValue through the point catalog, caching the latest value of each point, and the
 * command status returned to the master.
 */
module BaseAgent {
  import opened Wrappers
  import opened Points
  import opened Catalog

  /** The status returned to the master for a Select or Operate. */
  datatype CommandStatus = Success | DownstreamFail

  /** A Control Relay Output Block (a binary command) or an analog output value. */
  datatype Command = Crob(code: ControlCode) | AnalogCommand(value: int)

  /** A Control Relay Output Block addresses a Binary Output, anything else an Analog Output. */
  function CommandPointType(command: Command): (r: PointType)
    ensures r == BinaryOutput <==> command.Crob?
    ensures r == AnalogOutput <==> command.AnalogCommand?
  {
    if command.Crob? then BinaryOutput else AnalogOutput
  }

  /** The value a command carries: a control code for a binary command, a number otherwise. */
  function CommandPointValue(commandType: CommandType, command: Command, def: PointDefinition, index: int): (r: PointValue)
    ensures r.pointDef == def && r.index == index && r.commandType == commandType
    ensures r.functionCode.Some? <==> command.Crob?
    ensures r.value.Some? <==> command.AnalogCommand?
    ensures command.Crob? ==> r.UnwrappedValue() == Flag(command.code == LatchOn)
    ensures command.AnalogCommand? ==> r.UnwrappedValue() == Num(command.value)
  {
    match command
    case Crob(code) => PointValue(commandType, Some(code), None, def, index)
    case AnalogCommand(v) => PointValue(commandType, None, Some(v), def, index)
  }

  datatype CommandError = NoPointDefinition(pointType: PointType, index: int)

  /** The value cached at a point type and index; None when absent. */
  function Lookup(values: map<TypeKey, map<int, PointValue>>, key: TypeKey, index: int): (r: Option<PointValue>)
    ensures r.None? <==> key !in values || index !in values[key]
    ensures r.Some? ==> r.value == values[key][index]
  {
    if key !in values then None
    else if index !in values[key] then None
    else Some(values[key][index])
  }

  /** The latest value received for each point, by point type and index. */
  class CurrentValues {
    var values: map<TypeKey, map<int, PointValue>>

    constructor ()
      ensures values == map[]
    {
      values := map[];
    }

    /** The latest value for a point; None when none was received. */
    function Get(key: TypeKey, index: int): (r: Option<PointValue>)
      reads this
      ensures r == Lookup(values, key, index)
    {
      Lookup(values, key, index)
    }

    /** Records a value; only the entry at its point type and index changes. */
    method Add(v: PointValue)
      modifies this
      ensures Get(v.pointDef.PointTypeOf(), v.index) == Some(v)
      ensures forall key, i | (key, i) != (v.pointDef.PointTypeOf(), v.index) ::
                Lookup(values, key, i) == Lookup(old(values), key, i)
    {
      var key := v.pointDef.PointTypeOf();
      if key !in values {
        values := values[key := map[]];
      }
      values := values[key := values[key][v.index := v]];
    }

    /**
     * Forgets a value; only the entry at its point type and index changes. The entry's
     * type table exists afterwards, as the agent creates it before deleting.
     */
    method Discard(v: PointValue)
      modifies this
      ensures Get(v.pointDef.PointTypeOf(), v.index) == None
      ensures forall key, i | (key, i) != (v.pointDef.PointTypeOf(), v.index) ::
                Lookup(values, key, i) == Lookup(old(values), key, i)
      ensures v.pointDef.PointTypeOf() in values
    {
      var key := v.pointDef.PointTypeOf();
      if key !in values {
        values := values[key := map[]];
      }
      values := values[key := values[key] - {v.index}];
    }
  }

  /** A published point value: the point's name and its value. */
  datatype PointMessage = PointMessage(name: string, value: Unwrapped)

  /** The generic outstation agent: it caches and publishes each operated value. */
  class BaseDnp3Agent {
    const catalog: PointDefinitions
    const cache: CurrentValues

    constructor (catalog: PointDefinitions)
      ensures this.catalog == catalog && fresh(cache) && cache.values == map[]
    {
      this.catalog := catalog;
      cache := new CurrentValues();
    }

    /** The PointValue for a command, looked up by the command's point type and index. */
    function PointValueForCommand(commandType: CommandType, command: Command, index: int): (r: Result<PointValue, CommandError>)
      reads catalog
      requires catalog.Valid()
      ensures r.Ok? <==> catalog.ForPointTypeAndIndex(Some(CommandPointType(command)), index).Some?
      ensures r.Ok? ==> r.value.pointDef.PointTypeOf() == Some(CommandPointType(command))
                        && r.value == CommandPointValue(commandType, command, r.value.pointDef, index)
      ensures r.Err? ==> r.error == NoPointDefinition(CommandPointType(command), index)
    {
      var def := catalog.ForPointTypeAndIndex(Some(CommandPointType(command)), index);
      if def.None? then Err(NoPointDefinition(CommandPointType(command), index))
      else Ok(CommandPointValue(commandType, command, def.value, index))
    }

    /**
     * A command from the master: an unknown point fails; a Select succeeds and changes
     * nothing; an Operate caches and publishes the value and succeeds.
     */
    method ProcessPointValue(commandType: CommandType, command: Command, index: int)
      returns (status: CommandStatus, published: Option<PointMessage>)
      requires catalog.Valid()
      modifies cache
      ensures var pv := PointValueForCommand(commandType, command, index);
              && (pv.Err? ==> status == DownstreamFail && published == None && cache.values == old(cache.values))
              && (pv.Ok? && commandType == Select ==> status == Success && published == None && cache.values == old(cache.values))
              && (pv.Ok? && commandType == Operate ==>
                    && status == Success
                    && published == Some(PointMessage(pv.value.Name(), pv.value.UnwrappedValue()))
                    && cache.Get(Some(CommandPointType(command)), index) == Some(pv.value)
                    && forall key, i | (key, i) != (Some(CommandPointType(command)), index) ::
                         Lookup(cache.values, key, i) == Lookup(old(cache.values), key, i))
    {
      var pv := PointValueForCommand(commandType, command, index);
      if pv.Err? {
        return DownstreamFail, None;
      }
      if commandType == Select {
        return Success, None;
      }
      cache.Add(pv.value);
      return Success, Some(PointMessage(pv.value.Name(), pv.value.UnwrappedValue()));
    }
  }
}
