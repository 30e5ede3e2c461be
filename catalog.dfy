/**
 * The point catalog (PointDefinitions of the base DNP3 agent): every point definition,
 * keyed by point type and then by index, and a lazily built index by name.
 */
module Catalog {
  import opened Wrappers
  import opened Points

  /** A point type as the catalog keys it; a group outside the table gives None. */
  type TypeKey = Option<PointType>

  /** The catalog's two-level dictionary: point type, then index. */
  type Table = map<TypeKey, map<int, PointDefinition>>

  datatype LoadError =
    | InvalidPoint(error: PointError)
    | DuplicatePoint(key: TypeKey, index: int)
    | MissingTypeTable(key: TypeKey)

  predicate Has(t: Table, k: TypeKey, i: int)
  {
    k in t && i in t[k]
  }

  /** Every entry sits under its own point type and its own index. */
  predicate WellKeyed(t: Table)
  {
    forall k, i | k in t && i in t[k] :: t[k][i].index == i && t[k][i].PointTypeOf() == k
  }

  /** Whatever `t` holds, `t'` holds unchanged. */
  predicate Extends(t: Table, t': Table)
  {
    forall k, i | k in t && i in t[k] :: k in t' && i in t'[k] && t'[k][i] == t[k][i]
  }

  /** The record the catalog builds for column `offset` of an array head: name of the column, index after the head, head's group, variation, scaling and units. */
  function ColumnRecord(head: PointDefinition, offset: int): PointRecord
    requires head.IsArray() && 0 <= offset < |head.shape.columns|
  {
    PointRecord(Some(head.shape.columns[offset]), None, Some(head.group), Some(head.variation),
                Some(head.index + offset), None, Some(head.scalingMultiplier), Some(head.units),
                None, None, None, None, None, None, None, None)
  }

  /**
   * Adds the definition of one array column. A column that does not validate fails the
   * load; a column whose index is taken is skipped; the type's table must already exist.
   */
  function ExpandOne(t: Table, head: PointDefinition, offset: int): (Table, Option<LoadError>)
    requires head.IsArray() && 0 <= offset < |head.shape.columns|
  {
    var col := ValidatePoint(ColumnRecord(head, offset));
    if col.Err? then (t, Some(InvalidPoint(col.error)))
    else
      var d := col.value;
      var k := d.PointTypeOf();
      if k !in t then (t, Some(MissingTypeTable(k)))
      else if d.index in t[k] then (t, None)
      else (t[k := t[k][d.index := d]], None)
  }

  /** The catalog after expanding columns 1 .. n-1 of an array head, stopping at the first error. */
  function ExpandUpTo(t: Table, head: PointDefinition, n: int): (Table, Option<LoadError>)
    requires head.IsArray() && n <= |head.shape.columns|
    decreases n
  {
    if n <= 1 then (t, None)
    else
      var (t', e) := ExpandUpTo(t, head, n - 1);
      if e.Some? then (t', e) else ExpandOne(t', head, n - 1)
  }

  /** Adds a head definition, failing when its (point type, index) is taken. */
  function AddDefinition(t: Table, d: PointDefinition): (Table, Option<LoadError>)
    requires d.PointTypeOf() in t
  {
    var k := d.PointTypeOf();
    if d.index in t[k] then (t, Some(DuplicatePoint(k, d.index)))
    else (t[k := t[k][d.index := d]], None)
  }

  /**
   * One element of the load, as the agent runs it: validate, expand an array's columns,
   * only then create the point type's table, and add the definition.
   */
  function LoadStepAsWritten(t: Table, rec: PointRecord): (Table, Option<LoadError>)
  {
    var r := ValidatePoint(rec);
    if r.Err? then (t, Some(InvalidPoint(r.error)))
    else
      var d := r.value;
      var (t1, e) := if d.IsArray() then ExpandUpTo(t, d, |d.shape.columns|) else (t, None);
      if e.Some? then (t1, e)
      else
        var k := d.PointTypeOf();
        AddDefinition(if k in t1 then t1 else t1[k := map[]], d)
  }

  /** One element of the load with the point type's table created before the columns are expanded. */
  function LoadStep(t: Table, rec: PointRecord): (Table, Option<LoadError>)
  {
    var r := ValidatePoint(rec);
    if r.Err? then (t, Some(InvalidPoint(r.error)))
    else
      var d := r.value;
      var k := d.PointTypeOf();
      var t0 := if k in t then t else t[k := map[]];
      var (t1, e) := if d.IsArray() then ExpandUpTo(t0, d, |d.shape.columns|) else (t0, None);
      if e.Some? then (t1, e) else AddDefinition(t1, d)
  }

  /** The catalog after loading `recs` from scratch, with the first error; on an error the catalog keeps what was added before it. */
  function LoadRun(recs: seq<PointRecord>): (Table, Option<LoadError>)
  {
    if recs == [] then (map[], None)
    else
      var (t, e) := LoadRun(recs[..|recs| - 1]);
      if e.Some? then (t, e) else LoadStep(t, recs[|recs| - 1])
  }

  /** The (point type, index) a valid record is filed under. */
  function KeyOf(d: PointDefinition): (TypeKey, int)
  {
    (d.PointTypeOf(), d.index)
  }

  lemma ExtendsTrans(t1: Table, t2: Table, t3: Table)
    requires Extends(t1, t2) && Extends(t2, t3)
    ensures Extends(t1, t3)
  {
  }

  lemma {:induction false} ExpandUpToGrows(t: Table, head: PointDefinition, n: int)
    requires head.IsArray() && n <= |head.shape.columns|
    requires WellKeyed(t)
    ensures Extends(t, ExpandUpTo(t, head, n).0) && WellKeyed(ExpandUpTo(t, head, n).0)
    decreases n
  {
    if n > 1 {
      ExpandUpToGrows(t, head, n - 1);
      var (t', e) := ExpandUpTo(t, head, n - 1);
      if e.None? {
        ExpandOneGrows(t', head, n - 1);
        ExtendsTrans(t, t', ExpandOne(t', head, n - 1).0);
      }
    }
  }

  lemma ExpandOneGrows(t: Table, head: PointDefinition, offset: int)
    requires head.IsArray() && 0 <= offset < |head.shape.columns|
    requires WellKeyed(t)
    ensures Extends(t, ExpandOne(t, head, offset).0) && WellKeyed(ExpandOne(t, head, offset).0)
  {
  }

  lemma AddDefinitionGrows(t: Table, d: PointDefinition)
    requires WellKeyed(t) && d.PointTypeOf() in t
    ensures Extends(t, AddDefinition(t, d).0) && WellKeyed(AddDefinition(t, d).0)
    ensures AddDefinition(t, d).1.None? <==> !Has(t, d.PointTypeOf(), d.index)
    ensures AddDefinition(t, d).1.None? ==>
              Has(AddDefinition(t, d).0, d.PointTypeOf(), d.index) &&
              AddDefinition(t, d).0[d.PointTypeOf()][d.index] == d
  {
  }

  lemma LoadStepGrows(t: Table, rec: PointRecord)
    requires WellKeyed(t)
    ensures Extends(t, LoadStep(t, rec).0) && WellKeyed(LoadStep(t, rec).0)
    ensures LoadStep(t, rec).1.None? ==>
              && ValidatePoint(rec).Ok?
              && var d := ValidatePoint(rec).value;
              && !Has(t, d.PointTypeOf(), d.index)
              && Has(LoadStep(t, rec).0, d.PointTypeOf(), d.index)
              && LoadStep(t, rec).0[d.PointTypeOf()][d.index] == d
  {
    var r := ValidatePoint(rec);
    if r.Ok? {
      var d := r.value;
      var k := d.PointTypeOf();
      var t0 := if k in t then t else t[k := map[]];
      assert Extends(t, t0) && WellKeyed(t0);
      var (t1, e) := if d.IsArray() then ExpandUpTo(t0, d, |d.shape.columns|) else (t0, None);
      if d.IsArray() {
        ExpandUpToGrows(t0, d, |d.shape.columns|);
      }
      ExtendsTrans(t, t0, t1);
      if e.None? {
        AddDefinitionGrows(t1, d);
        ExtendsTrans(t, t1, AddDefinition(t1, d).0);
      }
    }
  }

  /** Once a load has failed, the later records change nothing. */
  lemma {:induction false} LoadRunStops(recs: seq<PointRecord>, m: nat)
    requires m <= |recs| && LoadRun(recs[..m]).1.Some?
    ensures LoadRun(recs) == LoadRun(recs[..m])
    decreases |recs|
  {
    if m < |recs| {
      var front := recs[..|recs| - 1];
      assert front[..m] == recs[..m];
      LoadRunStops(front, m);
    } else {
      assert recs[..m] == recs;
    }
  }

  /** A load only ever adds: every catalog it passes through is well keyed. */
  lemma {:induction false} LoadRunWellKeyed(recs: seq<PointRecord>)
    ensures WellKeyed(LoadRun(recs).0)
  {
    if recs != [] {
      LoadRunWellKeyed(recs[..|recs| - 1]);
      LoadStepGrows(LoadRun(recs[..|recs| - 1]).0, recs[|recs| - 1]);
    }
  }

  /**
   * A load that succeeds files every record under its own (point type, index), and no two
   * records share one: a second definition at a taken key fails the whole load.
   */
  lemma {:induction false} LoadRunFilesEveryRecord(recs: seq<PointRecord>)
    requires LoadRun(recs).1.None?
    ensures forall j | 0 <= j < |recs| :: ValidatePoint(recs[j]).Ok?
    ensures forall j | 0 <= j < |recs| ::
              var d := ValidatePoint(recs[j]).value;
              Has(LoadRun(recs).0, d.PointTypeOf(), d.index) && LoadRun(recs).0[d.PointTypeOf()][d.index] == d
    ensures forall i, j | 0 <= i < j < |recs| ::
              KeyOf(ValidatePoint(recs[i]).value) != KeyOf(ValidatePoint(recs[j]).value)
  {
    if recs != [] {
      var front := recs[..|recs| - 1];
      var last := recs[|recs| - 1];
      var t := LoadRun(front).0;
      LoadRunFilesEveryRecord(front);
      LoadRunWellKeyed(front);
      LoadStepGrows(t, last);
      var t' := LoadRun(recs).0;
      assert t' == LoadStep(t, last).0;
      var d := ValidatePoint(last).value;
      forall j | 0 <= j < |recs|
        ensures ValidatePoint(recs[j]).Ok?
        ensures var dj := ValidatePoint(recs[j]).value;
                Has(t', dj.PointTypeOf(), dj.index) && t'[dj.PointTypeOf()][dj.index] == dj
      {
        if j < |recs| - 1 {
          assert recs[j] == front[j];
        }
      }
      forall i, j | 0 <= i < j < |recs|
        ensures KeyOf(ValidatePoint(recs[i]).value) != KeyOf(ValidatePoint(recs[j]).value)
      {
        assert recs[i] == front[i];
        if j < |recs| - 1 {
          assert recs[j] == front[j];
        } else {
          var di := ValidatePoint(recs[i]).value;
          assert Has(t, di.PointTypeOf(), di.index);
        }
      }
    }
  }

  /** The definition the catalog builds for column `offset` of an array. */
  function ColumnDefinition(head: PointDefinition, offset: int): (d: PointDefinition)
    requires head.IsArray() && 0 <= offset < |head.shape.columns|
    requires ValidatePoint(ColumnRecord(head, offset)).Ok?
    ensures d.name == head.shape.columns[offset] && d.index == head.index + offset
    ensures d.group == head.group && d.variation == head.variation && d.shape == Plain
  {
    ValidatePoint(ColumnRecord(head, offset)).value
  }

  /**
   * Array expansion: once it succeeds, each column 1 .. n-1 has an entry at
   * head index + offset under the head's point type. An index that was free holds the
   * column's own definition (head's group and variation, the column's name); an index
   * that was taken keeps its earlier definition.
   */
  lemma {:induction false} ExpandUpToCovers(t: Table, head: PointDefinition, n: int, off: int)
    requires head.IsArray() && n <= |head.shape.columns| && 1 <= off < n
    requires ExpandUpTo(t, head, n).1.None?
    ensures ValidatePoint(ColumnRecord(head, off)).Ok?
    ensures var t' := ExpandUpTo(t, head, n).0;
            var k := head.PointTypeOf();
            && Has(t', k, head.index + off)
            && t'[k][head.index + off] ==
                 (if Has(t, k, head.index + off) then t[k][head.index + off] else ColumnDefinition(head, off))
    decreases n
  {
    var (t1, e1) := ExpandUpTo(t, head, n - 1);
    var k := head.PointTypeOf();
    var i := head.index + off;
    if off < n - 1 {
      ExpandUpToCovers(t, head, n - 1, off);
    } else {
      ExpandUpToLeaves(t, head, n - 1, i);
      if Has(t, k, i) {
        ExpandUpToKeeps(t, head, n - 1, k, i);
      }
    }
  }

  /** Once expansion has failed, the later columns change nothing. */
  lemma {:induction false} ExpandUpToStops(t: Table, head: PointDefinition, m: int, n: int)
    requires head.IsArray() && m <= n <= |head.shape.columns| && ExpandUpTo(t, head, m).1.Some?
    ensures ExpandUpTo(t, head, n) == ExpandUpTo(t, head, m)
    decreases n
  {
    if m < n {
      ExpandUpToStops(t, head, m, n - 1);
    }
  }

  /** Expansion never changes an entry that was there before. */
  lemma {:induction false} ExpandUpToKeeps(t: Table, head: PointDefinition, n: int, k: TypeKey, i: int)
    requires head.IsArray() && n <= |head.shape.columns|
    requires Has(t, k, i)
    ensures Has(ExpandUpTo(t, head, n).0, k, i) && ExpandUpTo(t, head, n).0[k][i] == t[k][i]
    decreases n
  {
    if n > 1 {
      ExpandUpToKeeps(t, head, n - 1, k, i);
    }
  }

  /** Expanding the columns below n touches no index from head index + n on. */
  lemma {:induction false} ExpandUpToLeaves(t: Table, head: PointDefinition, n: int, i: int)
    requires head.IsArray() && n <= |head.shape.columns| && head.index + n <= i
    ensures var k := head.PointTypeOf();
            Has(ExpandUpTo(t, head, n).0, k, i) <==> Has(t, k, i)
    decreases n
  {
    if n > 1 {
      ExpandUpToLeaves(t, head, n - 1, i);
    }
  }

  /**
   * As the agent runs it, an array head with two or more columns whose point type has no
   * table yet fails the load at its first column, before the table is created.
   */
  lemma {:induction false} ArrayFirstOfItsTypeFails(t: Table, rec: PointRecord)
    requires ValidatePoint(rec).Ok? && ValidatePoint(rec).value.IsArray()
    requires |ValidatePoint(rec).value.shape.columns| >= 2
    requires ValidatePoint(rec).value.PointTypeOf() !in t
    requires ValidatePoint(ColumnRecord(ValidatePoint(rec).value, 1)).Ok?
    ensures LoadStepAsWritten(t, rec).1 == Some(MissingTypeTable(ValidatePoint(rec).value.PointTypeOf()))
  {
    var d := ValidatePoint(rec).value;
    assert ExpandUpTo(t, d, 2).1 == Some(MissingTypeTable(d.PointTypeOf()));
    ExpandUpToStops(t, d, 2, |d.shape.columns|);
  }

  /** A two-column analog output curve at index 0, the first point of its type. */
  function CurveRecord(): PointRecord
  {
    PointRecord(Some("curve"), Some(ArrayType), Some(40), Some(1), Some(0), None, None, None, None,
                None, None, Some(["x", "y"]), Some(10), None, None, None)
  }

  /** The as-written load of a catalog whose first point is that curve fails. */
  lemma CurveFirstFailsAsWritten()
    ensures LoadStepAsWritten(map[], CurveRecord()).1 == Some(MissingTypeTable(Some(AnalogOutput)))
  {
    ArrayFirstOfItsTypeFails(map[], CurveRecord());
  }

  /** The corrected load files the curve's head at 0 and its second column at 1. */
  lemma CurveFirstLoads()
    ensures LoadRun([CurveRecord()]).1.None?
    ensures Has(LoadRun([CurveRecord()]).0, Some(AnalogOutput), 0)
    ensures Has(LoadRun([CurveRecord()]).0, Some(AnalogOutput), 1)
    ensures LoadRun([CurveRecord()]).0[Some(AnalogOutput)][1].name == "y"
  {
    var recs := [CurveRecord()];
    assert recs[..0] == [];
    var d := ValidatePoint(CurveRecord()).value;
    var t0: Table := map[Some(AnalogOutput) := map[]];
    assert ExpandUpTo(t0, d, 1) == (t0, None);
    assert ExpandUpTo(t0, d, 2).1.None?;
  }

  /** Every definition in the catalog. */
  function AllDefs(t: Table): set<PointDefinition>
  {
    set k, i | k in t && i in t[k] :: t[k][i]
  }

  /** No two definitions in the catalog share a name. */
  predicate UniqueNames(t: Table)
  {
    forall d1, d2 | d1 in AllDefs(t) && d2 in AllDefs(t) && d1.name == d2.name :: d1 == d2
  }

  predicate UniqueNamesIn(defs: set<PointDefinition>)
  {
    forall d1, d2 | d1 in defs && d2 in defs && d1.name == d2.name :: d1 == d2
  }

  /** The name index of a set of definitions with distinct names. */
  function NameMap(defs: set<PointDefinition>): (m: map<string, PointDefinition>)
    requires UniqueNamesIn(defs)
    ensures forall n | n in m :: m[n] in defs && m[n].name == n
    ensures forall d | d in defs :: d.name in m && m[d.name] == d
  {
    map d | d in defs :: d.name := d
  }

  /** The definitions filed under the point types `ks`. */
  function DefsOfTypes(t: Table, ks: set<TypeKey>): set<PointDefinition>
  {
    set k, i | k in ks && k in t && i in t[k] :: t[k][i]
  }

  /** The definitions of one point type's table at `indexes`. */
  function DefsOfIndexes(byIndex: map<int, PointDefinition>, indexes: set<int>): set<PointDefinition>
  {
    set i | i in indexes && i in byIndex :: byIndex[i]
  }

  lemma DefsOfTypesStep(t: Table, ks: set<TypeKey>, k: TypeKey)
    requires k in t && k !in ks
    ensures DefsOfTypes(t, ks + {k}) == DefsOfTypes(t, ks) + DefsOfIndexes(t[k], t[k].Keys)
  {
  }

  /** `idx` indexes exactly the definitions `defs` by name. */
  predicate IndexOf(idx: map<string, PointDefinition>, defs: set<PointDefinition>)
  {
    && (forall n | n in idx :: idx[n] in defs && idx[n].name == n)
    && (forall d | d in defs :: d.name in idx && idx[d.name] == d)
  }

  /**
   * Adds the definitions of one point type's table to the name index `idx` of `seen`,
   * stopping at the first name already indexed.
   */
  method IndexTable(byIndex: map<int, PointDefinition>, idx: map<string, PointDefinition>, ghost seen: set<PointDefinition>)
    returns (idx': map<string, PointDefinition>, dup: Option<string>)
    requires IndexOf(idx, seen)
    requires forall i | i in byIndex :: byIndex[i].index == i && byIndex[i] !in seen
    ensures var all := seen + DefsOfIndexes(byIndex, byIndex.Keys);
            && (dup.None? ==> IndexOf(idx', all))
            && (dup.Some? ==> (forall n | n in idx' :: idx'[n] in all && idx'[n].name == n)
                              && exists d1, d2 | d1 in all && d2 in all :: d1 != d2 && d1.name == d2.name == dup.value)
  {
    var indexes := byIndex.Keys;
    idx' := idx;
    ghost var walked := seen;
    while indexes != {}
      invariant indexes <= byIndex.Keys
      invariant walked == seen + DefsOfIndexes(byIndex, byIndex.Keys - indexes)
      invariant IndexOf(idx', walked)
      decreases indexes
    {
      var i := Pick(indexes);
      var d := byIndex[i];
      DefsOfIndexesGrow(byIndex, byIndex.Keys - indexes);
      if d.name in idx' {
        ghost var other := idx'[d.name];
        assert other != d by {
          if other in DefsOfIndexes(byIndex, byIndex.Keys - indexes) {
            var j :| j in byIndex.Keys - indexes && byIndex[j] == other;
          }
        }
        return idx', Some(d.name);
      }
      IndexOfAdd(idx', walked, d);
      DefsOfIndexesStep(byIndex, byIndex.Keys - indexes, i);
      assert byIndex.Keys - (indexes - {i}) == (byIndex.Keys - indexes) + {i};
      idx' := idx'[d.name := d];
      walked := walked + {d};
      indexes := indexes - {i};
    }
    assert byIndex.Keys - indexes == byIndex.Keys;
    dup := None;
  }

  /** Walks the catalog's tables in no particular order, building the name index until a name repeats. */
  method NameIndexOf(t: Table) returns (index: map<string, PointDefinition>, dup: Option<string>)
    requires WellKeyed(t)
    ensures dup.None? <==> UniqueNames(t)
    ensures dup.None? ==> index == NameMap(AllDefs(t))
    ensures dup.Some? ==>
              && (forall n | n in index :: index[n] in AllDefs(t) && index[n].name == n)
              && exists d1, d2 | d1 in AllDefs(t) && d2 in AllDefs(t) :: d1 != d2 && d1.name == d2.name == dup.value
  {
    var types := t.Keys;
    index := map[];
    ghost var seen: set<PointDefinition> := {};
    while types != {}
      invariant types <= t.Keys
      invariant seen == DefsOfTypes(t, t.Keys - types)
      invariant IndexOf(index, seen)
      decreases types
    {
      var k := Pick(types);
      TypesApart(t, t.Keys - types, k);
      index, dup := IndexTable(t[k], index, seen);
      DefsOfTypesStep(t, t.Keys - types, k);
      assert t.Keys - (types - {k}) == (t.Keys - types) + {k};
      if dup.Some? {
        DefsOfTypesGrow(t, t.Keys - (types - {k}));
        return;
      }
      seen := seen + DefsOfIndexes(t[k], t[k].Keys);
      types := types - {k};
    }
    assert seen == AllDefs(t) by { DefsOfTypesGrow(t, t.Keys); }
    IndexOfIsNameMap(index, seen);
    dup := None;
  }

  /** Definitions filed under different point types, or at different indexes of one type, differ. */
  lemma TypesApart(t: Table, done: set<TypeKey>, k: TypeKey)
    requires WellKeyed(t) && k in t && k !in done
    ensures forall i | i in t[k] :: t[k][i].index == i && t[k][i] !in DefsOfTypes(t, done)
  {
  }

  lemma DefsOfIndexesGrow(byIndex: map<int, PointDefinition>, done: set<int>)
    ensures DefsOfIndexes(byIndex, done) <= DefsOfIndexes(byIndex, byIndex.Keys)
  {
  }

  lemma DefsOfTypesGrow(t: Table, ks: set<TypeKey>)
    ensures DefsOfTypes(t, ks) <= AllDefs(t)
    ensures ks == t.Keys ==> DefsOfTypes(t, ks) == AllDefs(t)
  {
  }

  lemma IndexOfAdd(idx: map<string, PointDefinition>, defs: set<PointDefinition>, d: PointDefinition)
    requires IndexOf(idx, defs) && d.name !in idx
    ensures IndexOf(idx[d.name := d], defs + {d})
  {
  }

  lemma DefsOfIndexesStep(byIndex: map<int, PointDefinition>, done: set<int>, i: int)
    requires i in byIndex
    ensures DefsOfIndexes(byIndex, done + {i}) == DefsOfIndexes(byIndex, done) + {byIndex[i]}
  {
  }

  lemma IndexOfIsNameMap(idx: map<string, PointDefinition>, defs: set<PointDefinition>)
    requires IndexOf(idx, defs)
    ensures UniqueNamesIn(defs) && idx == NameMap(defs)
  {
  }

  datatype NameError = DuplicateName(name: string) | NoPointNamed(name: string)

  /**
   * The catalog's instance state. `nameIndex` caches the name lookup: it is built on first
   * use and, as in the agent, a reload of the points does not clear it.
   */
  class PointDefinitions {
    var points: Table
    var nameIndex: map<string, PointDefinition>

    ghost predicate Valid()
      reads this
    {
      && WellKeyed(points)
      && (forall n | n in nameIndex :: nameIndex[n].name == n)
    }

    constructor ()
      ensures Valid() && points == map[] && nameIndex == map[]
    {
      points := map[];
      nameIndex := map[];
    }

    /**
     * Loads definitions from scratch. On an error the catalog keeps what was added before
     * the failing element (the agent reports "no data loaded" but does not roll back).
     */
    method LoadPoints(records: seq<PointRecord>) returns (err: Option<LoadError>)
      requires Valid()
      modifies this`points
      ensures Valid()
      ensures (points, err) == LoadRun(records)
    {
      points := map[];
      err := None;
      var j := 0;
      while j < |records|
        invariant 0 <= j <= |records|
        invariant LoadRun(records[..j]) == (points, None) && err.None?
      {
        assert records[..j + 1][..j] == records[..j];
        err := LoadElement(records[j]);
        if err.Some? {
          LoadRunStops(records, j + 1);
          LoadRunWellKeyed(records);
          return;
        }
        j := j + 1;
      }
      assert records[..j] == records;
      LoadRunWellKeyed(records);
    }

    /** Loads one element: validate it, make room for its point type, expand an array, file it. */
    method LoadElement(rec: PointRecord) returns (err: Option<LoadError>)
      modifies this`points
      ensures (points, err) == LoadStep(old(points), rec)
    {
      var r := ValidatePoint(rec);
      if r.Err? {
        return Some(InvalidPoint(r.error));
      }
      var d := r.value;
      var k := d.PointTypeOf();
      if k !in points {
        points := points[k := map[]];
      }
      if d.IsArray() {
        err := ExpandArrayPoints(d);
        if err.Some? {
          return;
        }
      }
      if d.index in points[k] {
        return Some(DuplicatePoint(k, d.index));
      }
      points := points[k := points[k][d.index := d]];
      err := None;
    }

    /** Adds a definition for each column after the first of an array head. */
    method ExpandArrayPoints(head: PointDefinition) returns (err: Option<LoadError>)
      requires head.IsArray()
      modifies this`points
      ensures (points, err) == ExpandUpTo(old(points), head, |head.shape.columns|)
    {
      var n := |head.shape.columns|;
      if n <= 1 {
        return None;
      }
      var off := 1;
      while off < n
        invariant 1 <= off <= n
        invariant ExpandUpTo(old(points), head, off) == (points, None)
      {
        var col := ValidatePoint(ColumnRecord(head, off));
        if col.Err? {
          ExpandUpToStops(old(points), head, off + 1, n);
          return Some(InvalidPoint(col.error));
        }
        var d := col.value;
        var k := d.PointTypeOf();
        if k !in points {
          ExpandUpToStops(old(points), head, off + 1, n);
          return Some(MissingTypeTable(k));
        }
        if d.index !in points[k] {
          points := points[k := points[k][d.index := d]];
        }
        off := off + 1;
      }
      err := None;
    }

    /**
     * The name index, built on first use by walking the catalog in no particular order.
     * A second definition with a name already seen fails, leaving the index as far as it
     * got; a later call then returns that partial index as it is.
     */
    method PointsByName() returns (r: Result<map<string, PointDefinition>, NameError>)
      requires Valid()
      modifies this`nameIndex
      ensures Valid()
      ensures old(nameIndex) != map[] ==> nameIndex == old(nameIndex) && r == Ok(nameIndex)
      ensures old(nameIndex) == map[] ==> (r.Ok? <==> UniqueNames(points))
      ensures old(nameIndex) == map[] && r.Ok? ==> r.value == nameIndex == NameMap(AllDefs(points))
      ensures r.Err? ==>
                && r.error.DuplicateName?
                && (exists d1, d2 | d1 in AllDefs(points) && d2 in AllDefs(points) :: d1 != d2 && d1.name == d2.name == r.error.name)
                && (forall n | n in nameIndex :: nameIndex[n] in AllDefs(points))
    {
      if nameIndex != map[] {
        return Ok(nameIndex);
      }
      var index, dup := NameIndexOf(points);
      nameIndex := index;
      if dup.Some? {
        return Err(DuplicateName(dup.value));
      }
      r := Ok(nameIndex);
  }

    /** The definition with a name, None when no definition has it. */
    method PointNamed(name: string) returns (r: Result<Option<PointDefinition>, NameError>)
      requires Valid()
      modifies this`nameIndex
      ensures Valid()
      ensures r.Err? <==> old(nameIndex) == map[] && !UniqueNames(points)
      ensures r.Err? ==> r.error == DuplicateName(r.error.name)
      ensures old(nameIndex) != map[] ==> nameIndex == old(nameIndex)
      ensures old(nameIndex) == map[] && UniqueNames(points) ==> nameIndex == NameMap(AllDefs(points))
      ensures r.Ok? ==> (r.value.Some? <==> name in nameIndex)
      ensures r.Ok? && r.value.Some? ==> r.value.value == nameIndex[name] && r.value.value.name == name
      ensures old(nameIndex) == map[] && r.Ok? ==>
                (r.value.Some? <==> exists d | d in AllDefs(points) :: d.name == name)
    {
      var byName := PointsByName();
      if byName.Err? {
        return Err(byName.error);
      }
      if name in byName.value {
        return Ok(Some(byName.value[name]));
      }
      return Ok(None);
    }

    /** The definition with a name; an unknown name is an error. */
    method GetPointNamed(name: string) returns (r: Result<PointDefinition, NameError>)
      requires Valid()
      modifies this`nameIndex
      ensures Valid()
      ensures r.Ok? ==> r.value.name == name && name in nameIndex && r.value == nameIndex[name]
      ensures old(nameIndex) != map[] ==> nameIndex == old(nameIndex) && (r.Ok? <==> name in nameIndex)
      ensures r == Err(NoPointNamed(name)) <==> (name !in nameIndex && (old(nameIndex) != map[] || UniqueNames(points)))
      ensures old(nameIndex) == map[] && UniqueNames(points) ==>
                (r.Ok? <==> exists d | d in AllDefs(points) :: d.name == name)
      ensures old(nameIndex) == map[] && !UniqueNames(points) ==> r.Err? && r.error.DuplicateName?
      ensures old(nameIndex) != map[] || UniqueNames(points) ==> (r.Ok? <==> name in nameIndex)
    {
      var found := PointNamed(name);
      if found.Err? {
        return Err(found.error);
      }
      if found.value.None? {
        return Err(NoPointNamed(name));
      }
      return Ok(found.value.value);
    }

    /** The definition filed under a point type and index, if any. */
    function ForPointTypeAndIndex(k: TypeKey, index: int): (r: Option<PointDefinition>)
      reads this
      requires Valid()
      ensures r.Some? <==> Has(points, k, index)
      ensures r.Some? ==> r.value.index == index && r.value.PointTypeOf() == k
    {
      if k in points && index in points[k] then Some(points[k][index]) else None
    }
  }
}
