/**
 * The overlap checks of the stand-alone definition validator: every array and every
 * selector block of the point catalog covers an inclusive index range, and the validator
 * reports each point whose first or last index falls inside the range of a differently
 * named point of the same kind. The reports are what it prints; it stops nothing.
 */
module DefinitionChecks {
  import opened Wrappers
  import opened Points

  /** The inclusive index range `[lo, hi]` of a named array or selector block. */
  datatype Range = Range(name: string, lo: int, hi: int)
  {
    predicate Contains(i: int) { lo <= i <= hi }

    predicate WellFormed() { lo <= hi }
  }

  /** A printed overlap error: `bound`, one end of `point`'s range, lies inside `other`'s range. */
  datatype Report = Report(point: string, other: string, bound: int)

  /** The ranges of the arrays among `defs`, in order: from the head index to the last index. */
  function ArrayRanges(defs: seq<PointDefinition>): (r: seq<Range>)
    ensures forall x | x in r :: exists d | d in defs && d.IsArray() :: x == Range(d.name, d.index, d.ArrayLastIndex().value)
    ensures forall d | d in defs && d.IsArray() :: Range(d.name, d.index, d.ArrayLastIndex().value) in r
  {
    if defs == [] then []
    else
      var rest := ArrayRanges(defs[1..]);
      assert forall d | d in defs[1..] :: d in defs;
      (if defs[0].IsArray() then [Range(defs[0].name, defs[0].index, defs[0].ArrayLastIndex().value)] else []) + rest
  }

  /** The ranges of the selector blocks among `defs`, in order: from the block's start to its end. */
  function BlockRanges(defs: seq<PointDefinition>): (r: seq<Range>)
    ensures forall x | x in r :: exists d | d in defs && d.IsSelectorBlock() :: x == Range(d.name, d.shape.start, d.shape.end)
    ensures forall d | d in defs && d.IsSelectorBlock() :: Range(d.name, d.shape.start, d.shape.end) in r
  {
    if defs == [] then []
    else
      var rest := BlockRanges(defs[1..]);
      assert forall d | d in defs[1..] :: d in defs;
      (if defs[0].IsSelectorBlock() then [Range(defs[0].name, defs[0].shape.start, defs[0].shape.end)] else []) + rest
  }

  /** The reports for one range against each of `others`: its start first, then its end. */
  function ReportsFor(x: Range, others: seq<Range>): (r: seq<Report>)
  {
    if others == [] then []
    else
      var y := others[0];
      (if x.name != y.name && y.Contains(x.lo) then [Report(x.name, y.name, x.lo)] else [])
      + (if x.name != y.name && y.Contains(x.hi) then [Report(x.name, y.name, x.hi)] else [])
      + ReportsFor(x, others[1..])
  }

  /** A report for `x` names a differently named range `y` of `others` that holds one of `x`'s ends. */
  lemma {:induction false} ReportsForSound(x: Range, others: seq<Range>, rep: Report) returns (y: Range)
    requires rep in ReportsFor(x, others)
    ensures rep.point == x.name && (rep.bound == x.lo || rep.bound == x.hi)
    ensures y in others && y.name == rep.other && y.name != x.name && y.Contains(rep.bound)
  {
    y := others[0];
    var head := (if x.name != y.name && y.Contains(x.lo) then [Report(x.name, y.name, x.lo)] else [])
                + (if x.name != y.name && y.Contains(x.hi) then [Report(x.name, y.name, x.hi)] else []);
    assert ReportsFor(x, others) == head + ReportsFor(x, others[1..]);
    if rep !in head {
      y := ReportsForSound(x, others[1..], rep);
    }
  }

  /** Every differently named range of `others` that holds an end `b` of `x` is reported against `x` at `b`. */
  lemma {:induction false} ReportsForComplete(x: Range, others: seq<Range>, y: Range, b: int)
    requires y in others && y.name != x.name && (b == x.lo || b == x.hi) && y.Contains(b)
    ensures Report(x.name, y.name, b) in ReportsFor(x, others)
  {
    if others[0] != y {
      ReportsForComplete(x, others[1..], y, b);
    }
  }

  /** `validate_definitions`' overlap check over ranges: each range against every range, in order. */
  function OverlapReports(ranges: seq<Range>, all: seq<Range>): (r: seq<Report>)
  {
    if ranges == [] then [] else ReportsFor(ranges[0], all) + OverlapReports(ranges[1..], all)
  }

  /** Each report names a range of `ranges` and a differently named one that holds one of its ends. */
  predicate ReportsSound(reports: seq<Report>, ranges: seq<Range>)
  {
    forall rep | rep in reports :: exists x, y | x in ranges && y in ranges ::
      && x.name == rep.point && y.name == rep.other && x.name != y.name
      && (rep.bound == x.lo || rep.bound == x.hi) && y.Contains(rep.bound)
  }

  /** Each end of a range that lies in a differently named range is reported. */
  predicate ReportsComplete(reports: seq<Report>, ranges: seq<Range>)
  {
    forall x, y | x in ranges && y in ranges && x.name != y.name ::
      && (y.Contains(x.lo) ==> Report(x.name, y.name, x.lo) in reports)
      && (y.Contains(x.hi) ==> Report(x.name, y.name, x.hi) in reports)
  }

  /**
   * The reports of an array overlap check, then of a selector block check, over the name
   * index's values: each list reports exactly the ends that lie in another point's range.
   */
  function ValidateDefinitions(defs: seq<PointDefinition>): (r: (seq<Report>, seq<Report>))
    ensures ReportsSound(r.0, ArrayRanges(defs)) && ReportsComplete(r.0, ArrayRanges(defs))
    ensures ReportsSound(r.1, BlockRanges(defs)) && ReportsComplete(r.1, BlockRanges(defs))
  {
    var arrays := ArrayRanges(defs);
    var blocks := BlockRanges(defs);
    OverlapReportsExact(arrays);
    OverlapReportsExact(blocks);
    (OverlapReports(arrays, arrays), OverlapReports(blocks, blocks))
  }

  /** The check of `ranges` against themselves reports exactly the ends that lie in another range. */
  lemma OverlapReportsExact(ranges: seq<Range>)
    ensures ReportsSound(OverlapReports(ranges, ranges), ranges)
    ensures ReportsComplete(OverlapReports(ranges, ranges), ranges)
  {
    forall rep | rep in OverlapReports(ranges, ranges)
      ensures exists x, y | x in ranges && y in ranges ::
                && x.name == rep.point && y.name == rep.other && x.name != y.name
                && (rep.bound == x.lo || rep.bound == x.hi) && y.Contains(rep.bound)
    {
      var x, y := OverlapReportsSound(ranges, ranges, rep);
    }
    forall x, y | x in ranges && y in ranges && x.name != y.name
      ensures && (y.Contains(x.lo) ==> Report(x.name, y.name, x.lo) in OverlapReports(ranges, ranges))
              && (y.Contains(x.hi) ==> Report(x.name, y.name, x.hi) in OverlapReports(ranges, ranges))
    {
      if y.Contains(x.lo) {
        OverlapReportsComplete(ranges, ranges, x, y, x.lo);
      }
      if y.Contains(x.hi) {
        OverlapReportsComplete(ranges, ranges, x, y, x.hi);
      }
    }
  }

  /** Two well-formed ranges intersect. */
  predicate Intersect(x: Range, y: Range)
  {
    x.lo <= y.hi && y.lo <= x.hi
  }

  /** Every report of the whole check is justified by a range `x` and a differently named range `y` holding one of its ends. */
  lemma {:induction false} OverlapReportsSound(ranges: seq<Range>, all: seq<Range>, rep: Report) returns (x: Range, y: Range)
    requires rep in OverlapReports(ranges, all)
    ensures x in ranges && y in all && x.name == rep.point && y.name == rep.other && x.name != y.name
    ensures (rep.bound == x.lo || rep.bound == x.hi) && y.Contains(rep.bound)
  {
    var head := ReportsFor(ranges[0], all);
    assert OverlapReports(ranges, all) == head + OverlapReports(ranges[1..], all);
    if rep in head {
      x := ranges[0];
      y := ReportsForSound(x, all, rep);
    } else {
      x, y := OverlapReportsSound(ranges[1..], all, rep);
    }
  }

  lemma {:induction false} OverlapReportsComplete(ranges: seq<Range>, all: seq<Range>, x: Range, y: Range, b: int)
    requires x in ranges && y in all && x.name != y.name && (b == x.lo || b == x.hi) && y.Contains(b)
    ensures Report(x.name, y.name, b) in OverlapReports(ranges, all)
  {
    if ranges[0] == x {
      ReportsForComplete(x, all, y, b);
    } else {
      OverlapReportsComplete(ranges[1..], all, x, y, b);
    }
  }

  /** Each report of the check over well-formed ranges names two differently named, intersecting ranges. */
  lemma ReportMeansOverlap(ranges: seq<Range>, rep: Report)
    requires forall x | x in ranges :: x.WellFormed()
    requires rep in OverlapReports(ranges, ranges)
    ensures exists x, y | x in ranges && y in ranges :: x.name == rep.point && y.name == rep.other
                                                        && x.name != y.name && Intersect(x, y)
  {
    var x, y := OverlapReportsSound(ranges, ranges, rep);
    assert x.WellFormed();
    assert Intersect(x, y);
  }

  /** Two differently named ranges that intersect never go unreported. */
  lemma OverlapIsReported(ranges: seq<Range>, x: Range, y: Range)
    requires x in ranges && y in ranges && x.name != y.name
    ensures Intersect(x, y) ==> OverlapReports(ranges, ranges) != []
  {
    if y.Contains(x.lo) {
      OverlapReportsComplete(ranges, ranges, x, y, x.lo);
    } else if x.Contains(y.lo) {
      OverlapReportsComplete(ranges, ranges, y, x, y.lo);
    }
  }

  /**
   * The check finds every overlap and only overlaps: over well-formed ranges it prints nothing
   * exactly when no two differently named ranges intersect.
   */
  lemma NoReportsIffDisjoint(ranges: seq<Range>)
    requires forall x | x in ranges :: x.WellFormed()
    ensures OverlapReports(ranges, ranges) == [] <==>
            forall x, y | x in ranges && y in ranges && x.name != y.name :: !Intersect(x, y)
  {
    forall x, y | x in ranges && y in ranges && x.name != y.name
      ensures Intersect(x, y) ==> OverlapReports(ranges, ranges) != []
    {
      OverlapIsReported(ranges, x, y);
    }
    var reports := OverlapReports(ranges, ranges);
    if reports != [] {
      ReportMeansOverlap(ranges, reports[0]);
    }
  }

  /** A selector block the catalog accepted has a well-formed range. */
  lemma BlockRangesWellFormed(recs: seq<PointRecord>, defs: seq<PointDefinition>)
    requires |recs| == |defs| && forall i | 0 <= i < |recs| :: ValidatePoint(recs[i]) == Ok(defs[i])
    ensures forall x | x in BlockRanges(defs) :: x.WellFormed()
  {
    forall x | x in BlockRanges(defs)
      ensures x.WellFormed()
    {
      var d :| d in defs && d.IsSelectorBlock() && x == Range(d.name, d.shape.start, d.shape.end);
      var i :| 0 <= i < |defs| && defs[i] == d;
      assert ValidatePoint(recs[i]).Ok?;
    }
  }

  /** Over an accepted catalog, the selector block check prints nothing exactly when no two blocks share an index. */
  lemma BlockCheckIffDisjoint(recs: seq<PointRecord>, defs: seq<PointDefinition>)
    requires |recs| == |defs| && forall i | 0 <= i < |recs| :: ValidatePoint(recs[i]) == Ok(defs[i])
    ensures ValidateDefinitions(defs).1 == [] <==>
            forall x, y | x in BlockRanges(defs) && y in BlockRanges(defs) && x.name != y.name :: !Intersect(x, y)
  {
    BlockRangesWellFormed(recs, defs);
    NoReportsIffDisjoint(BlockRanges(defs));
  }
}
