/**
 * The two overall views built from the performance records: totals per
 * descriptor across all sheets, and totals per sheet across all
 * descriptors, each with its percentage recomputed from the sums.
 */
module Aggregation {
  import opened Optional
  import opened Scoring

  datatype Totals = Totals(correct: nat, possible: nat)

  function Add(a: Totals, b: Totals): Totals {
    Totals(a.correct + b.correct, a.possible + b.possible)
  }

  /** The sums of the correct and possible counts of some records. */
  function Sum(rs: seq<PerformanceRecord>): Totals {
    if rs == [] then Totals(0, 0)
    else Add(Sum(rs[..|rs| - 1]), Totals(rs[|rs| - 1].correct, rs[|rs| - 1].total))
  }

  /** The records of descriptor `d`, in their order. */
  function WithDescriptor(rs: seq<PerformanceRecord>, d: DescriptorId): seq<PerformanceRecord> {
    if rs == [] then []
    else WithDescriptor(rs[..|rs| - 1], d) + (if rs[|rs| - 1].descriptor == d then [rs[|rs| - 1]] else [])
  }

  /** The records of sheet `name`, in their order. */
  function FromSheet(rs: seq<PerformanceRecord>, name: string): seq<PerformanceRecord> {
    if rs == [] then []
    else FromSheet(rs[..|rs| - 1], name) + (if rs[|rs| - 1].sheet == name then [rs[|rs| - 1]] else [])
  }

  /** The group-by on the descriptor column, summing both counts. */
  function ByDescriptor(rs: seq<PerformanceRecord>): (g: map<DescriptorId, Totals>)
    ensures forall r :: r in rs ==> r.descriptor in g
  {
    map d | d in (set r | r in rs :: r.descriptor) :: Sum(WithDescriptor(rs, d))
  }

  /** The group-by on the sheet column, summing both counts. */
  function BySheet(rs: seq<PerformanceRecord>): (g: map<string, Totals>)
    ensures forall r :: r in rs ==> r.sheet in g
  {
    map s | s in (set r | r in rs :: r.sheet) :: Sum(FromSheet(rs, s))
  }

  /**
   * The overall percentage of a group: the summed correct count over the
   * summed possible count, times 100. A group with nothing possible has no
   * number (the division yields NaN or infinity there).
   */
  function OverallPercentage(t: Totals): (p: Option<real>)
    ensures p.None? <==> t.possible == 0
    ensures p.Some? ==> p.value * t.possible as real == t.correct as real * 100.0
    ensures p.Some? && t.correct <= t.possible ==> 0.0 <= p.value <= 100.0
  {
    if t.possible == 0 then None else Some(t.correct as real / t.possible as real * 100.0)
  }
}
