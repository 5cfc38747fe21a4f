/**
 * What the overall views guarantee: group totals are the sums over the
 * group's records, they combine by addition across sheets, the overall
 * percentage is the ratio of the sums, and on the records of the transform
 * every group has a defined percentage between 0 and 100.
 */
module AggregationProperties {
  import opened Optional
  import opened Scoring
  import opened Aggregation

  // ---------------------------------------------------------------------
  // Sums and filters over concatenated records

  lemma {:induction false} SumAppend(a: seq<PerformanceRecord>, b: seq<PerformanceRecord>)
    ensures Sum(a + b) == Add(Sum(a), Sum(b))
  {
    if b == [] {
      assert a + b == a;
    } else {
      var n := |b| - 1;
      assert (a + b)[..|a + b| - 1] == a + b[..n];
      SumAppend(a, b[..n]);
    }
  }

  lemma {:induction false} WithDescriptorAppend(a: seq<PerformanceRecord>, b: seq<PerformanceRecord>, d: DescriptorId)
    ensures WithDescriptor(a + b, d) == WithDescriptor(a, d) + WithDescriptor(b, d)
  {
    if b == [] {
      assert a + b == a;
    } else {
      var n := |b| - 1;
      assert (a + b)[..|a + b| - 1] == a + b[..n];
      WithDescriptorAppend(a, b[..n], d);
    }
  }

  lemma {:induction false} FromSheetAppend(a: seq<PerformanceRecord>, b: seq<PerformanceRecord>, name: string)
    ensures FromSheet(a + b, name) == FromSheet(a, name) + FromSheet(b, name)
  {
    if b == [] {
      assert a + b == a;
    } else {
      var n := |b| - 1;
      assert (a + b)[..|a + b| - 1] == a + b[..n];
      FromSheetAppend(a, b[..n], name);
    }
  }

  /** The records of descriptor `d` are exactly the records that carry `d`. */
  lemma {:induction false} WithDescriptorMembers(rs: seq<PerformanceRecord>, d: DescriptorId)
    ensures forall x :: x in WithDescriptor(rs, d) <==> x in rs && x.descriptor == d
  {
    if rs != [] {
      var n := |rs| - 1;
      WithDescriptorMembers(rs[..n], d);
      assert rs == rs[..n] + [rs[n]];
    }
  }

  /** The records of sheet `name` are exactly the records that carry `name`. */
  lemma {:induction false} FromSheetMembers(rs: seq<PerformanceRecord>, name: string)
    ensures forall x :: x in FromSheet(rs, name) <==> x in rs && x.sheet == name
  {
    if rs != [] {
      var n := |rs| - 1;
      FromSheetMembers(rs[..n], name);
      assert rs == rs[..n] + [rs[n]];
    }
  }

  /** The per-descriptor view has a line for exactly the descriptors some record carries. */
  lemma ByDescriptorDomain(rs: seq<PerformanceRecord>, d: DescriptorId)
    ensures d in ByDescriptor(rs) <==> exists r :: r in rs && r.descriptor == d
  {
  }

  /** The per-sheet view has a line for exactly the sheet names some record carries. */
  lemma BySheetDomain(rs: seq<PerformanceRecord>, name: string)
    ensures name in BySheet(rs) <==> exists r :: r in rs && r.sheet == name
  {
  }

  /**
   * Combining two groups of records (two sheets, say) adds their
   * per-descriptor totals: the correct and possible counts sum.
   */
  lemma CombinedDescriptorTotals(a: seq<PerformanceRecord>, b: seq<PerformanceRecord>, d: DescriptorId)
    requires d in ByDescriptor(a + b)
    ensures ByDescriptor(a + b)[d] == Add(Sum(WithDescriptor(a, d)), Sum(WithDescriptor(b, d)))
  {
    WithDescriptorAppend(a, b, d);
    SumAppend(WithDescriptor(a, d), WithDescriptor(b, d));
  }

  // ---------------------------------------------------------------------
  // Bounds on groups

  lemma {:induction false} SumBounded(rs: seq<PerformanceRecord>)
    requires forall r :: r in rs ==> r.correct <= r.total
    ensures Sum(rs).correct <= Sum(rs).possible
  {
    if rs != [] {
      var n := |rs| - 1;
      assert rs[n] in rs;
      assert forall r :: r in rs[..n] ==> r in rs;
      SumBounded(rs[..n]);
    }
  }

  lemma {:induction false} SumPositive(rs: seq<PerformanceRecord>)
    requires rs != []
    requires forall r :: r in rs ==> r.total > 0
    ensures Sum(rs).possible > 0
  {
    var n := |rs| - 1;
    assert rs[n] in rs;
  }

  /**
   * When every record has a positive total, every line of both views has
   * a positive possible count and so a defined overall percentage.
   */
  lemma ViewsDefined(rs: seq<PerformanceRecord>)
    requires forall r :: r in rs ==> r.total > 0
    ensures forall d :: d in ByDescriptor(rs) ==> OverallPercentage(ByDescriptor(rs)[d]).Some?
    ensures forall s :: s in BySheet(rs) ==> OverallPercentage(BySheet(rs)[s]).Some?
  {
    forall d | d in ByDescriptor(rs)
      ensures 0 < ByDescriptor(rs)[d].possible
    {
      var r :| r in rs && r.descriptor == d;
      var group := WithDescriptor(rs, d);
      WithDescriptorMembers(rs, d);
      assert r in group;
      SumPositive(group);
    }
    forall s | s in BySheet(rs)
      ensures 0 < BySheet(rs)[s].possible
    {
      var r :| r in rs && r.sheet == s;
      var group := FromSheet(rs, s);
      FromSheetMembers(rs, s);
      assert r in group;
      SumPositive(group);
    }
  }

  /** A record whose counts fit, with a denominator and a percentage between 0 and 100. */
  predicate Sound(r: PerformanceRecord) {
    r.total > 0 && r.correct <= r.total && 0.0 <= r.percentage <= 100.0
  }

  /**
   * When every record is sound, every group of both views has a positive
   * possible count and a defined overall percentage between 0 and 100.
   */
  lemma ViewsSound(rs: seq<PerformanceRecord>)
    requires forall r :: r in rs ==> Sound(r)
    ensures forall d :: d in ByDescriptor(rs) ==>
              var t := ByDescriptor(rs)[d];
              t.correct <= t.possible && OverallPercentage(t).Some? &&
              0.0 <= OverallPercentage(t).value <= 100.0
    ensures forall s :: s in BySheet(rs) ==>
              var t := BySheet(rs)[s];
              t.correct <= t.possible && OverallPercentage(t).Some? &&
              0.0 <= OverallPercentage(t).value <= 100.0
  {
    forall d | d in ByDescriptor(rs)
      ensures 0 < ByDescriptor(rs)[d].possible && ByDescriptor(rs)[d].correct <= ByDescriptor(rs)[d].possible
    {
      var r :| r in rs && r.descriptor == d;
      var group := WithDescriptor(rs, d);
      WithDescriptorMembers(rs, d);
      assert r in group;
      SumBounded(group);
      SumPositive(group);
    }
    forall s | s in BySheet(rs)
      ensures 0 < BySheet(rs)[s].possible && BySheet(rs)[s].correct <= BySheet(rs)[s].possible
    {
      var r :| r in rs && r.sheet == s;
      var group := FromSheet(rs, s);
      FromSheetMembers(rs, s);
      assert r in group;
      SumBounded(group);
      SumPositive(group);
    }
  }

  /**
   * The overall percentage is not the mean of the records' percentages:
   * one student with 1 of 1 correct and three with 0 of 3 give 25, not 50.
   */
  lemma NotMeanOfPercentages()
    ensures var r1 := PerformanceRecord("A", "D1", 1, 1, 100.0, 1);
            var r2 := PerformanceRecord("B", "D1", 0, 3, 0.0, 3);
            var t := ByDescriptor([r1, r2])["D1"];
            t == Totals(1, 4) &&
            OverallPercentage(t) == Some(25.0) &&
            (r1.percentage + r2.percentage) / 2.0 == 50.0
  {
    var r1 := PerformanceRecord("A", "D1", 1, 1, 100.0, 1);
    var r2 := PerformanceRecord("B", "D1", 0, 3, 0.0, 3);
    assert [r1, r2][..1] == [r1];
    assert [r1][..0] == [];
    assert r1 in [r1, r2];
    assert WithDescriptor([r1], "D1") == [r1];
    assert WithDescriptor([r1, r2], "D1") == WithDescriptor([r1], "D1") + [r2];
    assert Sum([r1]) == Totals(1, 1);
    assert Sum([r1, r2]) == Totals(1, 4);
  }
}
