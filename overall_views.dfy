/**
 * The overall views applied to the records of the whole transform: what
 * each sheet's and each descriptor's line adds up to, and the invariant
 * that a sheet's correct answers never exceed its students times the
 * number of mapped questions.
 */
module OverallViews {
  import opened Optional
  import opened Questions
  import opened Scoring
  import opened ScoringProperties
  import opened Aggregation
  import opened AggregationProperties

  // ---------------------------------------------------------------------
  // Every record of the transform is sound

  /** No two columns of any sheet resolve to the same question id, and every column is complete. */
  predicate CleanSheets(sheets: seq<Sheet>) {
    forall k :: 0 <= k < |sheets| ==> WellFormed(sheets[k]) && DistinctQuestionColumns(sheets[k].columns)
  }

  lemma {:induction false} RecordsForSound(sheet: Sheet, key: AnswerKey, dm: DescriptorMap, ds: seq<DescriptorId>)
    requires sheet.rows > 0 && WellFormed(sheet) && DistinctQuestionColumns(sheet.columns)
    requires forall i :: 0 <= i < |ds| ==> ds[i] in dm.Values
    ensures forall r :: r in RecordsFor(sheet, key, dm, ds) ==> Sound(r)
  {
    if ds != [] {
      var n := |ds| - 1;
      RecordsForSound(sheet, key, dm, ds[..n]);
      RecordTotalPositive(sheet, key, dm, ds[n]);
      RecordBounded(sheet, key, dm, ds[n]);
    }
  }

  /**
   * Every record the transform emits has a positive total, a tally within
   * it and a percentage between 0 and 100, when no sheet repeats a question.
   */
  lemma {:induction false} PerformanceSound(sheets: seq<Sheet>, key: AnswerKey, dm: DescriptorMap, order: seq<DescriptorId>)
    requires IsEnumeration(order, dm.Values)
    requires CleanSheets(sheets)
    ensures forall r :: r in Performance(sheets, key, dm, order) ==> Sound(r)
  {
    if sheets != [] {
      var n := |sheets| - 1;
      assert CleanSheets(sheets[..n]) by {
        forall k | 0 <= k < n ensures WellFormed(sheets[..n][k]) && DistinctQuestionColumns(sheets[..n][k].columns) {
          assert sheets[..n][k] == sheets[k];
        }
      }
      var front := Performance(sheets[..n], key, dm, order);
      var own := SheetRecords(sheets[n], key, dm, order);
      PerformanceSound(sheets[..n], key, dm, order);
      assert forall r :: r in own ==> Sound(r) by {
        if sheets[n].rows > 0 {
          assert WellFormed(sheets[n]) && DistinctQuestionColumns(sheets[n].columns);
          RecordsForSound(sheets[n], key, dm, order);
        }
      }
      assert Performance(sheets, key, dm, order) == front + own;
      forall r | r in front + own ensures Sound(r) {
        if r !in front {
          assert r in own;
        }
      }
    }
  }

  lemma {:induction false} RecordsForPositive(sheet: Sheet, key: AnswerKey, dm: DescriptorMap, ds: seq<DescriptorId>)
    requires sheet.rows > 0
    requires forall i :: 0 <= i < |ds| ==> ds[i] in dm.Values
    ensures forall r :: r in RecordsFor(sheet, key, dm, ds) ==> r.total > 0
  {
    if ds != [] {
      var n := |ds| - 1;
      RecordsForPositive(sheet, key, dm, ds[..n]);
      RecordTotalPositive(sheet, key, dm, ds[n]);
    }
  }

  /** Every record the transform emits has a positive total, for any workbook. */
  lemma {:induction false} PerformancePositive(sheets: seq<Sheet>, key: AnswerKey, dm: DescriptorMap, order: seq<DescriptorId>)
    requires IsEnumeration(order, dm.Values)
    ensures forall r :: r in Performance(sheets, key, dm, order) ==> r.total > 0
  {
    if sheets != [] {
      var n := |sheets| - 1;
      var front := Performance(sheets[..n], key, dm, order);
      var own := SheetRecords(sheets[n], key, dm, order);
      PerformancePositive(sheets[..n], key, dm, order);
      assert forall r :: r in own ==> r.total > 0 by {
        if sheets[n].rows > 0 {
          RecordsForPositive(sheets[n], key, dm, order);
        }
      }
      assert Performance(sheets, key, dm, order) == front + own;
      forall r | r in front + own ensures r.total > 0 {
        if r !in front {
          assert r in own;
        }
      }
    }
  }

  /**
   * On the transform's records both overall views divide by a positive
   * number, for any workbook; when no sheet repeats a question and every
   * column is complete, every overall percentage also lies between 0 and 100.
   */
  lemma TransformViewsSound(sheets: seq<Sheet>, key: AnswerKey, dm: DescriptorMap, order: seq<DescriptorId>)
    requires IsEnumeration(order, dm.Values)
    ensures var rs := Performance(sheets, key, dm, order);
            && (forall d :: d in ByDescriptor(rs) ==> OverallPercentage(ByDescriptor(rs)[d]).Some?)
            && (forall s :: s in BySheet(rs) ==> OverallPercentage(BySheet(rs)[s]).Some?)
    ensures CleanSheets(sheets) ==>
            var rs := Performance(sheets, key, dm, order);
            && (forall d :: d in ByDescriptor(rs) ==>
                  OverallPercentage(ByDescriptor(rs)[d]).Some? && 0.0 <= OverallPercentage(ByDescriptor(rs)[d]).value <= 100.0)
            && (forall s :: s in BySheet(rs) ==>
                  OverallPercentage(BySheet(rs)[s]).Some? && 0.0 <= OverallPercentage(BySheet(rs)[s]).value <= 100.0)
  {
    var rs := Performance(sheets, key, dm, order);
    PerformancePositive(sheets, key, dm, order);
    ViewsDefined(rs);
    if CleanSheets(sheets) {
      PerformanceSound(sheets, key, dm, order);
      ViewsSound(rs);
    }
  }

  // ---------------------------------------------------------------------
  // The per-sheet view

  /** The number of questions of the descriptors of `ds`, added up. */
  function CountSum(dm: DescriptorMap, ds: seq<DescriptorId>): nat {
    if ds == [] then 0 else CountSum(dm, ds[..|ds| - 1]) + |QuestionsOf(dm, ds[|ds| - 1])|
  }

  /** The questions whose descriptor is listed in `ds`. */
  function QuestionsIn(dm: DescriptorMap, ds: seq<DescriptorId>): set<QuestionId> {
    set q | q in dm && dm[q] in ds
  }

  lemma {:induction false} CountSumCountsQuestions(dm: DescriptorMap, ds: seq<DescriptorId>)
    requires forall i, j :: 0 <= i < j < |ds| ==> ds[i] != ds[j]
    ensures CountSum(dm, ds) == |QuestionsIn(dm, ds)|
  {
    if ds != [] {
      var n := |ds| - 1;
      var d := ds[n];
      CountSumCountsQuestions(dm, ds[..n]);
      assert d !in ds[..n];
      assert QuestionsIn(dm, ds) == QuestionsIn(dm, ds[..n]) + QuestionsOf(dm, d);
      assert QuestionsIn(dm, ds[..n]) !! QuestionsOf(dm, d);
    }
  }

  /** The question counts of all descriptors add up to the number of mapped questions. */
  lemma CountSumIsMapSize(dm: DescriptorMap, order: seq<DescriptorId>)
    requires IsEnumeration(order, dm.Values)
    ensures CountSum(dm, order) == |dm|
  {
    CountSumCountsQuestions(dm, order);
    assert QuestionsIn(dm, order) == dm.Keys;
  }

  /** The correct answers of a sheet over the descriptors of `ds`, added up. */
  ghost function SheetCorrect(sheet: Sheet, key: AnswerKey, dm: DescriptorMap, ds: seq<DescriptorId>): nat {
    if ds == [] then 0 else SheetCorrect(sheet, key, dm, ds[..|ds| - 1]) + CorrectFor(sheet.columns, key, dm, ds[|ds| - 1])
  }

  lemma {:induction false} SumOfRecordsFor(sheet: Sheet, key: AnswerKey, dm: DescriptorMap, ds: seq<DescriptorId>)
    ensures Sum(RecordsFor(sheet, key, dm, ds)) == Totals(SheetCorrect(sheet, key, dm, ds), sheet.rows * CountSum(dm, ds))
  {
    if ds != [] {
      var n := |ds| - 1;
      var init := RecordsFor(sheet, key, dm, ds[..n]);
      var r := RecordOf(sheet, key, dm, ds[n]);
      var c, p, q := SheetCorrect(sheet, key, dm, ds[..n]), CountSum(dm, ds[..n]), |QuestionsOf(dm, ds[n])|;
      SumOfRecordsFor(sheet, key, dm, ds[..n]);
      assert RecordsFor(sheet, key, dm, ds) == init + [r];
      assert SheetCorrect(sheet, key, dm, ds) == c + r.correct;
      assert CountSum(dm, ds) == p + q;
      SumOfRecordsStep(init, r, c, sheet.rows, p, q);
    }
  }

  /** One more record, of `q` questions answered by the same students. */
  lemma SumOfRecordsStep(init: seq<PerformanceRecord>, r: PerformanceRecord, c: nat, rows: nat, p: nat, q: nat)
    requires Sum(init) == Totals(c, rows * p)
    requires r.total == rows * q
    ensures Sum(init + [r]) == Totals(c + r.correct, rows * (p + q))
  {
    SumAppend(init, [r]);
    assert Sum([r]) == Totals(r.correct, r.total) by {
      assert [r][..0] == [];
    }
    AddScaled(c, r.correct, rows, p, q);
  }

  /** Adding the totals of two groups of questions answered by the same students. */
  lemma AddScaled(c: nat, e: nat, rows: nat, p: nat, q: nat)
    ensures Add(Totals(c, rows * p), Totals(e, rows * q)) == Totals(c + e, rows * (p + q))
  {
    MulAdd(rows, p, q);
  }

  lemma MulAdd(a: nat, b: nat, c: nat)
    ensures a * (b + c) == a * b + a * c
  {
  }

  /** A sheet's correct answers are at most its students times its descriptors' questions. */
  lemma {:induction false} SheetCorrectBounded(sheet: Sheet, key: AnswerKey, dm: DescriptorMap, ds: seq<DescriptorId>)
    requires WellFormed(sheet) && DistinctQuestionColumns(sheet.columns)
    ensures SheetCorrect(sheet, key, dm, ds) <= sheet.rows * CountSum(dm, ds)
  {
    if ds != [] {
      var n := |ds| - 1;
      SheetCorrectBounded(sheet, key, dm, ds[..n]);
      CorrectForBounded(sheet, key, dm, ds[n]);
      MulAdd(sheet.rows, CountSum(dm, ds[..n]), |QuestionsOf(dm, ds[n])|);
    }
  }

  /** Sheet names are unique within a workbook. */
  predicate DistinctNames(sheets: seq<Sheet>) {
    forall i, j :: 0 <= i < j < |sheets| ==> sheets[i].name != sheets[j].name
  }

  lemma {:induction false} RecordsForNamed(sheet: Sheet, key: AnswerKey, dm: DescriptorMap, ds: seq<DescriptorId>, name: string)
    ensures FromSheet(RecordsFor(sheet, key, dm, ds), name) ==
            if name == sheet.name then RecordsFor(sheet, key, dm, ds) else []
  {
    if ds != [] {
      var n := |ds| - 1;
      var rs := RecordsFor(sheet, key, dm, ds);
      RecordsForNamed(sheet, key, dm, ds[..n], name);
      assert rs[..|rs| - 1] == RecordsFor(sheet, key, dm, ds[..n]);
    }
  }

  lemma SheetRecordsNamed(sheet: Sheet, key: AnswerKey, dm: DescriptorMap, order: seq<DescriptorId>, name: string)
    ensures FromSheet(SheetRecords(sheet, key, dm, order), name) ==
            if name == sheet.name then SheetRecords(sheet, key, dm, order) else []
  {
    if sheet.rows > 0 {
      RecordsForNamed(sheet, key, dm, order, name);
    }
  }

  lemma PerformanceLast(sheets: seq<Sheet>, key: AnswerKey, dm: DescriptorMap, order: seq<DescriptorId>, name: string)
    requires sheets != []
    ensures var n := |sheets| - 1;
            FromSheet(Performance(sheets, key, dm, order), name) ==
            FromSheet(Performance(sheets[..n], key, dm, order), name) +
            (if name == sheets[n].name then SheetRecords(sheets[n], key, dm, order) else [])
  {
    var n := |sheets| - 1;
    FromSheetAppend(Performance(sheets[..n], key, dm, order), SheetRecords(sheets[n], key, dm, order), name);
    SheetRecordsNamed(sheets[n], key, dm, order, name);
  }

  /** The records of one sheet, picked out of the whole transform's output. */
  lemma {:induction false} FromSheetOfPerformance(sheets: seq<Sheet>, key: AnswerKey, dm: DescriptorMap, order: seq<DescriptorId>, k: int)
    requires DistinctNames(sheets)
    requires 0 <= k < |sheets|
    ensures FromSheet(Performance(sheets, key, dm, order), sheets[k].name) == SheetRecords(sheets[k], key, dm, order)
  {
    var n := |sheets| - 1;
    var init := sheets[..n];
    var name := sheets[k].name;
    var earlier := FromSheet(Performance(init, key, dm, order), name);
    var own: seq<PerformanceRecord> := if name == sheets[n].name then SheetRecords(sheets[n], key, dm, order) else [];
    assert FromSheet(Performance(sheets, key, dm, order), name) == earlier + own by {
      PerformanceLast(sheets, key, dm, order, name);
    }
    if k < n {
      assert own == [];
      assert earlier == SheetRecords(sheets[k], key, dm, order) by {
        assert init[k] == sheets[k];
        DistinctNamesPrefix(sheets, n);
        FromSheetOfPerformance(init, key, dm, order, k);
      }
      assert earlier + own == earlier;
    } else {
      assert earlier == [] by {
        forall i | 0 <= i < |init| ensures init[i].name != name {
          assert init[i] == sheets[i];
        }
        NoSheetNamed(init, key, dm, order, name);
      }
      assert earlier + own == own;
    }
  }

  lemma DistinctNamesPrefix(sheets: seq<Sheet>, n: nat)
    requires DistinctNames(sheets) && n <= |sheets|
    ensures DistinctNames(sheets[..n])
  {
    var init := sheets[..n];
    forall i, j | 0 <= i < j < |init| ensures init[i].name != init[j].name {
      assert init[i] == sheets[i] && init[j] == sheets[j];
    }
  }

  lemma {:induction false} NoSheetNamed(sheets: seq<Sheet>, key: AnswerKey, dm: DescriptorMap, order: seq<DescriptorId>, name: string)
    requires forall i :: 0 <= i < |sheets| ==> sheets[i].name != name
    ensures FromSheet(Performance(sheets, key, dm, order), name) == []
  {
    if sheets != [] {
      var n := |sheets| - 1;
      var init := sheets[..n];
      PerformanceLast(sheets, key, dm, order, name);
      assert forall i :: 0 <= i < |init| ==> init[i] == sheets[i];
      NoSheetNamed(init, key, dm, order, name);
    }
  }

  /** An empty map has no descriptors, and a non-empty one has some. */
  lemma NoDescriptorsNoQuestions(dm: DescriptorMap)
    requires dm.Values == {}
    ensures |dm| == 0
  {
    assert dm.Keys == {};
  }

  /**
   * The line of a sheet with students in the per-sheet view: its correct
   * answers over all descriptors, out of its students times the number of
   * mapped questions; no more than that when no question is repeated.
   */
  lemma SheetView(sheets: seq<Sheet>, key: AnswerKey, dm: DescriptorMap, order: seq<DescriptorId>, k: int)
    requires IsEnumeration(order, dm.Values)
    requires DistinctNames(sheets)
    requires 0 <= k < |sheets| && sheets[k].rows > 0
    ensures var rs := Performance(sheets, key, dm, order);
            && (|dm| > 0 ==> sheets[k].name in BySheet(rs))
            && Sum(FromSheet(rs, sheets[k].name)).correct == SheetCorrect(sheets[k], key, dm, order)
            && Sum(FromSheet(rs, sheets[k].name)).possible == sheets[k].rows * |dm|
            && (CleanSheets(sheets) ==> SheetCorrect(sheets[k], key, dm, order) <= sheets[k].rows * |dm|)
  {
    var rs := Performance(sheets, key, dm, order);
    var sheet := sheets[k];
    FromSheetOfPerformance(sheets, key, dm, order, k);
    SumOfRecordsFor(sheet, key, dm, order);
    CountSumIsMapSize(dm, order);
    if |dm| > 0 {
      if dm.Values == {} {
        NoDescriptorsNoQuestions(dm);
      }
      assert order != [];
      RecordsForAt(sheet, key, dm, order, 0);
      var r := SheetRecords(sheet, key, dm, order)[0];
      assert r in FromSheet(rs, sheet.name);
      FromSheetMembers(rs, sheet.name);
    }
    if CleanSheets(sheets) {
      SheetCorrectBounded(sheet, key, dm, order);
    }
  }

  // ---------------------------------------------------------------------
  // The per-descriptor view

  /** The students of all sheets; a sheet without students adds nothing. */
  function StudentsOf(sheets: seq<Sheet>): nat {
    if sheets == [] then 0 else StudentsOf(sheets[..|sheets| - 1]) + sheets[|sheets| - 1].rows
  }

  /** The correct answers for descriptor `d` over all sheets with students. */
  ghost function CorrectAcross(sheets: seq<Sheet>, key: AnswerKey, dm: DescriptorMap, d: DescriptorId): nat {
    if sheets == [] then 0
    else
      var last := sheets[|sheets| - 1];
      CorrectAcross(sheets[..|sheets| - 1], key, dm, d) +
      (if last.rows > 0 then CorrectFor(last.columns, key, dm, d) else 0)
  }

  lemma {:induction false} WithDescriptorOfRecordsFor(sheet: Sheet, key: AnswerKey, dm: DescriptorMap, ds: seq<DescriptorId>, d: DescriptorId)
    requires forall i, j :: 0 <= i < j < |ds| ==> ds[i] != ds[j]
    ensures WithDescriptor(RecordsFor(sheet, key, dm, ds), d) ==
            if d in ds then [RecordOf(sheet, key, dm, d)] else []
  {
    if ds != [] {
      var n := |ds| - 1;
      var rs := RecordsFor(sheet, key, dm, ds);
      var front := RecordsFor(sheet, key, dm, ds[..n]);
      var r := RecordOf(sheet, key, dm, ds[n]);
      assert WithDescriptor(rs, d) == WithDescriptor(front, d) + (if r.descriptor == d then [r] else []) by {
        assert rs == front + [r];
        assert rs[..|rs| - 1] == front;
      }
      assert WithDescriptor(front, d) == if d in ds[..n] then [RecordOf(sheet, key, dm, d)] else [] by {
        WithDescriptorOfRecordsFor(sheet, key, dm, ds[..n], d);
      }
      assert ds[n] !in ds[..n];
      assert d in ds <==> d in ds[..n] || d == ds[n] by {
        assert ds == ds[..n] + [ds[n]];
      }
    }
  }

  lemma DescriptorPerformanceLast(sheets: seq<Sheet>, key: AnswerKey, dm: DescriptorMap, order: seq<DescriptorId>, d: DescriptorId)
    requires IsEnumeration(order, dm.Values)
    requires d in dm.Values
    requires sheets != []
    ensures var n := |sheets| - 1;
            WithDescriptor(Performance(sheets, key, dm, order), d) ==
            WithDescriptor(Performance(sheets[..n], key, dm, order), d) +
            (if sheets[n].rows > 0 then [RecordOf(sheets[n], key, dm, d)] else [])
  {
    var n := |sheets| - 1;
    WithDescriptorAppend(Performance(sheets[..n], key, dm, order), SheetRecords(sheets[n], key, dm, order), d);
    if sheets[n].rows > 0 {
      WithDescriptorOfRecordsFor(sheets[n], key, dm, order, d);
    }
  }

  /** What the descriptor's line should add up to over `sheets`. */
  ghost function ExpectedTotals(sheets: seq<Sheet>, key: AnswerKey, dm: DescriptorMap, d: DescriptorId): Totals {
    Totals(CorrectAcross(sheets, key, dm, d), StudentsOf(sheets) * |QuestionsOf(dm, d)|)
  }

  /** What one sheet adds to the descriptor's line. */
  ghost function SheetShare(sheet: Sheet, key: AnswerKey, dm: DescriptorMap, d: DescriptorId): Totals {
    Totals(if sheet.rows > 0 then CorrectFor(sheet.columns, key, dm, d) else 0, sheet.rows * |QuestionsOf(dm, d)|)
  }

  lemma ExpectedTotalsLast(sheets: seq<Sheet>, key: AnswerKey, dm: DescriptorMap, d: DescriptorId)
    requires sheets != []
    ensures var n := |sheets| - 1;
            ExpectedTotals(sheets, key, dm, d) ==
            Add(ExpectedTotals(sheets[..n], key, dm, d), SheetShare(sheets[n], key, dm, d))
  {
    var n := |sheets| - 1;
    MulAddRight(StudentsOf(sheets[..n]), sheets[n].rows, |QuestionsOf(dm, d)|);
  }

  lemma SheetShareIsSum(sheet: Sheet, key: AnswerKey, dm: DescriptorMap, d: DescriptorId)
    ensures Sum(if sheet.rows > 0 then [RecordOf(sheet, key, dm, d)] else []) == SheetShare(sheet, key, dm, d)
  {
    if sheet.rows > 0 {
      var r := RecordOf(sheet, key, dm, d);
      assert [r][..0] == [];
    }
  }

  lemma {:induction false} DescriptorTotalsOfPerformance(sheets: seq<Sheet>, key: AnswerKey, dm: DescriptorMap, order: seq<DescriptorId>, d: DescriptorId)
    requires IsEnumeration(order, dm.Values)
    requires d in dm.Values
    ensures Sum(WithDescriptor(Performance(sheets, key, dm, order), d)) == ExpectedTotals(sheets, key, dm, d)
  {
    if sheets != [] {
      var n := |sheets| - 1;
      var last := sheets[n];
      var whole := WithDescriptor(Performance(sheets, key, dm, order), d);
      var before := WithDescriptor(Performance(sheets[..n], key, dm, order), d);
      var added: seq<PerformanceRecord> := if last.rows > 0 then [RecordOf(last, key, dm, d)] else [];
      assert whole == before + added by {
        DescriptorPerformanceLast(sheets, key, dm, order, d);
      }
      assert Sum(before) == ExpectedTotals(sheets[..n], key, dm, d) by {
        DescriptorTotalsOfPerformance(sheets[..n], key, dm, order, d);
      }
      assert Sum(added) == SheetShare(last, key, dm, d) by {
        SheetShareIsSum(last, key, dm, d);
      }
      assert ExpectedTotals(sheets, key, dm, d) == Add(ExpectedTotals(sheets[..n], key, dm, d), SheetShare(last, key, dm, d)) by {
        ExpectedTotalsLast(sheets, key, dm, d);
      }
      SumAppend(before, added);
    } else {
      assert ExpectedTotals(sheets, key, dm, d) == Totals(0, 0);
    }
  }

  lemma MulAddRight(a: nat, b: nat, c: nat)
    ensures (a + b) * c == a * c + b * c
  {
  }

  lemma MulPositive(a: nat, b: nat)
    requires a > 0 && b > 0
    ensures a * b > 0
  {
  }

  /**
   * The line of a descriptor in the per-descriptor view: the correct
   * answers for it over every sheet, out of all students times its number
   * of questions. Its percentage is the ratio of those sums, not a mean
   * of the sheets' percentages.
   */
  lemma DescriptorView(sheets: seq<Sheet>, key: AnswerKey, dm: DescriptorMap, order: seq<DescriptorId>, d: DescriptorId)
    requires IsEnumeration(order, dm.Values)
    requires d in dm.Values
    requires StudentsOf(sheets) > 0
    ensures var rs := Performance(sheets, key, dm, order);
            && d in ByDescriptor(rs)
            && ByDescriptor(rs)[d] == ExpectedTotals(sheets, key, dm, d)
  {
    var rs := Performance(sheets, key, dm, order);
    DescriptorTotalsOfPerformance(sheets, key, dm, order, d);
    var q :| q in dm && dm[q] == d;
    assert q in QuestionsOf(dm, d);
    MulPositive(StudentsOf(sheets), |QuestionsOf(dm, d)|);
    var group := WithDescriptor(rs, d);
    assert group != [];
    WithDescriptorMembers(rs, d);
    assert group[0] in group;
  }
}
