/**
 * What the scoring transform guarantees: the cell match rule, which columns
 * count and where, the bound on a descriptor's tally, and the shape of the
 * records a sheet emits.
 */
module ScoringProperties {
  import opened Optional
  import opened Text
  import opened Questions
  import opened Scoring
  import opened Sequences

  // ---------------------------------------------------------------------
  // The cell match rule

  /** The match count is the number of rows whose cell matches. */
  lemma {:induction false} MatchCountIsMatchingRows(cells: seq<Cell>, answer: string)
    ensures MatchCount(cells, answer) == |MatchingRows(cells, answer)|
  {
    if cells != [] {
      var n := |cells| - 1;
      MatchCountIsMatchingRows(cells[..n], answer);
      MatchingRowsStep(cells, answer);
      if CellMatches(cells[n], answer) {
        assert n !in MatchingRows(cells[..n], answer);
      }
    }
  }

  /** The rows of a column are those of all but its last cell, and the last one if it matches. */
  lemma MatchingRowsStep(cells: seq<Cell>, answer: string)
    requires cells != []
    ensures MatchingRows(cells, answer)
         == MatchingRows(cells[..|cells| - 1], answer) + (if CellMatches(cells[|cells| - 1], answer) then {|cells| - 1} else {})
  {
    var n := |cells| - 1;
    forall i
      ensures i in MatchingRows(cells, answer) <==> i in MatchingRows(cells[..n], answer) + (if CellMatches(cells[n], answer) then {n} else {})
    {
      if 0 <= i < n {
        assert cells[..n][i] == cells[i];
      }
    }
  }

  /** A cell is correct exactly when it equals the key up to letter case. */
  lemma CellMatchesCaseInsensitive(text: string, answer: string)
    ensures CellMatches(Some(text), answer) <==>
            |text| == |answer| && forall i :: 0 <= i < |text| ==> UpperChar(text[i]) == UpperChar(answer[i])
  {
    UpperEqual(text, answer);
  }

  /** A missing cell is correct only against an empty key. */
  lemma MissingCellMatchesOnlyEmptyKey(answer: string)
    ensures CellMatches(None, answer) <==> answer == ""
  {
  }

  lemma MatchExamples()
    ensures CellMatches(Some("d"), "D")
    ensures CellMatches(Some("D"), "D")
    ensures !CellMatches(Some("X"), "B")
    ensures !CellMatches(None, "D")
  {
    assert Upper("d") == [UpperChar('d')] + Upper([]);
    assert Upper("X") == [UpperChar('X')] + Upper([]);
    assert Upper("B") == [UpperChar('B')] + Upper([]);
    assert Upper("X")[0] == 'X' && Upper("B")[0] == 'B';
  }

  // ---------------------------------------------------------------------
  // Which columns count, and where

  /**
   * A column without a question id, or whose id has no descriptor, the
   * empty (falsy) descriptor or no key entry, changes no descriptor's tally.
   */
  lemma UnmappedColumnIgnored(columns: seq<Column>, col: Column, key: AnswerKey, dm: DescriptorMap, d: DescriptorId)
    requires QuestionIdOf(col.name).None? ||
             QuestionIdOf(col.name).value !in dm ||
             QuestionIdOf(col.name).value !in key ||
             dm[QuestionIdOf(col.name).value] == ""
    ensures CorrectFor(columns + [col], key, dm, d) == CorrectFor(columns, key, dm, d)
  {
    assert (columns + [col])[..|columns|] == columns;
  }

  /**
   * A column whose question is mapped and keyed adds its match count to
   * its own descriptor's tally and leaves every other tally unchanged.
   */
  lemma ScoredColumnAddsToOwnDescriptor(columns: seq<Column>, col: Column, key: AnswerKey, dm: DescriptorMap, d: DescriptorId)
    requires QuestionIdOf(col.name).Some?
    requires var q := QuestionIdOf(col.name).value; q in dm && dm[q] != "" && q in key
    ensures var q := QuestionIdOf(col.name).value;
            CorrectFor(columns + [col], key, dm, d) ==
            CorrectFor(columns, key, dm, d) + (if dm[q] == d then MatchCount(col.cells, key[q]) else 0)
  {
    assert (columns + [col])[..|columns|] == columns;
  }

  /** Tallies add up over consecutive groups of columns. */
  lemma {:induction false} CorrectForAppend(a: seq<Column>, b: seq<Column>, key: AnswerKey, dm: DescriptorMap, d: DescriptorId)
    ensures CorrectFor(a + b, key, dm, d) == CorrectFor(a, key, dm, d) + CorrectFor(b, key, dm, d)
  {
    if b == [] {
      assert a + b == a;
    } else {
      var n := |b| - 1;
      assert (a + b)[..|a + b| - 1] == a + b[..n];
      CorrectForAppend(a, b[..n], key, dm, d);
    }
  }

  /** The tally does not depend on the order of the columns. */
  lemma {:induction false} CorrectForOrderIndependent(a: seq<Column>, b: seq<Column>, key: AnswerKey, dm: DescriptorMap, d: DescriptorId)
    requires multiset(a) == multiset(b)
    ensures CorrectFor(a, key, dm, d) == CorrectFor(b, key, dm, d)
  {
    if a != [] {
      var n := |a| - 1;
      var c := a[n];
      assert a == a[..n] + [c];
      assert multiset(a[..n]) == multiset(a) - multiset{c};
      assert c in multiset(b);
      var k :| 0 <= k < |b| && b[k] == c;
      var rest := b[..k] + b[k + 1..];
      RemoveOne(b, k);
      CorrectForOrderIndependent(a[..n], rest, key, dm, d);
      CorrectForRemove(b, k, key, dm, d);
      assert CorrectFor(a, key, dm, d) == CorrectFor(a[..n], key, dm, d) + Contribution(c, key, dm, d);
    }
  }

  /** Taking out the element at `k` takes one copy of it out of the multiset. */
  lemma RemoveOne<T>(b: seq<T>, k: int)
    requires 0 <= k < |b|
    ensures multiset(b[..k] + b[k + 1..]) == multiset(b) - multiset{b[k]}
  {
    assert b == b[..k] + [b[k]] + b[k + 1..];
  }

  /** The tally of a sheet is that without column `k` plus what column `k` adds. */
  lemma CorrectForRemove(b: seq<Column>, k: int, key: AnswerKey, dm: DescriptorMap, d: DescriptorId)
    requires 0 <= k < |b|
    ensures CorrectFor(b, key, dm, d) == CorrectFor(b[..k] + b[k + 1..], key, dm, d) + Contribution(b[k], key, dm, d)
  {
    assert b == b[..k] + [b[k]] + b[k + 1..];
    CorrectForAppend(b[..k] + [b[k]], b[k + 1..], key, dm, d);
    CorrectForAppend(b[..k], [b[k]], key, dm, d);
    CorrectForAppend(b[..k], b[k + 1..], key, dm, d);
    assert [b[k]][..0] == [];
  }

  // ---------------------------------------------------------------------
  // The bound on a tally

  /** No two columns of the sheet resolve to the same question id. */
  predicate DistinctQuestionColumns(columns: seq<Column>) {
    forall i, j :: 0 <= i < j < |columns| && QuestionIdOf(columns[i].name).Some? ==>
      QuestionIdOf(columns[i].name) != QuestionIdOf(columns[j].name)
  }

  /** The questions of descriptor `d` that some column is scored as. */
  ghost function ScoredIds(columns: seq<Column>, key: AnswerKey, dm: DescriptorMap, d: DescriptorId): (r: set<QuestionId>)
    ensures r <= QuestionsOf(dm, d)
  {
    if columns == [] then {}
    else
      var rest := ScoredIds(columns[..|columns| - 1], key, dm, d);
      match ScoredQuestion(columns[|columns| - 1].name, key, dm)
      case Some(q) => if dm[q] == d then rest + {q} else rest
      case None => rest
  }

  lemma {:induction false} NotScoredBefore(columns: seq<Column>, key: AnswerKey, dm: DescriptorMap, d: DescriptorId, q: QuestionId)
    requires forall i :: 0 <= i < |columns| ==> QuestionIdOf(columns[i].name) != Some(q)
    ensures q !in ScoredIds(columns, key, dm, d)
  {
    if columns != [] {
      NotScoredBefore(columns[..|columns| - 1], key, dm, d, q);
    }
  }

  lemma DistinctPrefix(columns: seq<Column>, n: nat)
    requires n <= |columns|
    requires DistinctQuestionColumns(columns)
    ensures DistinctQuestionColumns(columns[..n])
  {
    var init := columns[..n];
    forall i, j | 0 <= i < j < |init| && QuestionIdOf(init[i].name).Some?
      ensures QuestionIdOf(init[i].name) != QuestionIdOf(init[j].name)
    {
      assert init[i] == columns[i] && init[j] == columns[j];
    }
  }

  lemma ContributionBounded(col: Column, key: AnswerKey, dm: DescriptorMap, d: DescriptorId)
    ensures Contribution(col, key, dm, d) <= |col.cells|
    ensures ScoredIdOf(col, key, dm, d).None? ==> Contribution(col, key, dm, d) == 0
  {
  }

  /** The question of descriptor `d` that a column is scored as, if any. */
  function ScoredIdOf(col: Column, key: AnswerKey, dm: DescriptorMap, d: DescriptorId): Option<QuestionId> {
    match ScoredQuestion(col.name, key, dm)
    case Some(q) => if dm[q] == d then Some(q) else None
    case None => None
  }

  lemma {:induction false} CorrectForBoundedByScoredIds(columns: seq<Column>, rows: nat, key: AnswerKey, dm: DescriptorMap, d: DescriptorId)
    requires forall i :: 0 <= i < |columns| ==> |columns[i].cells| == rows
    requires DistinctQuestionColumns(columns)
    ensures CorrectFor(columns, key, dm, d) <= rows * |ScoredIds(columns, key, dm, d)|
  {
    if columns != [] {
      var n := |columns| - 1;
      var init := columns[..n];
      var last := columns[n];
      DistinctPrefix(columns, n);
      CorrectForBoundedByScoredIds(init, rows, key, dm, d);
      var before := |ScoredIds(init, key, dm, d)|;
      ContributionBounded(last, key, dm, d);
      var found := ScoredIdOf(last, key, dm, d);
      if found.Some? {
        var q := found.value;
        assert QuestionIdOf(last.name) == Some(q);
        forall i | 0 <= i < |init| ensures QuestionIdOf(init[i].name) != Some(q) {
          assert init[i] == columns[i];
        }
        NotScoredBefore(init, key, dm, d, q);
        assert ScoredIds(columns, key, dm, d) == ScoredIds(init, key, dm, d) + {q};
        MulSucc(rows, before);
      } else {
        assert ScoredIds(columns, key, dm, d) == ScoredIds(init, key, dm, d);
      }
      assert CorrectFor(columns, key, dm, d) == CorrectFor(init, key, dm, d) + Contribution(last, key, dm, d);
    }
  }

  /**
   * When no two columns carry the same question id, a descriptor's tally
   * is at most the number of students times its number of questions.
   */
  lemma CorrectForBounded(sheet: Sheet, key: AnswerKey, dm: DescriptorMap, d: DescriptorId)
    requires WellFormed(sheet)
    requires DistinctQuestionColumns(sheet.columns)
    ensures CorrectFor(sheet.columns, key, dm, d) <= sheet.rows * |QuestionsOf(dm, d)|
  {
    forall i | 0 <= i < |sheet.columns| ensures |sheet.columns[i].cells| == sheet.rows {
      assert sheet.columns[i] in sheet.columns;
    }
    CorrectForBoundedByScoredIds(sheet.columns, sheet.rows, key, dm, d);
    var ids := ScoredIds(sheet.columns, key, dm, d);
    SubsetCardinality(ids, QuestionsOf(dm, d));
    MulMonotonic(sheet.rows, |ids|, |QuestionsOf(dm, d)|);
  }

  lemma MulSucc(a: nat, b: nat)
    ensures a * (b + 1) == a * b + a
  {
  }

  lemma MulMonotonic(a: nat, b: nat, c: nat)
    requires b <= c
    ensures a * b <= a * c
  {
    assert a * c == a * b + a * (c - b);
  }

  lemma SubsetCardinality<T>(a: set<T>, b: set<T>)
    requires a <= b
    ensures |a| <= |b|
  {
    assert b == a + (b - a);
  }

  /**
   * Two columns with the same question id are both counted: the tally can
   * then exceed the number of students times the number of questions.
   */
  lemma DuplicateColumnsCountTwice()
    ensures var dm := map["Q1" := "D1"];
            var key := map["Q1" := "D"];
            var sheet := Sheet("A", 1, [Column("Q1", [Some("D")]), Column("Q1.1", [Some("D")])]);
            CorrectFor(sheet.columns, key, dm, "D1") == 2 &&
            sheet.rows * |QuestionsOf(dm, "D1")| == 1
  {
    var dm := map["Q1" := "D1"];
    var key := map["Q1" := "D"];
    var c1 := Column("Q1", [Some("D")]);
    var c2 := Column("Q1.1", [Some("D")]);
    assert MatchCount([Some("D")], "D") == 1 by {
      MatchExamples();
      assert [Some("D")][..0] == [];
    }
    assert Contribution(c1, key, dm, "D1") == 1 by {
      QuestionIdCharacterized("Q1", "Q1");
    }
    assert Contribution(c2, key, dm, "D1") == 1 by {
      QuestionIdCharacterized("Q1.1", "Q1");
    }
    assert CorrectFor([c1], key, dm, "D1") == 1 by {
      assert [c1][..0] == [];
    }
    assert CorrectFor([c1, c2], key, dm, "D1") == 2 by {
      assert [c1, c2][..1] == [c1];
    }
    assert QuestionsOf(dm, "D1") == {"Q1"};
  }

  // ---------------------------------------------------------------------
  // Records

  /**
   * Two students answering D, B and d, X to a key of D and B on two
   * questions of one descriptor: 3 correct out of 4, that is 75 percent.
   */
  lemma TwoStudentsExample()
    ensures var dm := map["Q1" := "D1", "Q2" := "D1"];
            var key := map["Q1" := "D", "Q2" := "B"];
            var sheet := Sheet("A", 2, [Column("ALUNO", [Some("Ana"), Some("Bia")]),
                                        Column("Q1", [Some("D"), Some("d")]),
                                        Column("Q2", [Some("B"), Some("X")])]);
            RecordOf(sheet, key, dm, "D1") == PerformanceRecord("A", "D1", 3, 4, 75.0, 2)
  {
    var dm := map["Q1" := "D1", "Q2" := "D1"];
    var key := map["Q1" := "D", "Q2" := "B"];
    var c0 := Column("ALUNO", [Some("Ana"), Some("Bia")]);
    var c1 := Column("Q1", [Some("D"), Some("d")]);
    var c2 := Column("Q2", [Some("B"), Some("X")]);
    var cols := [c0, c1, c2];
    TwoStudentsColumns();
    assert CorrectFor([c0], key, dm, "D1") == 0 by {
      assert [c0][..0] == [];
    }
    assert CorrectFor([c0, c1], key, dm, "D1") == 2 by {
      assert [c0, c1][..1] == [c0];
    }
    assert CorrectFor(cols, key, dm, "D1") == 3 by {
      assert cols[..2] == [c0, c1];
    }
    assert |QuestionsOf(dm, "D1")| == 2 by {
      assert QuestionsOf(dm, "D1") == {"Q1", "Q2"};
    }
    assert Percentage(3, 4) == 75.0;
  }

  /** What each column of the two-student example adds to its descriptor. */
  lemma TwoStudentsColumns()
    ensures var dm := map["Q1" := "D1", "Q2" := "D1"];
            var key := map["Q1" := "D", "Q2" := "B"];
            && Contribution(Column("ALUNO", [Some("Ana"), Some("Bia")]), key, dm, "D1") == 0
            && Contribution(Column("Q1", [Some("D"), Some("d")]), key, dm, "D1") == 2
            && Contribution(Column("Q2", [Some("B"), Some("X")]), key, dm, "D1") == 1
  {
    var cells1 := [Some("D"), Some("d")];
    var cells2 := [Some("B"), Some("X")];
    assert QuestionIdOf("ALUNO") == None;
    assert MatchCount(cells1, "D") == 2 by {
      MatchExamples();
      assert cells1[..1] == [Some("D")] && cells1[..1][..0] == [];
    }
    assert MatchCount(cells2, "B") == 1 by {
      MatchExamples();
      assert CellMatches(Some("B"), "B") by {
        assert Upper("B") == [UpperChar('B')] + Upper([]);
      }
      assert cells2[..1] == [Some("B")] && cells2[..1][..0] == [];
    }
    QuestionIdCharacterized("Q1", "Q1");
    QuestionIdCharacterized("Q2", "Q2");
  }

  /** Record `j` of a non-empty sheet belongs to descriptor `order[j]`. */
  lemma {:induction false} RecordsForAt(sheet: Sheet, key: AnswerKey, dm: DescriptorMap, order: seq<DescriptorId>, j: int)
    requires 0 <= j < |order|
    ensures |RecordsFor(sheet, key, dm, order)| == |order|
    ensures RecordsFor(sheet, key, dm, order)[j] == RecordOf(sheet, key, dm, order[j])
  {
    var n := |order| - 1;
    if j < n {
      RecordsForAt(sheet, key, dm, order[..n], j);
    } else if n > 0 {
      RecordsForAt(sheet, key, dm, order[..n], 0);
    }
  }

  /** A sheet without students emits no record. */
  lemma EmptySheetEmitsNothing(sheet: Sheet, key: AnswerKey, dm: DescriptorMap, order: seq<DescriptorId>)
    requires sheet.rows == 0
    ensures SheetRecords(sheet, key, dm, order) == []
  {
  }

  /**
   * A sheet with students emits exactly one record per descriptor of the
   * map, each naming the sheet and its number of students.
   */
  lemma OneRecordPerDescriptor(sheet: Sheet, key: AnswerKey, dm: DescriptorMap, order: seq<DescriptorId>)
    requires sheet.rows > 0
    requires IsEnumeration(order, dm.Values)
    ensures var rs := SheetRecords(sheet, key, dm, order);
            && |rs| == |dm.Values|
            && (forall i, j :: 0 <= i < j < |rs| ==> rs[i].descriptor != rs[j].descriptor)
            && (forall d :: d in dm.Values <==> exists i :: 0 <= i < |rs| && rs[i].descriptor == d)
            && (forall i :: 0 <= i < |rs| ==> rs[i].sheet == sheet.name && rs[i].students == sheet.rows)
  {
    var rs := SheetRecords(sheet, key, dm, order);
    if order == [] {
      assert dm.Values == {};
    } else {
      RecordsForAt(sheet, key, dm, order, 0);
      forall i | 0 <= i < |rs| ensures rs[i] == RecordOf(sheet, key, dm, order[i]) {
        RecordsForAt(sheet, key, dm, order, i);
      }
    }
    assert |rs| == |order|;
    DistinctLength(order, dm.Values);
  }

  /** A duplicate-free listing of a set is as long as the set is large. */
  lemma {:induction false} DistinctLength<T>(s: seq<T>, ds: set<T>)
    requires forall i, j :: 0 <= i < j < |s| ==> s[i] != s[j]
    requires forall i :: 0 <= i < |s| ==> s[i] in ds
    requires forall d :: d in ds ==> d in s
    ensures |s| == |ds|
  {
    if s != [] {
      var n := |s| - 1;
      var x := s[n];
      assert x !in s[..n];
      var smaller := ds - {x};
      forall d | d in smaller ensures d in s[..n] {
        var i :| 0 <= i < |s| && s[i] == d;
      }
      DistinctLength(s[..n], smaller);
    }
  }

  /**
   * Every descriptor of the map has at least one question, so a sheet with
   * students never reaches the zero-denominator rule.
   */
  lemma RecordTotalPositive(sheet: Sheet, key: AnswerKey, dm: DescriptorMap, d: DescriptorId)
    requires sheet.rows > 0
    requires d in dm.Values
    ensures RecordOf(sheet, key, dm, d).total > 0
  {
    var q :| q in dm && dm[q] == d;
    assert q in QuestionsOf(dm, d);
  }

  /**
   * A record's tally is within its total and its percentage within
   * 0 and 100, when no two columns carry the same question id.
   */
  lemma RecordBounded(sheet: Sheet, key: AnswerKey, dm: DescriptorMap, d: DescriptorId)
    requires WellFormed(sheet)
    requires DistinctQuestionColumns(sheet.columns)
    ensures var r := RecordOf(sheet, key, dm, d);
            r.correct <= r.total && 0.0 <= r.percentage <= 100.0
  {
    CorrectForBounded(sheet, key, dm, d);
  }

  /** The records of a longer workbook extend those of its first sheets. */
  lemma {:induction false} PerformanceAppend(a: seq<Sheet>, b: seq<Sheet>, key: AnswerKey, dm: DescriptorMap, order: seq<DescriptorId>)
    ensures Performance(a + b, key, dm, order) == Performance(a, key, dm, order) + Performance(b, key, dm, order)
  {
    if b == [] {
      assert a + b == a;
    } else {
      var n := |b| - 1;
      var last := SheetRecords(b[n], key, dm, order);
      assert Performance(a + b, key, dm, order) == Performance(a + b[..n], key, dm, order) + last by {
        assert (a + b)[..|a + b| - 1] == a + b[..n];
        assert (a + b)[|a + b| - 1] == b[n];
      }
      assert Performance(a + b[..n], key, dm, order) == Performance(a, key, dm, order) + Performance(b[..n], key, dm, order) by {
        PerformanceAppend(a, b[..n], key, dm, order);
      }
      assert Performance(b, key, dm, order) == Performance(b[..n], key, dm, order) + last;
      ConcatAssociative(Performance(a, key, dm, order), Performance(b[..n], key, dm, order), last);
    }
  }
}
