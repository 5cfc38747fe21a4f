/**
 * The scoring transform: answers of every sheet are checked against the
 * answer key, counted per descriptor, and turned into one performance
 * record per (sheet, descriptor) pair.
 */
module Scoring {
  import opened Optional
  import opened Text
  import opened Questions
  import opened Sequences

  type DescriptorId = string

  /** Question id to its single correct choice. */
  type AnswerKey = map<QuestionId, string>

  /** Question id to the descriptor (skill tag) it assesses. */
  type DescriptorMap = map<QuestionId, DescriptorId>

  /**
   * A spreadsheet cell: None for an empty (NaN) cell, Some(text) for the
   * text the cell's value renders to.
   */
  type Cell = Option<string>

  datatype Column = Column(name: string, cells: seq<Cell>)

  /** One sheet of the workbook: a school or class, one row per student. */
  datatype Sheet = Sheet(name: string, rows: nat, columns: seq<Column>)

  /** Every column of a table holds one cell per row. */
  predicate WellFormed(sheet: Sheet) {
    forall c :: c in sheet.columns ==> |c.cells| == sheet.rows
  }

  datatype PerformanceRecord = PerformanceRecord(
    sheet: string,
    descriptor: DescriptorId,
    correct: nat,
    total: nat,
    percentage: real,
    students: nat)

  // ---------------------------------------------------------------------
  // Questions per descriptor

  /** The questions among `qs` that the map assigns to `d`. */
  function QuestionsAmong(dm: DescriptorMap, qs: set<QuestionId>, d: DescriptorId): set<QuestionId> {
    set q | q in qs && q in dm && dm[q] == d
  }

  /** All questions the map assigns to `d`. */
  function QuestionsOf(dm: DescriptorMap, d: DescriptorId): set<QuestionId> {
    QuestionsAmong(dm, dm.Keys, d)
  }

  /**
   * `counts` holds, for the questions `done` that were already visited,
   * the number of them per descriptor, and has no other entries.
   */
  ghost predicate CountsOf(dm: DescriptorMap, done: set<QuestionId>, counts: map<DescriptorId, nat>) {
    && done <= dm.Keys
    && counts.Keys == (set q | q in done :: dm[q])
    && forall d :: d in counts ==> counts[d] == |QuestionsAmong(dm, done, d)|
  }

  /** Visiting one more question increments its own descriptor's count only. */
  lemma CountStep(dm: DescriptorMap, done: set<QuestionId>, counts: map<DescriptorId, nat>, q: QuestionId)
    requires CountsOf(dm, done, counts)
    requires q in dm && q !in done
    ensures CountsOf(dm, done + {q}, counts[dm[q] := (if dm[q] in counts then counts[dm[q]] else 0) + 1])
  {
    var d := dm[q];
    var next := counts[d := (if d in counts then counts[d] else 0) + 1];
    assert QuestionsAmong(dm, done + {q}, d) == QuestionsAmong(dm, done, d) + {q};
    if d !in counts {
      assert QuestionsAmong(dm, done, d) == {};
    }
    forall e | e in next
      ensures next[e] == |QuestionsAmong(dm, done + {q}, e)|
    {
      if e != d {
        assert QuestionsAmong(dm, done + {q}, e) == QuestionsAmong(dm, done, e);
      }
    }
  }

  /**
   * The loop that fills the question count of every descriptor: each
   * descriptor that some question maps to ends with the number of
   * questions mapped to it, and no other descriptor gets an entry.
   */
  method CountQuestions(dm: DescriptorMap) returns (counts: map<DescriptorId, nat>)
    ensures counts.Keys == dm.Values
    ensures forall d :: d in counts ==> counts[d] == |QuestionsOf(dm, d)|
  {
    counts := map[];
    var pending := dm.Keys;
    ghost var done: set<QuestionId> := {};
    while pending != {}
      invariant pending == dm.Keys - done
      invariant CountsOf(dm, done, counts)
      decreases pending
    {
      var q :| q in pending;
      var d := dm[q];
      CountStep(dm, done, counts, q);
      counts := counts[d := (if d in counts then counts[d] else 0) + 1];
      pending := pending - {q};
      done := done + {q};
    }
    assert done == dm.Keys;
  }

  // ---------------------------------------------------------------------
  // Matching one column against the key

  /** A missing cell is read as the empty string. */
  function CellText(cell: Cell): string {
    match cell
    case None => ""
    case Some(s) => s
  }

  /** A cell is correct when its upper-cased text equals the upper-cased key. */
  predicate CellMatches(cell: Cell, answer: string)
    ensures CellMatches(cell, answer) ==> |CellText(cell)| == |answer|
    ensures cell.None? ==> (CellMatches(cell, answer) <==> answer == "")
  {
    Upper(CellText(cell)) == Upper(answer)
  }

  /** The number of cells of a column that match the answer. */
  function MatchCount(cells: seq<Cell>, answer: string): (n: nat)
    ensures n <= |cells|
  {
    if cells == [] then 0
    else MatchCount(cells[..|cells| - 1], answer) + (if CellMatches(cells[|cells| - 1], answer) then 1 else 0)
  }

  /** The rows whose cell matches the answer. */
  function MatchingRows(cells: seq<Cell>, answer: string): set<int> {
    set i | 0 <= i < |cells| && CellMatches(cells[i], answer)
  }

  // ---------------------------------------------------------------------
  // Scoring the columns of one sheet

  /**
   * The question a column is scored as: its header must yield a question
   * id that has a non-empty descriptor and an answer-key entry.
   */
  function ScoredQuestion(name: string, key: AnswerKey, dm: DescriptorMap): (r: Option<QuestionId>)
    ensures r.Some? <==> QuestionIdOf(name).Some? && var q := QuestionIdOf(name).value; q in dm && dm[q] != "" && q in key
    ensures r.Some? ==> r == QuestionIdOf(name) && IsQuestionPrefix(name, r.value)
  {
    match QuestionIdOf(name)
    case None => None
    case Some(q) => if q in dm && dm[q] != "" && q in key then Some(q) else None
  }

  /** What one column adds to the tally of descriptor `d`. */
  function Contribution(col: Column, key: AnswerKey, dm: DescriptorMap, d: DescriptorId): nat {
    match ScoredQuestion(col.name, key, dm)
    case None => 0
    case Some(q) => if dm[q] == d then MatchCount(col.cells, key[q]) else 0
  }

  /** The correct answers a sheet's columns add up to for descriptor `d`. */
  ghost function CorrectFor(columns: seq<Column>, key: AnswerKey, dm: DescriptorMap, d: DescriptorId): nat {
    if columns == [] then 0
    else CorrectFor(columns[..|columns| - 1], key, dm, d) + Contribution(columns[|columns| - 1], key, dm, d)
  }

  /**
   * The loop over a sheet's columns: the accumulator starts at zero for
   * every descriptor of the map, and each scored column adds its match
   * count to its own descriptor.
   */
  method ScoreColumns(columns: seq<Column>, key: AnswerKey, dm: DescriptorMap) returns (acc: map<DescriptorId, nat>)
    ensures acc.Keys == dm.Values
    ensures forall d :: d in acc ==> acc[d] == CorrectFor(columns, key, dm, d)
  {
    acc := map d | d in dm.Values :: 0;
    for i := 0 to |columns|
      invariant acc.Keys == dm.Values
      invariant forall d :: d in acc ==> acc[d] == CorrectFor(columns[..i], key, dm, d)
    {
      assert columns[..i + 1][..i] == columns[..i];
      var col := columns[i];
      var found := QuestionIdOf(col.name);
      if found.Some? {
        var q := found.value;
        if q in dm && dm[q] != "" && q in key {
          var d := dm[q];
          var n := MatchCount(col.cells, key[q]);
          acc := acc[d := acc[d] + n];
        }
      }
    }
    assert columns[..|columns|] == columns;
  }

  // ---------------------------------------------------------------------
  // Records

  /**
   * The percentage of correct answers, and 0 when nothing was possible.
   */
  function Percentage(correct: nat, total: nat): (p: real)
    ensures total == 0 ==> p == 0.0
    ensures total > 0 ==> p * total as real == correct as real * 100.0
    ensures correct <= total ==> 0.0 <= p <= 100.0
  {
    if total > 0 then correct as real / total as real * 100.0 else 0.0
  }

  /** The record of one descriptor for one non-empty sheet. */
  ghost function RecordOf(sheet: Sheet, key: AnswerKey, dm: DescriptorMap, d: DescriptorId): (r: PerformanceRecord)
    ensures r.sheet == sheet.name && r.descriptor == d && r.students == sheet.rows
    ensures r.correct == CorrectFor(sheet.columns, key, dm, d)
    ensures r.total == sheet.rows * |QuestionsOf(dm, d)|
    ensures r.percentage == Percentage(r.correct, r.total)
  {
    var correct := CorrectFor(sheet.columns, key, dm, d);
    var total := sheet.rows * |QuestionsOf(dm, d)|;
    PerformanceRecord(sheet.name, d, correct, total, Percentage(correct, total), sheet.rows)
  }

  /** The records of one non-empty sheet, one per descriptor of `order`, in that order. */
  ghost function RecordsFor(sheet: Sheet, key: AnswerKey, dm: DescriptorMap, order: seq<DescriptorId>): seq<PerformanceRecord> {
    if order == [] then []
    else RecordsFor(sheet, key, dm, order[..|order| - 1]) + [RecordOf(sheet, key, dm, order[|order| - 1])]
  }

  /** The records of one sheet: none for a sheet without students. */
  ghost function SheetRecords(sheet: Sheet, key: AnswerKey, dm: DescriptorMap, order: seq<DescriptorId>): seq<PerformanceRecord> {
    if sheet.rows == 0 then [] else RecordsFor(sheet, key, dm, order)
  }

  /** The records of all sheets, in sheet order. */
  ghost function Performance(sheets: seq<Sheet>, key: AnswerKey, dm: DescriptorMap, order: seq<DescriptorId>): seq<PerformanceRecord> {
    if sheets == [] then []
    else Performance(sheets[..|sheets| - 1], key, dm, order) + SheetRecords(sheets[|sheets| - 1], key, dm, order)
  }

  /**
   * `order` lists the descriptors of the map once each: the iteration
   * order of the set of descriptors, which the program does not fix.
   */
  predicate IsEnumeration(order: seq<DescriptorId>, ds: set<DescriptorId>) {
    && (forall i, j :: 0 <= i < j < |order| ==> order[i] != order[j])
    && (forall i :: 0 <= i < |order| ==> order[i] in ds)
    && (forall d :: d in ds ==> d in order)
  }

  lemma ProductIsNat(a: nat, b: nat)
    ensures a * b >= 0
  {
  }

  lemma PerformanceStep(sheets: seq<Sheet>, key: AnswerKey, dm: DescriptorMap, order: seq<DescriptorId>, i: int)
    requires 0 <= i < |sheets|
    ensures Performance(sheets[..i + 1], key, dm, order) == Performance(sheets[..i], key, dm, order) + SheetRecords(sheets[i], key, dm, order)
  {
    assert sheets[..i + 1][..i] == sheets[..i];
  }

  lemma RecordsForStep(sheet: Sheet, key: AnswerKey, dm: DescriptorMap, order: seq<DescriptorId>, j: int)
    requires 0 <= j < |order|
    ensures RecordsFor(sheet, key, dm, order[..j + 1]) == RecordsFor(sheet, key, dm, order[..j]) + [RecordOf(sheet, key, dm, order[j])]
  {
    assert order[..j + 1][..j] == order[..j];
  }

  /**
   * The whole transform: for every sheet with students, score its columns
   * and append one record per descriptor.
   */
  method ComputePerformance(sheets: seq<Sheet>, key: AnswerKey, dm: DescriptorMap, order: seq<DescriptorId>)
    returns (records: seq<PerformanceRecord>)
    requires IsEnumeration(order, dm.Values)
    ensures records == Performance(sheets, key, dm, order)
  {
    var counts := CountQuestions(dm);
    records := [];
    for i := 0 to |sheets|
      invariant records == Performance(sheets[..i], key, dm, order)
    {
      ghost var before := records;
      var sheet := sheets[i];
      var students := sheet.rows;
      if students != 0 {
        var acc := ScoreColumns(sheet.columns, key, dm);
        for j := 0 to |order|
          invariant records == before + RecordsFor(sheet, key, dm, order[..j])
        {
          var d := order[j];
          ProductIsNat(students, counts[d]);
          var total := students * counts[d];
          var percentage := Percentage(acc[d], total);
          var record := PerformanceRecord(sheet.name, d, acc[d], total, percentage, students);
          assert record == RecordOf(sheet, key, dm, d);
          RecordsForStep(sheet, key, dm, order, j);
          ConcatAssociative(before, RecordsFor(sheet, key, dm, order[..j]), [record]);
          records := records + [record];
        }
        assert order[..|order|] == order;
      }
      assert records == before + SheetRecords(sheet, key, dm, order);
      PerformanceStep(sheets, key, dm, order, i);
    }
    assert sheets[..|sheets|] == sheets;
  }
}
