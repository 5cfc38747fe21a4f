# Scoring and aggregation transform of `analise_notas_alunos`

The program reads an Excel workbook of student answers. Each sheet is one
school or class, and each row is one student. It scores every answer column
against a fixed answer key (gabarito). It tallies the correct answers per
descriptor, the skill tag each question assesses. Then it shows two overall
views. This project models the transform in the middle of that pipeline. It
has three parts:

- **Questions per descriptor.** A loop counts how many questions the
  question→descriptor map assigns to each descriptor.
- **Per-sheet scoring.**
  - A sheet without students is skipped.
  - The tally starts at zero for every descriptor in the map.
  - Every column header is matched against `^Q\d+`.
  - A column whose question has both a descriptor and a key entry adds its
    count of matching cells to its descriptor. A cell matches when its
    upper-cased text equals the upper-cased key, and a missing cell reads as
    the empty string.
  - Each sheet then emits one record per descriptor: sheet, descriptor,
    correct, total, percentage and students.
- **Overall views.** Records are grouped by descriptor, and separately by
  sheet. Within each group the correct and possible counts are summed, and
  the percentage is recomputed from the two sums.

The answer key, the descriptor map and the workbook are parameters. A
workbook is a sequence of sheets in workbook order. A sheet is a name, a row
count and a sequence of columns, and each column is a header with one cell
per row. A cell is `Option<string>`: `None` is an empty (NaN) cell, and
`Some(s)` is the text the cell's value converts to.

The modules are:

- `Text`: ASCII digits and upper-casing.
- `Questions`: the header pattern.
- `Scoring`: the counting loop, the column loop, the record loop and their
  specification functions.
- `ScoringProperties`: properties of the scoring.
- `Aggregation`: the two group-by views.
- `AggregationProperties`: properties of the views.
- `OverallViews`: the views applied to the whole transform's output.

The three loops of the program are methods, each proved against a
specification function:

- `Scoring.CountQuestions` fills the count dictionary.
- `Scoring.ScoreColumns` rebinds its tally map once per scored column, where main.py:98 updates its local dict with `+=`.
- `Scoring.ComputePerformance` appends the records.

Everything else is a function or a lemma.

Some behaviours of main.py are easy to miss when reading it. The model
keeps each one as written:

- The tally is started for the descriptors that appear as values of the
  question→descriptor map (main.py:82). The description catalog
  (main.py:22-28) plays no part.
- A question column is skipped silently (main.py:92) when its id has no key
  entry, no descriptor, or the empty descriptor `""`, which Python treats
  as false. No warning is produced.
- A missing cell becomes `''` before it is compared. It therefore matches an
  empty key (`ScoringProperties.MissingCellMatchesOnlyEmptyKey`). It never
  matches a non-empty key.
- A sheet's tally can exceed students × questions. This happens when two
  columns resolve to the same question id, for example "Q1" and "Q1.1"
  (`ScoringProperties.DuplicateColumnsCountTwice`). The bound holds only when
  the ids are distinct.
- The overall views have no zero guard (main.py:155-157, 212-214), so a
  group whose possible count sums to 0 would divide by zero (0/0 is NaN and
  c/0 is infinity in pandas).
  `Aggregation.OverallPercentage` gives `None` there. On the transform's own
  output this never happens, for any workbook
  (`OverallViews.TransformViewsSound`). That every percentage of the views
  also lies between 0 and 100 is proved only when no sheet repeats a
  question id.
- Every descriptor that is a value of the map has at least one question. So
  for a sheet with students the zero-denominator rule of main.py:105 never
  fires (`ScoringProperties.RecordTotalPositive`).

## Model

| member | source | states |
|---|---|---|
| Text.UpperChar | main.py:97 | ASCII upper-casing of one character: a lower-case letter becomes its own capital (code point minus 32); every other character is kept; the result is never lower-case |
| Text.Upper | main.py:97 | ASCII upper-casing of a string, character by character: same length, and each position is the `UpperChar` of the input's character there |
| Text.UpperCharEqual | main.py:97 | two characters upper-case alike if and only if they are equal or one is the lower-case form of the other |
| Text.UpperIdempotent | main.py:97 | upper-casing an upper-cased string changes nothing, so the key may be given in either case |
| Text.UpperEqual | main.py:97 | two strings have equal upper-casings if and only if they have the same length and agree position by position up to letter case |
| Text.LeadingDigits | main.py:87 | the result is a prefix of the input made only of digits, and the character after it (if any) is not a digit: the greedy run `\d+` consumes |
| Text.LeadingDigitsUnique | main.py:87 | any digit prefix that cannot be extended is the one `LeadingDigits` returns, so the greedy run is unique |
| Questions.QuestionIdOf | main.py:87-89 | a header yields an id if and only if it starts with `Q` followed by a digit; the id is then a prefix of the header, `Q` plus a maximal run of digits |
| Questions.QuestionIdCharacterized | main.py:87-89 | the extraction returns `id` if and only if `id` is a prefix of the header made of `Q` and one or more digits that the header does not continue with another digit |
| Questions.Examples | main.py:86-89 | "Q1" and "Q1 (D1)" give Q1; "Q10" and "Q10 (D14)" give Q10, never Q1; "Q1Q2" gives Q1; "ALUNO", "q1", "Q" and "Q (D1)" give nothing |
| Scoring.CountQuestions | main.py:33-35 | the counting loop gives an entry to exactly the descriptors that are values of the map, each equal to the number of questions mapped to it |
| Scoring.CountStep | main.py:35 | visiting one more question increments its own descriptor's count (from 0 when absent) and keeps every other count exact |
| Scoring.MatchCount | main.py:97 | a column's match count is at most its number of cells |
| Scoring.ScoreColumns | main.py:82-98 | the column loop ends with an entry for exactly the map's descriptors, each equal to the tally the sheet's scored columns add up to for it, starting from 0 |
| Scoring.Percentage | main.py:105 | 0 when the total is 0; otherwise percentage × total = correct × 100; between 0 and 100 whenever correct ≤ total |
| Scoring.RecordOf | main.py:104-113 | the record of one descriptor for a sheet: the sheet's name, the descriptor, as correct the tally of the sheet's scored columns for it, as total students × the descriptor's number of questions, as percentage the `Percentage` of those two (0 for a zero total, else correct / total × 100), and as students the sheet's row count |
| Scoring.ComputePerformance | main.py:72-114 | the record loop over sheets and descriptors produces exactly the records of the specification: nothing for a sheet without students, else one record per descriptor in set order, sheets in workbook order |
| Scoring.CellMatches | main.py:97 | a match needs the cell's text to have the key's length; a missing cell, read as `""`, matches if and only if the key is empty (case-insensitive equality in full: `ScoringProperties.CellMatchesCaseInsensitive`) |
| Scoring.ScoredQuestion | main.py:87-92 | a column is scored if and only if its header yields an id that has a non-empty descriptor and a key entry, and it is then scored as that id, the header's `Q\d+` prefix (its effect on the tallies: `ScoringProperties.UnmappedColumnIgnored`, `ScoringProperties.ScoredColumnAddsToOwnDescriptor`) |
| ScoringProperties.MatchCountIsMatchingRows | main.py:97 | the match count equals the number of rows whose cell matches the key |
| ScoringProperties.CellMatchesCaseInsensitive | main.py:97 | a cell is correct if and only if its text equals the key up to letter case |
| ScoringProperties.MissingCellMatchesOnlyEmptyKey | main.py:97 | a missing cell is correct if and only if the key is empty, so never against a non-empty key |
| ScoringProperties.MatchExamples | main.py:97 | "d" and "D" match key D, "X" does not match B, a missing cell does not match D |
| ScoringProperties.UnmappedColumnIgnored | main.py:87-92 | a column without a question id, or whose id has no descriptor, the empty descriptor or no key entry, changes no descriptor's tally |
| ScoringProperties.ScoredColumnAddsToOwnDescriptor | main.py:92-98 | a scored column adds its match count to its own descriptor's tally and leaves every other tally unchanged |
| ScoringProperties.CorrectForAppend | main.py:84-98 | tallies of consecutive groups of columns add up |
| ScoringProperties.CorrectForOrderIndependent | main.py:84-98 | a tally does not depend on the order of the sheet's columns (any permutation gives the same tally) |
| ScoringProperties.CorrectForBounded | main.py:84-104 | when no two columns resolve to the same id, a descriptor's tally is at most students × the descriptor's number of questions |
| ScoringProperties.DuplicateColumnsCountTwice | main.py:84-98 | with columns "Q1" and "Q1.1" both answered correctly by the only student, the tally is 2 while students × questions is 1 |
| ScoringProperties.TwoStudentsExample | main.py:82-114 | key D, B on two questions of D1; answers D, B and d, X: the record is 3 correct out of 4, 75 percent, 2 students |
| ScoringProperties.RecordsForAt | main.py:103-114 | a sheet with students has one record per listed descriptor, and record j is that of the j-th descriptor |
| ScoringProperties.EmptySheetEmitsNothing | main.py:77-80 | a sheet without students emits no record |
| ScoringProperties.OneRecordPerDescriptor | main.py:103-114 | a sheet with students emits as many records as there are descriptors, with pairwise distinct descriptors, a descriptor occurring if and only if it is one of the map's, and each carrying the sheet's name and its number of students |
| ScoringProperties.RecordTotalPositive | main.py:104-105 | for a sheet with students every record's total is positive, so the zero rule is not reached |
| ScoringProperties.RecordBounded | main.py:97-105 | when no two columns share an id, a record's correct count is within its total and its percentage within 0 and 100 |
| ScoringProperties.PerformanceAppend | main.py:72-114 | the records of a workbook are those of its first sheets followed by those of the rest |
| Aggregation.OverallPercentage | main.py:155-157 | a group's percentage is undefined exactly when its possible count is 0; otherwise percentage × possible = correct × 100, and it lies between 0 and 100 when correct ≤ possible |
| Aggregation.ByDescriptor | main.py:151-154 | the descriptor of every record has a line (the lines are exactly those descriptors: `AggregationProperties.ByDescriptorDomain`; each holds the sums over the records carrying it: `AggregationProperties.WithDescriptorMembers`, `OverallViews.DescriptorView`) |
| Aggregation.BySheet | main.py:208-211 | the sheet of every record has a line (exactly those sheets: `AggregationProperties.BySheetDomain`; each holds the sums over that sheet's records: `AggregationProperties.FromSheetMembers`, `OverallViews.SheetView`) |
| AggregationProperties.ByDescriptorDomain | main.py:151-154 | the per-descriptor view has a line for a descriptor if and only if some record carries it |
| AggregationProperties.BySheetDomain | main.py:208-211 | the per-sheet view has a line for a sheet name if and only if some record carries it |
| AggregationProperties.SumAppend | main.py:151-154 | the summed counts of concatenated records are the sums of the parts |
| AggregationProperties.WithDescriptorMembers | main.py:151 | a record is in the group of a descriptor if and only if it is one of the records and carries that descriptor |
| AggregationProperties.FromSheetMembers | main.py:208 | a record is in the group of a sheet if and only if it is one of the records and carries that sheet's name |
| AggregationProperties.CombinedDescriptorTotals | main.py:151-154 | the totals of a descriptor over two groups of records (two sheets, say) are the sums of the two groups' correct and possible counts |
| AggregationProperties.SumBounded | main.py:151-154 | a group whose records each have correct ≤ total has summed correct ≤ summed possible |
| AggregationProperties.ViewsDefined | main.py:151-157 | when every record has a positive total, every line of both views has a defined percentage |
| AggregationProperties.ViewsSound | main.py:151-157 | when every record is sound, every line of both views has correct ≤ possible and a defined percentage between 0 and 100 |
| AggregationProperties.NotMeanOfPercentages | main.py:155-157 | records 1 of 1 and 0 of 3 give totals 1 of 4 and 25 percent, while the mean of their percentages is 50 |
| OverallViews.RecordsForSound | main.py:103-114 | the records of a sheet with students and no repeated question each have a positive total, correct ≤ total and a percentage between 0 and 100 |
| OverallViews.PerformanceSound | main.py:72-114 | every record of the transform is sound when no sheet repeats a question and every column is complete |
| OverallViews.TransformViewsSound | main.py:151-214 | on the transform's records, for any workbook, every line of both views has a defined percentage; when no sheet repeats a question id and every column is complete, every such percentage lies between 0 and 100 |
| OverallViews.PerformancePositive | main.py:103-114 | every record the transform emits, for any workbook, has a positive total |
| OverallViews.CountSumCountsQuestions | main.py:33-35 | the question counts of distinct descriptors add up to the number of questions mapped to them |
| OverallViews.CountSumIsMapSize | main.py:33-35 | the question counts of all descriptors add up to the number of questions in the map |
| OverallViews.SumOfRecordsFor | main.py:103-114 | a sheet's records sum to its correct answers over the listed descriptors, out of students × their question counts |
| OverallViews.SheetCorrectBounded | main.py:97-104 | with no repeated question, a sheet's correct answers are at most students × the question counts |
| OverallViews.FromSheetOfPerformance | main.py:208-211 | with distinct sheet names, the group of a sheet is exactly the records that sheet emitted |
| OverallViews.SheetView | main.py:208-214 | a sheet with students has a line in the per-sheet view (when the map is non-empty) whose totals are its correct answers out of students × the map's size, and the correct count is within that when no question is repeated |
| OverallViews.DescriptorTotalsOfPerformance | main.py:151-154 | the group of a descriptor sums to its correct answers over all sheets with students, out of all students × its question count |
| OverallViews.DescriptorView | main.py:151-157 | when the workbook has students, every descriptor of the map has a line in the per-descriptor view equal to those totals |

## Left out

- The Streamlit user interface is not modelled. This covers page layout, text, the file uploader, sidebar selection, checkboxes and `st.stop`. It is presentation only.
- Reading the workbook with `pd.read_excel` is not modelled, and neither is the catch-all exception handler (main.py:116-119). The workbook is a parameter.
- The warning for an empty sheet and the final "no data" check are not modelled. Only their effect is, namely that no records are emitted.
- The Altair charts, the heatmap, the `pivot_table` and the `.round(2)` display formatting are not modelled. They are rendering only.
- Scoring.Percentage: it is computed in exact real arithmetic, without the rounding of a float.
- Aggregation.OverallPercentage: it gives `None` where pandas would produce NaN or infinity, and is otherwise exact like `Scoring.Percentage`.
- The sort of the views by descriptor or sheet name is not modelled. `Aggregation.ByDescriptor` and `Aggregation.BySheet` are maps, so they carry no row order.
- `astype(str)` is not modelled: a cell's text is given directly. How pandas renders numbers and dates as text is outside the model.
- Column headers are given as text. The `str(col)` of main.py:87 is not modelled: a numeric or date header would first be rendered as text by Python.
- `Text.UpperChar` upper-cases ASCII letters only. Python's `str.upper` also maps other Unicode letters, and some of them to several characters.
- `Text.IsDigit` accepts the ASCII digits only. Python's `\d` on `str` also accepts other Unicode decimal digits.
- The iteration order of `set(question_descriptor_map.values())` is not fixed by Python. It is the parameter `order` of `Scoring.ComputePerformance`, any duplicate-free listing of the descriptors. The counting loop follows no particular order.
- OverallViews.TransformViewsSound: its bound of 0 to 100 on the views' percentages holds only under `CleanSheets` (distinct question ids and complete columns in every sheet); the percentages being defined holds for every workbook.
- `ScoringProperties.CorrectForBounded`, `ScoringProperties.RecordBounded` and `OverallViews.PerformanceSound` require distinct question ids per sheet. The code counts duplicate columns twice, which `ScoringProperties.DuplicateColumnsCountTwice` demonstrates.
- The warning branch at main.py:99-100 is not modelled, because it is unreachable. The loop visits only columns of the sheet.
- The descriptor description catalog (main.py:22-28) is not modelled. It is prose and takes no part in scoring.
- The concrete answer key and descriptor map (main.py:10-19) are not built in. The model takes any key and map.
