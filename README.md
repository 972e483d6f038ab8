# sabre-benchmarks, bench core, in Dafny

This project models the bookkeeping of the Sabre benchmark runner
(`edu.uky.cs.nil.sabre.bench`). The runner tries every planner on every
benchmark problem a fixed number of times and records the outcomes in
tables. The model covers:

- **Table** (`Tables.dfy`): a grid of typed cells with labelled columns and
  rows. Columns and rows are looked up by label (the first match wins) or by
  index. Every write is type-checked, as `Class.cast` does. The cell list is
  kept in row-major order (the `ORDER` comparator) after every change, and
  the rows can be sorted stably. The class keeps the source's mutable
  fields as `seq` fields: `columns`, `rows` and `cells`. A ghost grid
  `vals` holds the value of every (row, column) pair, and `Valid()` says
  that `cells` is exactly the row-major layout of that grid.
- **Statistic** (`Statistics.dfy`): the null-aware aggregates `COUNT`,
  `MIN_INTEGER`, `MAX_INTEGER`, `SUM_INTEGER`, `SUM_DECIMAL`, `AVERAGE` and
  `STANDARD_DEVIATION`. Each is a loop, proved against specification
  functions over the non-null elements. The file also models the four
  comparators, `compare`, and `toInteger(s)` / `toDecimal(s)`.
- **TestSuite** (`TestSuites.dfy`): the enumeration of tests as problem ×
  planner × run, and the two synchronized steps `getNext` and `complete`
  on the array of tests. `getNext` claims the first PENDING test. In the
  same scan it flushes, in array order, the COMPLETE tests that come before
  the first test that is neither COMPLETE nor LOGGED. The suite invariant
  is proved to be preserved by both steps:
  - the LOGGED tests are a prefix;
  - the PENDING tests are a suffix;
  - the report's log is exactly the LOGGED prefix, in order;
  - a result is stored exactly when a test is done;
  - the completed counter counts the done tests.
- **Report** (`Reports.dfy`): the six tables and their schemas; the one-shot
  `setStart` / `setEnd`; `addProblem`, `addPlanner` and `addResult`;
  `collect`, `min`, `max`, `compare`, `avg` and `std`; and `fillSummary`.
  `fillSummary` writes one summary row per (compiled problem, planner) in
  problem-major order. It also writes one best row per problem, which names
  the first planner with the strictly smallest average.
- **CSVTablePrinter.print** (`CsvPrinter.dfy`): the text written for a table.
  The header holds the quoted labels and each row follows on its own line.
  Fields are separated by commas, only String columns are quoted, and
  nothing is escaped. The output is therefore not RFC 4180 CSV: quotes are
  not doubled (section 2, rule 7) and lines end in LF, not CRLF (section 2,
  rule 1).
- **HTMLReportPrinter.toDuration** (`Durations.dfy`): the decomposition of
  milliseconds into days, hours, minutes, seconds and milliseconds, with
  Java's truncating division, and the text built from the positive units.

Java `double` is modelled as `real`. `Math.sqrt` and `Double.toString` are
function parameters (`sqrt`, `doubleText`), and the clock is a `now`
parameter. Java `int` and `long` are unbounded integers.

`Report.java`'s `fillSummary` writes the min, max, average and deviation
of nodes visited, nodes generated and time, and a best table.

## Model

| member | source | states |
|---|---|---|
| Tables.Table.constructor | src/edu/uky/cs/nil/sabre/bench/Table.java:289-296 | a new table has no columns, no rows and no cells, and satisfies the table invariant |
| Tables.Table.Size | src/edu/uky/cs/nil/sabre/bench/Table.java:320-322 | the number of cells is rows × columns, since every (row, column) pair has exactly one cell |
| Tables.LayoutLength | src/edu/uky/cs/nil/sabre/bench/Table.java:234-238 | a grid of \|rows\| rows, each `width` wide, lays out into exactly \|rows\|·width cells |
| Tables.LayoutBounds | src/edu/uky/cs/nil/sabre/bench/Table.java:234-238 | every cell of the layout refers to a column index below the table's width |
| Tables.LayoutConsistent | src/edu/uky/cs/nil/sabre/bench/Table.java:234-238 | a cell of the layout that belongs to a row holds that row's value in the cell's column |
| Tables.LayoutMembers | src/edu/uky/cs/nil/sabre/bench/Table.java:234-238 | every cell of the layout belongs to one of the table's rows |
| Tables.LayoutContains | src/edu/uky/cs/nil/sabre/bench/Table.java:234-238 | every (row, column) pair of the grid has its cell, with that value, in the layout |
| Tables.LayoutIndex | src/edu/uky/cs/nil/sabre/bench/Table.java:295-296 | in the row-major cell list, the cell of row r and column c sits at r·width + c and holds that row's value in that column |
| Tables.LayoutDistinct | src/edu/uky/cs/nil/sabre/bench/Table.java:234-238 | no cell appears twice in the cell list |
| Tables.LayoutMembership | src/edu/uky/cs/nil/sabre/bench/Table.java:234-238 | a cell is in the cell list if and only if it is the cell of some row of the grid, holding that row's value in its column |
| Tables.Table.AddColumn | src/edu/uky/cs/nil/sabre/bench/Table.java:145-152 | the new column goes last and gets the next index; every row gains exactly one null value at the end; rows and all existing values are unchanged; the cell list is again the row-major layout |
| Tables.AppendNullColumn | src/edu/uky/cs/nil/sabre/bench/Table.java:149-150 | the loop over the rows appends one null cell of the new column per row, in row order |
| Tables.BackfillColumn | src/edu/uky/cs/nil/sabre/bench/Table.java:148-151 | the old cell list plus the new column's cells holds, once each, exactly the cells of the widened grid, which is what the sort then orders |
| Tables.Table.AddRow | src/edu/uky/cs/nil/sabre/bench/Table.java:183-189 | the new row goes last, with the given label and an identity different from every existing row; it holds one null per column; columns and existing values are unchanged |
| Tables.AppendNullRow | src/edu/uky/cs/nil/sabre/bench/Table.java:186-187 | the loop over the columns appends one null cell of the new row per column, in column order |
| Tables.Table.SortCells | src/edu/uky/cs/nil/sabre/bench/Table.java:444-446 | sorting by ORDER a cell list that holds each cell of the grid once gives exactly the row-major layout; nothing else changes |
| Tables.SortedBagIsLayout | src/edu/uky/cs/nil/sabre/bench/Table.java:444-446 | any ORDER-sorted rearrangement of a duplicate-free list that holds exactly the grid's cells is the row-major layout |
| Tables.SortedUnique | src/edu/uky/cs/nil/sabre/bench/Table.java:444-446 | two lists that are strictly sorted by a comparator and have the same elements are equal |
| Tables.LayoutStrictlySorted | src/edu/uky/cs/nil/sabre/bench/Table.java:278-287 | the row-major layout is strictly increasing under ORDER |
| Tables.LayoutOrdered | src/edu/uky/cs/nil/sabre/bench/Table.java:278-287 | of two cells in the layout, the earlier one is in an earlier row, or in the same row and an earlier column |
| Tables.OrderComparator | src/edu/uky/cs/nil/sabre/bench/Table.java:278-287 | ORDER satisfies the Comparator contract (antisymmetric and transitive) |
| Tables.OrderZero | src/edu/uky/cs/nil/sabre/bench/Table.java:278-287 | ORDER ranks two cells of the table as equal only when they are the same cell |
| Tables.IndexOf | src/edu/uky/cs/nil/sabre/bench/Table.java:159-162 | `indexOf` gives -1 exactly when the element is absent; otherwise it gives the first position that holds the element |
| Tables.IndexOfDistinct | src/edu/uky/cs/nil/sabre/bench/Table.java:196-199 | a row's index is its position in the row group, since row identities are distinct |
| Tables.Table.Cells | src/edu/uky/cs/nil/sabre/bench/Table.java:383-389 | the result is the cells that satisfy the predicate, in cell-list order |
| Tables.FilterSound | src/edu/uky/cs/nil/sabre/bench/Table.java:383-389 | a cell is in the filtered list if and only if it is in the cell list and satisfies the predicate |
| Tables.FilterColumn | src/edu/uky/cs/nil/sabre/bench/Table.java:154-157 | iterating a column visits exactly that column's cells, one per row, in row order |
| Tables.FilterRow | src/edu/uky/cs/nil/sabre/bench/Table.java:191-194 | iterating a row visits exactly that row's cells, in column order |
| Tables.Table.Values | src/edu/uky/cs/nil/sabre/bench/Table.java:402-408 | succeeds if and only if every selected cell's value passes the cast; then it returns the selected values in cell-list order; otherwise it fails with ClassCastException |
| Tables.CastFiltered | src/edu/uky/cs/nil/sabre/bench/Table.java:404-407 | the loop of `values` stops at the first failing cast, and succeeds exactly when all selected cells conform |
| Tables.Cast | src/edu/uky/cs/nil/sabre/bench/Table.java:258-260 | `Class.cast` lets through exactly null and instances of the type, unchanged, and otherwise throws ClassCastException |
| Tables.At | src/edu/uky/cs/nil/sabre/bench/Table.java:108-110 | `Group.get(int)` gives the member at an index in range, and IndexOutOfBoundsException otherwise |
| Tables.FirstColumn | src/edu/uky/cs/nil/sabre/bench/Table.java:119-124 | the first column with the label; none exactly when no column has it |
| Tables.Table.ColumnNamed | src/edu/uky/cs/nil/sabre/bench/Table.java:119-124 | `columns.get(label)` gives the first column with the label, or IllegalArgumentException |
| Tables.FirstRow | src/edu/uky/cs/nil/sabre/bench/Table.java:165-170 | the first row with the label; none exactly when no row has it |
| Tables.Table.ColumnCell | src/edu/uky/cs/nil/sabre/bench/Table.java:165-170 | `Column.get(rowLabel)` gives the cell of the first row with the label, holding that row's value, or IllegalArgumentException when no row has the label |
| Tables.Table.RowCell | src/edu/uky/cs/nil/sabre/bench/Table.java:202-207 | `Row.get(columnLabel)` gives the cell of the first column with the label, or IllegalArgumentException when no column has the label |
| Tables.NthCell | src/edu/uky/cs/nil/sabre/bench/Table.java:53-59 | `Sequence.get(int)` gives the index-th cell of the sequence when the index is in range, and IndexOutOfBoundsException otherwise |
| Tables.Table.ColumnCellAt | src/edu/uky/cs/nil/sabre/bench/Table.java:53-59 | on a column, `get(index)` gives the cell of row `index`, or IndexOutOfBoundsException |
| Tables.Table.RowCellAt | src/edu/uky/cs/nil/sabre/bench/Table.java:53-59 | on a row, `get(index)` gives the cell of column `index`, or IndexOutOfBoundsException |
| Tables.Table.SetCell | src/edu/uky/cs/nil/sabre/bench/Table.java:269-271 | a conforming value replaces exactly the one addressed value of the grid; a non-conforming one throws ClassCastException and changes nothing |
| Tables.LayoutUpdate | src/edu/uky/cs/nil/sabre/bench/Table.java:269-271 | writing one value into the grid changes exactly one cell of the layout, the one at that row and column |
| Tables.Table.Get | src/edu/uky/cs/nil/sabre/bench/Table.java:356-358 | `get(rowLabel, columnLabel)` gives the cell of the first column and the first row with those labels, or IllegalArgumentException |
| Tables.Table.Set | src/edu/uky/cs/nil/sabre/bench/Table.java:370-374 | `set` writes the value into the addressed cell, or fails with the first error (missing column, then missing row, then ClassCastException) and changes nothing |
| Tables.SetThenGet | src/edu/uky/cs/nil/sabre/bench/Table.java:356-374 | after a successful set, a get at the same labels finds the new value |
| Tables.SetChangesOneCell | src/edu/uky/cs/nil/sabre/bench/Table.java:370-374 | a set changes no value other than the addressed one |
| Tables.SetTypeChecked | src/edu/uky/cs/nil/sabre/bench/Table.java:269-271 | null can be stored in any column; any other value is rejected exactly when its class is not the column's type |
| Tables.SetMissingLabel | src/edu/uky/cs/nil/sabre/bench/Table.java:356-374 | set fails for a missing label exactly when get does, which is exactly when the column label or the row label is absent |
| Tables.StableSort | src/edu/uky/cs/nil/sabre/bench/Table.java:416 | `List.sort` gives a permutation of its input that is sorted by the comparator, and equal elements keep their original order |
| Tables.Insert | src/edu/uky/cs/nil/sabre/bench/Table.java:416 | one insertion pass extends the sorted, stable prefix by one element and keeps the whole list a permutation of the input |
| Tables.Table.Sort | src/edu/uky/cs/nil/sabre/bench/Table.java:415-418 | the rows become a stable, sorted permutation of the old rows; each row keeps its values; columns are unchanged; the cell list is again the row-major layout |
| Tables.Table.Rearrange | src/edu/uky/cs/nil/sabre/bench/Table.java:415-418 | rows put in a permuted order keep their values, and the cells are re-sorted into the new row-major layout |
| Tables.PermutedGrid | src/edu/uky/cs/nil/sabre/bench/Table.java:415-418 | permuting the rows together with their values keeps the row identities distinct and keeps exactly the same set of cells |
| Tables.Table.SortBy | src/edu/uky/cs/nil/sabre/bench/Table.java:432-438 | with two or more rows: a missing column label throws IllegalArgumentException; a non-conforming cell in that column throws ClassCastException; otherwise the rows are stably permuted so that the column's values are in comparator order. With fewer than two rows nothing is compared and nothing fails; on failure nothing changes |
| Tables.Table.SortKeys | src/edu/uky/cs/nil/sabre/bench/Table.java:432-438 | every row's sort key is its value in the column, cast to the type; this fails with ClassCastException exactly when some value of the column does not conform |
| Tables.KeyCells | src/edu/uky/cs/nil/sabre/bench/Table.java:434-436 | the loop over the column's cells maps each row to its cast value, or fails exactly when a value does not conform |
| Tables.Table.SortByKeys | src/edu/uky/cs/nil/sabre/bench/Table.java:433-437 | sorting the rows by their keys leaves the column's values in comparator order, and rows with equal keys keep their old order |
| Tables.KeyedSorted | src/edu/uky/cs/nil/sabre/bench/Table.java:433-437 | rows sorted stably by key have their column values sorted, with ties in their original order |
| Statistics.ToInteger | src/edu/uky/cs/nil/sabre/bench/Statistic.java:175-180 | null stays null, and a number becomes its `longValue` |
| Statistics.LongValue | src/edu/uky/cs/nil/sabre/bench/Statistic.java:179 | `longValue` keeps an integral value and truncates a double toward zero |
| Statistics.ToDecimal | src/edu/uky/cs/nil/sabre/bench/Statistic.java:203-208 | null stays null, and a number becomes its `doubleValue` |
| Statistics.ToIntegers | src/edu/uky/cs/nil/sabre/bench/Statistic.java:189-194 | one entry per input, in place, with nulls in the same positions |
| Statistics.ToDecimals | src/edu/uky/cs/nil/sabre/bench/Statistic.java:217-222 | one entry per input, in place, with nulls in the same positions |
| Statistics.Count | src/edu/uky/cs/nil/sabre/bench/Statistic.java:18-28 | COUNT is the number of non-null elements |
| Statistics.CountBounds | src/edu/uky/cs/nil/sabre/bench/Statistic.java:18-28 | COUNT is at most the length, and equals it exactly when no element is null |
| Statistics.MinInteger | src/edu/uky/cs/nil/sabre/bench/Statistic.java:34-44 | MIN_INTEGER is null exactly when every element is null; otherwise it is one of the converted elements and is at most every one of them |
| Statistics.MaxInteger | src/edu/uky/cs/nil/sabre/bench/Statistic.java:50-60 | MAX_INTEGER is null exactly when every element is null; otherwise it is one of the converted elements and is at least every one of them |
| Statistics.AllNullIntegers | src/edu/uky/cs/nil/sabre/bench/Statistic.java:34-60 | with every element null, no long is left to compare, which is why MIN_INTEGER and MAX_INTEGER give null |
| Statistics.SumInteger | src/edu/uky/cs/nil/sabre/bench/Statistic.java:66-76 | SUM_INTEGER is the sum of the non-null elements as longs, so 0 for an empty or all-null input |
| Statistics.SumAppend | src/edu/uky/cs/nil/sabre/bench/Statistic.java:66-92 | one more value adds exactly itself to SUM_INTEGER and to SUM_DECIMAL |
| Statistics.SumDecimal | src/edu/uky/cs/nil/sabre/bench/Statistic.java:82-92 | SUM_DECIMAL is the sum of the non-null elements as doubles |
| Statistics.Average | src/edu/uky/cs/nil/sabre/bench/Statistic.java:98-107 | AVERAGE is null exactly when COUNT is 0; otherwise it is the sum of the non-null values divided by COUNT |
| Statistics.NullIgnored | src/edu/uky/cs/nil/sabre/bench/Statistic.java:98-107 | appending a null changes neither the non-null values nor the mean: nulls are skipped, not counted as zero |
| Statistics.MeanTimesCount | src/edu/uky/cs/nil/sabre/bench/Statistic.java:98-107 | the mean times COUNT is the sum of the non-null values |
| Statistics.AverageOfTwoFourNull | src/edu/uky/cs/nil/sabre/bench/Statistic.java:98-107 | the average of 2, 4 and null is 3 |
| Statistics.StandardDeviation | src/edu/uky/cs/nil/sabre/bench/Statistic.java:113-130 | STANDARD_DEVIATION is null exactly when AVERAGE is; otherwise it is the square root of the summed squared deviations divided by COUNT (the population form) |
| Statistics.SumSquaredDeviations | src/edu/uky/cs/nil/sabre/bench/Statistic.java:120-126 | the loop sums the squared distance from the average over the non-null values |
| Statistics.IntegerAscending | src/edu/uky/cs/nil/sabre/bench/Statistic.java:133-139 | negative, zero or positive exactly as the first long is smaller than, equal to or larger than the second |
| Statistics.IntegerDescending | src/edu/uky/cs/nil/sabre/bench/Statistic.java:142-148 | negative exactly when the first long is larger, and zero exactly when the two are equal |
| Statistics.DecimalAscending | src/edu/uky/cs/nil/sabre/bench/Statistic.java:151-157 | negative exactly when the first double is smaller, and zero exactly when the two are equal |
| Statistics.DecimalDescending | src/edu/uky/cs/nil/sabre/bench/Statistic.java:160-166 | negative exactly when the first double is larger, and zero exactly when the two are equal |
| Statistics.DescendingReversesAscending | src/edu/uky/cs/nil/sabre/bench/Statistic.java:133-166 | each descending comparator is the negated ascending one, which is the ascending one with its arguments swapped |
| Statistics.Compare | src/edu/uky/cs/nil/sabre/bench/Statistic.java:233-235 | `compare` is -1, 0 or 1 with the sign of the exact difference of the two numbers' values |
| Statistics.CompareIsTotalOrder | src/edu/uky/cs/nil/sabre/bench/Statistic.java:233-235 | `compare` is antisymmetric and transitive, and is zero exactly for equal values |
| TestSuites.GetResult | src/edu/uky/cs/nil/sabre/bench/TestSuite.java:96-100 | `getResult` throws IllegalStateException exactly when no result is stored; otherwise it gives the stored result |
| TestSuites.TestSuite.constructor | src/edu/uky/cs/nil/sabre/bench/TestSuite.java:172-180 | the tests are the enumeration of problem × planner × run, all PENDING with no result; the completed counter is 0 and the log is empty; the suite invariant holds |
| TestSuites.EnumerationLength | src/edu/uky/cs/nil/sabre/bench/TestSuite.java:173 | there are \|problems\|·\|planners\|·RUNS tests |
| TestSuites.EnumerationEntry | src/edu/uky/cs/nil/sabre/bench/TestSuite.java:174-178 | the test at (p·\|planners\| + l)·RUNS + r is run r + 1 of planner l on problem p |
| TestSuites.EnumerationPending | src/edu/uky/cs/nil/sabre/bench/TestSuite.java:55-58 | every new test is PENDING with no result |
| TestSuites.AllPendingInvariant | src/edu/uky/cs/nil/sabre/bench/TestSuite.java:172-180 | a suite whose tests are all PENDING, with an empty log and no completions, satisfies the suite invariant |
| TestSuites.FirstPending | src/edu/uky/cs/nil/sabre/bench/TestSuite.java:206-210 | the scan stops at the first PENDING test, or at the end when there is none |
| TestSuites.Claimed | src/edu/uky/cs/nil/sabre/bench/TestSuite.java:206-210 | `getNext` returns a PENDING test; it returns none exactly when no test is PENDING |
| TestSuites.Stop | src/edu/uky/cs/nil/sabre/bench/TestSuite.java:211-217 | `ordered` turns false at the first test that is neither COMPLETE nor LOGGED; every test before that point is done |
| TestSuites.Scan | src/edu/uky/cs/nil/sabre/bench/TestSuite.java:203-218 | the scan loop returns the first PENDING test; it logs, in array order, exactly the COMPLETE tests before the point where `ordered` turns false, marking them LOGGED, and changes no other test |
| TestSuites.TestSuite.GetNext | src/edu/uky/cs/nil/sabre/bench/TestSuite.java:202-225 | claims the first PENDING test and marks it RUNNING, and flushes the ordered COMPLETE tests to the log; the completed counter is unchanged; the suite invariant is kept |
| TestSuites.GetNextPreserves | src/edu/uky/cs/nil/sabre/bench/TestSuite.java:202-225 | `getNext` keeps the invariant: LOGGED is a prefix, PENDING is a suffix, the log is the LOGGED prefix in order, results are stored exactly for done tests, and the counter counts the done tests |
| TestSuites.AfterGetNextLogged | src/edu/uky/cs/nil/sabre/bench/TestSuite.java:211-217 | after `getNext`, a test is LOGGED exactly when it comes before the point where `ordered` turned false |
| TestSuites.AfterGetNextPending | src/edu/uky/cs/nil/sabre/bench/TestSuite.java:206-222 | after `getNext` the PENDING tests are still a suffix |
| TestSuites.AfterGetNextResults | src/edu/uky/cs/nil/sabre/bench/TestSuite.java:202-225 | `getNext` stores no result and changes which tests are done not at all |
| TestSuites.FlushedRun | src/edu/uky/cs/nil/sabre/bench/TestSuite.java:211-217 | the tests a `getNext` logs are exactly the consecutive indices from the end of the log up to the point where `ordered` turns false |
| TestSuites.GetNextMovesForward | src/edu/uky/cs/nil/sabre/bench/TestSuite.java:24-37 | `getNext` moves no status backwards along PENDING, RUNNING, COMPLETE, LOGGED; it changes no test's problem, planner, run or result; the claimed test becomes RUNNING, so it cannot be claimed again |
| TestSuites.FinalGetNextLogsAll | src/edu/uky/cs/nil/sabre/bench/TestSuite.java:206-218 | once every test is COMPLETE or LOGGED, one `getNext` returns none, logs every remaining test, and leaves the log holding every test in array order |
| TestSuites.TestSuite.Complete | src/edu/uky/cs/nil/sabre/bench/TestSuite.java:228-231 | `complete` stores the result of the RUNNING test, marks it COMPLETE and adds one to the counter; it changes no other test and not the log; the invariant is kept |
| TestSuites.CompletePreserves | src/edu/uky/cs/nil/sabre/bench/TestSuite.java:228-231 | completing a RUNNING test keeps the suite invariant, with the counter one higher |
| TestSuites.ResultOnceDone | src/edu/uky/cs/nil/sabre/bench/TestSuite.java:96-100 | under the invariant, a test's result can be read exactly when the test is COMPLETE or LOGGED |
| Reports.Report.constructor | src/edu/uky/cs/nil/sabre/bench/Report.java:377-423 | six distinct empty tables with their schemas; the compiled table has the problems table's columns in the same order; start and end are -1 |
| Reports.ProblemsNamesDistinct | src/edu/uky/cs/nil/sabre/bench/Report.java:378-387 | the problems table's column labels are pairwise distinct, so every `set` by label reaches its own column |
| Reports.PlannersNamesDistinct | src/edu/uky/cs/nil/sabre/bench/Report.java:390-393 | the planners table's column labels are pairwise distinct |
| Reports.ResultsNamesDistinct | src/edu/uky/cs/nil/sabre/bench/Report.java:394-401 | the results table's column labels are pairwise distinct |
| Reports.BestNamesDistinct | src/edu/uky/cs/nil/sabre/bench/Report.java:416-422 | the best table's column labels are pairwise distinct |
| Reports.NewProblemTable | src/edu/uky/cs/nil/sabre/bench/Report.java:378-387 | a new, empty problems table with the problems schema |
| Reports.NewPlannerTable | src/edu/uky/cs/nil/sabre/bench/Report.java:390-393 | a new, empty planners table with the planners schema |
| Reports.NewResultTable | src/edu/uky/cs/nil/sabre/bench/Report.java:394-401 | a new, empty results table with the results schema |
| Reports.NewSummaryTable | src/edu/uky/cs/nil/sabre/bench/Report.java:402-415 | a new, empty summary table with the summary schema |
| Reports.NewBestTable | src/edu/uky/cs/nil/sabre/bench/Report.java:416-422 | a new, empty best table with the best schema |
| Reports.SummaryNamesDistinct | src/edu/uky/cs/nil/sabre/bench/Report.java:402-415 | the summary table's column labels are pairwise distinct |
| Reports.Report.SetStart | src/edu/uky/cs/nil/sabre/bench/Report.java:449-454 | the first call records the clock; a later call throws IllegalStateException and keeps the first time |
| Reports.Report.SetEnd | src/edu/uky/cs/nil/sabre/bench/Report.java:471-478 | the first call records the clock and fills the summary and best tables; a later call throws IllegalStateException and leaves both tables unchanged |
| Reports.Report.AddProblem | src/edu/uky/cs/nil/sabre/bench/Report.java:486-503 | one new row in the problems table and one in the compiled table, labelled by the problem and holding its name, sizes, goal and limits |
| Reports.ProblemValuesConform | src/edu/uky/cs/nil/sabre/bench/Report.java:491-502 | every value `addProblem` writes has its column's type |
| Reports.Report.AddPlanner | src/edu/uky/cs/nil/sabre/bench/Report.java:511-517 | one new row in the planners table, holding the planner's name and descriptors |
| Reports.Report.AddResult | src/edu/uky/cs/nil/sabre/bench/Report.java:529-540 | exactly one new results row; the plan-length cell holds the solution length when the search succeeded and stays null otherwise |
| Reports.ResultValuesConform | src/edu/uky/cs/nil/sabre/bench/Report.java:530-539 | every value `addResult` writes has its column's type |
| Reports.AddLabelledRow | src/edu/uky/cs/nil/sabre/bench/Report.java:491-502 | `addRow` followed by one `set` per column appends one row labelled by the key and holding exactly the given values |
| Reports.WriteRow | src/edu/uky/cs/nil/sabre/bench/Report.java:493-502 | one `set` per column, addressed by the row's label, leaves exactly the given values in the last row and changes no other row |
| Reports.Collect | src/edu/uky/cs/nil/sabre/bench/Report.java:637-643 | `collect` gives, in results-table row order, the metric of exactly the rows whose problem and planner names match and whose result succeeded |
| Reports.IsTaken | src/edu/uky/cs/nil/sabre/bench/Report.java:640 | the test `collect` applies to one row |
| Reports.Least | src/edu/uky/cs/nil/sabre/bench/Report.java:651-657 | null exactly for no values; otherwise the smallest value, and no earlier value equals it (the first of any ties) |
| Reports.Min | src/edu/uky/cs/nil/sabre/bench/Report.java:651-657 | the loop of `min` computes the first smallest value, or null for an empty list |
| Reports.Greatest | src/edu/uky/cs/nil/sabre/bench/Report.java:665-671 | null exactly for no values; otherwise the largest value, and no earlier value equals it |
| Reports.Max | src/edu/uky/cs/nil/sabre/bench/Report.java:665-671 | the loop of `max` computes the first largest value, or null for an empty list |
| Reports.Compare | src/edu/uky/cs/nil/sabre/bench/Report.java:682-684 | `compare` has the sign of the exact difference |
| Reports.Average | src/edu/uky/cs/nil/sabre/bench/Report.java:692-702 | the average is null exactly for an empty list |
| Reports.Avg | src/edu/uky/cs/nil/sabre/bench/Report.java:692-702 | the loop of `avg` computes the total over the count, or null for an empty list |
| Reports.AverageBetween | src/edu/uky/cs/nil/sabre/bench/Report.java:651-702 | for a non-empty list, min ≤ avg ≤ max |
| Reports.MeanBetween | src/edu/uky/cs/nil/sabre/bench/Report.java:692-702 | the mean of values that lie between two bounds lies between them too |
| Reports.Deviation | src/edu/uky/cs/nil/sabre/bench/Report.java:710-722 | the deviation is null exactly when the average is |
| Reports.Std | src/edu/uky/cs/nil/sabre/bench/Report.java:710-722 | the loop of `std` computes the square root of the mean squared distance from the average, or null for an empty list |
| Reports.EqualValuesNoDeviation | src/edu/uky/cs/nil/sabre/bench/Report.java:710-722 | equal values have that value as their average and sqrt(0) as their deviation |
| Reports.TwoRunsSummary | src/edu/uky/cs/nil/sabre/bench/Report.java:651-722 | for the values 100 and 200: min 100, max 200, average 150, deviation sqrt(2500) |
| Reports.Best | src/edu/uky/cs/nil/sabre/bench/Report.java:580-583 | none exactly when no planner has an average; otherwise a planner whose average is the smallest, and every earlier planner with an average has a strictly larger one (the first of any ties) |
| Reports.BestSnoc | src/edu/uky/cs/nil/sabre/bench/Report.java:580-583 | the best of one more planner is the old best, replaced only when the new average is non-null and strictly smaller |
| Reports.MetricCells | src/edu/uky/cs/nil/sabre/bench/Report.java:584-587 | the min, max, avg and std cells of one metric |
| Reports.AddSummaryRow | src/edu/uky/cs/nil/sabre/bench/Report.java:574-607 | one summary row for the pair, holding the names and the min, max, avg and std of each metric over the collected values; the three averages are returned for the best-so-far updates |
| Reports.SummarizeProblem | src/edu/uky/cs/nil/sabre/bench/Report.java:572-608 | one summary row per planner, in planner order; the best-so-far variables end as the best planner of each metric |
| Reports.AddBestRow | src/edu/uky/cs/nil/sabre/bench/Report.java:609-622 | one best row for the problem; a metric's planner and average cells are set when a best planner exists and stay null otherwise |
| Reports.AddProblemSummary | src/edu/uky/cs/nil/sabre/bench/Report.java:565-622 | one pass of the outer loop adds a problem's summary rows and its best row |
| Reports.Summarize | src/edu/uky/cs/nil/sabre/bench/Report.java:564-623 | the summary rows are labelled problem-major, then by planner (\|compiled rows\|·\|planner rows\| of them), and hold the summary values; there is exactly one best row per compiled problem, in the same order |
| Reports.PlannerKeysAt | src/edu/uky/cs/nil/sabre/bench/Report.java:572-575 | a problem's summary keys number one per planner, and key j is the pair of the problem and planner j |
| Reports.PlannerRowsAt | src/edu/uky/cs/nil/sabre/bench/Report.java:572-608 | a problem's summary rows number one per planner, and row j holds the summary values of the problem and planner j |
| Reports.SummaryKeysLength | src/edu/uky/cs/nil/sabre/bench/Report.java:564-575 | there are exactly \|problems\|·\|planners\| summary keys |
| Reports.SummaryGridLength | src/edu/uky/cs/nil/sabre/bench/Report.java:564-608 | there are exactly \|problems\|·\|planners\| summary rows |
| Reports.SummaryKeyEntry | src/edu/uky/cs/nil/sabre/bench/Report.java:564-575 | the summary key at i·\|planners\| + j is the pair of problem i and planner j |
| Reports.SummaryRowEntry | src/edu/uky/cs/nil/sabre/bench/Report.java:564-608 | the summary row at i·\|planners\| + j holds the summary values of problem i and planner j |
| Reports.BestGridLength | src/edu/uky/cs/nil/sabre/bench/Report.java:564-622 | there is exactly one best row per problem |
| Reports.BestEntry | src/edu/uky/cs/nil/sabre/bench/Report.java:609-622 | best row i is the best row of problem i |
| Reports.CollectedMembers | src/edu/uky/cs/nil/sabre/bench/Report.java:637-643 | a number is collected exactly when some results row of the problem and planner records a success with that number as the metric |
| Reports.Report.FillSummary | src/edu/uky/cs/nil/sabre/bench/Report.java:563-624 | `fillSummary` fills the summary and best tables as the summary specification says, and changes nothing else |
| Reports.SummaryValuesConform | src/edu/uky/cs/nil/sabre/bench/Report.java:576-607 | every value of a summary row has its column's type |
| CsvPrinter.CsvTablePrinter.Print | src/edu/uky/cs/nil/sabre/bench/CSVTablePrinter.java:47-61 | `print(Table)` appends the table's CSV text to what was written before |
| CsvPrinter.CsvTablePrinter.constructor | src/edu/uky/cs/nil/sabre/bench/CSVTablePrinter.java:24-26 | a printer starts with nothing written to its writer |
| CsvPrinter.TableText | src/edu/uky/cs/nil/sabre/bench/CSVTablePrinter.java:47-61 | the characters the loops write are the header, then a line feed and a line per row |
| CsvPrinter.HeaderText | src/edu/uky/cs/nil/sabre/bench/CSVTablePrinter.java:48-52 | the header is the quoted labels in column order, with a comma before every one but the first |
| CsvPrinter.RowLine | src/edu/uky/cs/nil/sabre/bench/CSVTablePrinter.java:55-59 | a row's line is its cells' fields in column order, with a comma before every one but the first |
| CsvPrinter.PrintedSnoc | src/edu/uky/cs/nil/sabre/bench/CSVTablePrinter.java:53-59 | each row adds exactly one line feed followed by its line |
| CsvPrinter.CsvLines | src/edu/uky/cs/nil/sabre/bench/CSVTablePrinter.java:53-55 | with no line feed in a label or value, the text splits at line feeds into the header and one line per row, i.e. rows + 1 lines with no trailing newline |
| CsvPrinter.CsvFields | src/edu/uky/cs/nil/sabre/bench/CSVTablePrinter.java:49-58 | with no comma in a label or value, every line has exactly columns − 1 commas and splits back into its fields in column order |
| CsvPrinter.CountJoined | src/edu/uky/cs/nil/sabre/bench/CSVTablePrinter.java:49-50 | joining n comma-free parts writes exactly n − 1 commas |
| CsvPrinter.SplitJoined | src/edu/uky/cs/nil/sabre/bench/CSVTablePrinter.java:56-58 | splitting at the separator recovers the parts when none contains it |
| CsvPrinter.NullCells | src/edu/uky/cs/nil/sabre/bench/CSVTablePrinter.java:63-73 | a null cell of a String column prints as `"null"`; a null cell of any other column prints nothing |
| CsvPrinter.QuotedIffString | src/edu/uky/cs/nil/sabre/bench/CSVTablePrinter.java:63-68 | a cell's field starts with a quote exactly when its column is a String column |
| CsvPrinter.NotEscaped | src/edu/uky/cs/nil/sabre/bench/CSVTablePrinter.java:51 | a label is written verbatim, so a comma inside it splits the header into more fields than columns |
| Durations.Decompose | src/edu/uky/cs/nil/sabre/bench/HTMLReportPrinter.java:121-128 | the decomposition into units, each the truncated quotient of what the larger units left; its meaning is stated by DecomposeReconstructs |
| Durations.TruncDiv | src/edu/uky/cs/nil/sabre/bench/HTMLReportPrinter.java:121-127 | the `TimeUnit` conversions divide truncating toward zero: the remainder has the sign of the dividend and is smaller than the divisor |
| Durations.Subtract | src/edu/uky/cs/nil/sabre/bench/HTMLReportPrinter.java:121-128 | the statement-by-statement subtraction computes the decomposition |
| Durations.DecomposeReconstructs | src/edu/uky/cs/nil/sabre/bench/HTMLReportPrinter.java:121-128 | days·86400000 + hours·3600000 + minutes·60000 + seconds·1000 + ms is the input; for a non-negative input hours < 24, minutes < 60, seconds < 60 and ms < 1000; for a non-positive input no unit is positive |
| Durations.Append | src/edu/uky/cs/nil/sabre/bench/HTMLReportPrinter.java:129-139 | the string accumulated is the days part, if any, and then " N unit" for every later positive unit, largest first |
| Durations.LeadingThenSpaced | src/edu/uky/cs/nil/sabre/bench/HTMLReportPrinter.java:129-139 | the accumulated string is empty exactly when no unit is positive, and otherwise is the parts (or a space before them when days is 0) |
| Durations.ToDuration | src/edu/uky/cs/nil/sabre/bench/HTMLReportPrinter.java:120-143 | `toDuration` returns "0 milliseconds" when no unit is positive, and otherwise the positive units largest first, separated by single spaces |
| Durations.TrimSpaced | src/edu/uky/cs/nil/sabre/bench/HTMLReportPrinter.java:142 | `trim` removes exactly the one leading space when days is 0 |
| Durations.ZeroDurationIffNotPositive | src/edu/uky/cs/nil/sabre/bench/HTMLReportPrinter.java:140-141 | the text is "0 milliseconds" exactly when the input is not positive |
| Durations.RenderTrimmed | src/edu/uky/cs/nil/sabre/bench/HTMLReportPrinter.java:129-142 | the text is never empty and never starts or ends with a space |
| Durations.EveryUnitOnce | src/edu/uky/cs/nil/sabre/bench/HTMLReportPrinter.java:121-128 | 90061001 ms is exactly one of each unit |
| Durations.OneHour | src/edu/uky/cs/nil/sabre/bench/HTMLReportPrinter.java:129-142 | an exact hour renders as "1 hours": the unit word is always plural |

## Left out

- Threads: `Runner`, `run(Status)`, `waitToFinish`, the `Status` updates and every `System.out` print are left out. `getNext` and `complete` are modelled as atomic steps, which is what `synchronized` gives them.
- Running a search (`Test.getSearch` and the planner call) is outside the model. A test's result is an opaque value, and a report result carries only a success flag, a plan length and three counts.
- `TestSuite.java:212` calls a one-argument `report.addResult(test)` that `Report` does not declare. The flush is modelled as appending the test's index to the suite's `log`.
- `TestSuite.java:192` uses `Main.THREADS`, which `Main` does not declare. The thread pool is left out and `RUNS` is the constant 10 of `Main.java:50`.
- Floating point: doubles are exact reals. `Math.sqrt` and `Double.toString` are parameters, so rounding, NaN and infinities are not modelled.
- Integer width: Java `int` and `long` are unbounded. The overflow of `SUM_INTEGER` and `count++` is not modelled.
- The clock: `System.currentTimeMillis` is the `now` parameter of `SetStart` and `SetEnd`.
- Values: table cells hold one of the five classes the tables use (String, Integer, Long, Double, Boolean) or null, and `Class.cast` is modelled for those alone.
- Object identity: a row's identity is its `id`, and a lookup returns a cell's value instead of a reference to a shared `Cell` object. Changing a cell through a reference kept from an earlier `get` is therefore not modelled.
- Tables.Table.Sort: requires the comparator to satisfy the `Comparator` contract on the rows, which `List.sort` demands. The source may throw IllegalArgumentException for a comparator that breaks the contract, and that case is not modelled.
- Tables.Table.SortBy: checks every cell of the column before sorting. The source casts cells during the comparisons, so a failing cast may leave the rows partly reordered. The model leaves them unchanged.
- Tables.StableSort: an insertion sort stands in for the library's `List.sort` (TimSort). Only the library's promise is modelled: a stable, sorted permutation.
- Reports.Report.AddProblem: requires labels that no earlier row has, and so do Reports.Report.AddPlanner and Reports.Report.AddResult. With a repeated label the source adds a row but writes into the earlier row with that label, and that case is not modelled.
- Reports.Report.AddProblem: reads a problem's sizes from a plain record. The source reads them through `Problem.universe`, `fluents`, `actions` and `triggers`, which are not part of this model.
- Reports.Collect: requires the results-table invariant, under which the problem and planner cells are never null. The source would throw NullPointerException on a null cell.
- Reports.Report.FillSummary: only the final contents of the summary and best tables are stated, not the order in which the cells are written.
- Reports.Std: the deviation is stated as `sqrt` of the mean squared distance. The value 50 for the two-run example depends on `sqrt(2500) = 50`, which is not modelled.
- TestSuites.TestSuite.Complete: requires the test to be RUNNING. The source's only caller is a runner completing the test it just claimed.
- `Report.toString`, `Table.toString` and the other printers (`TextReportPrinter`, the rest of `HTMLReportPrinter`, `CSVReportPrinter`) are printer plumbing and are left out. So are `Main`, `Benchmark`, `VerifyHeuristic`, `VerificationHeuristic` and `Settings`, which hold configuration, I/O and external planner code.
- The writer's `IOException` and `close` in `CSVTablePrinter` are not modelled. The printer's output is a `string` field.
