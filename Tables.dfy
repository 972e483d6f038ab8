/** Table: a grid of typed cells organised into labelled columns and
    labelled rows. The table keeps one cell per (row, column) pair in a flat
    list ordered by row and then by column; rows can be reordered by a
    comparator, columns only ever grow at the end. */
module Tables {
  import opened Wrappers
  import opened Values
  import Sequences

  /** A column: its label (`name`) and the type every non-null value in it has. */
  datatype Column = Column(name: string, valueType: ValueType)

  /** A row: `id` stands for the Java object's identity (two rows with equal
      labels are still different rows), `name` for its label. */
  datatype Row<R> = Row(id: nat, name: R)

  /** A cell: the index of its column (columns never move), its row and its
      value. The pair (row, column) identifies the cell. */
  datatype Cell<R> = Cell(column: nat, row: Row<R>, value: Value)

  /** The exceptions the table throws: IllegalArgumentException for a
      missing label, IndexOutOfBoundsException, ClassCastException. */
  datatype Failure = NoSuchLabel | IndexOutOfBounds | ClassCast

  // ---------------------------------------------------------------------
  // The row-major layout of the cell list

  /** The cells of one row, in column order. */
  function RowCells<R>(row: Row<R>, vs: seq<Value>): seq<Cell<R>> {
    seq(|vs|, c requires 0 <= c < |vs| => Cell(c, row, vs[c]))
  }

  /** The cell list of a table whose rows are `rows` (in order) and whose
      row r holds the values vals[r]: row by row, each row in column order. */
  function Layout<R>(rows: seq<Row<R>>, vals: seq<seq<Value>>): seq<Cell<R>>
    requires |rows| == |vals|
  {
    if rows == [] then []
    else
      Layout(rows[..|rows| - 1], vals[..|vals| - 1])
      + RowCells(rows[|rows| - 1], vals[|vals| - 1])
  }

  /** The layout of the rows is the layout of all but the last, then the
      last row's cells. */
  lemma LayoutSnoc<R>(rows: seq<Row<R>>, vals: seq<seq<Value>>)
    requires |rows| == |vals| && rows != []
    ensures Layout(rows, vals) == Layout(rows[..|rows| - 1], vals[..|rows| - 1]) + RowCells(rows[|rows| - 1], vals[|rows| - 1])
  {
  }

  predicate Rectangular(vals: seq<seq<Value>>, width: nat) {
    forall r :: 0 <= r < |vals| ==> |vals[r]| == width
  }

  predicate DistinctIds<R>(rows: seq<Row<R>>) {
    forall i, j :: 0 <= i < j < |rows| ==> rows[i].id != rows[j].id
  }

  /** The elements of s that satisfy p, in order. */
  function Filter<T>(s: seq<T>, p: T -> bool): seq<T> {
    if s == [] then []
    else Filter(s[..|s| - 1], p) + (if p(s[|s| - 1]) then [s[|s| - 1]] else [])
  }

  lemma MulFacts(a: int, b: int, c: int)
    ensures (a + b) * c == a * c + b * c
  {
  }

  /** One cell per (row, column) pair: |rows|·width cells. */
  lemma {:induction false} LayoutLength<R>(rows: seq<Row<R>>, vals: seq<seq<Value>>, width: nat)
    requires |rows| == |vals| && Rectangular(vals, width)
    ensures |Layout(rows, vals)| == |rows| * width
  {
    if rows != [] {
      LayoutLength(rows[..|rows| - 1], vals[..|vals| - 1], width);
      MulFacts(|rows| - 1, 1, width);
    }
  }

  /** Every cell of the layout belongs to one of the columns. */
  lemma {:induction false} LayoutBounds<R>(rows: seq<Row<R>>, vals: seq<seq<Value>>, width: nat)
    requires |rows| == |vals| && Rectangular(vals, width)
    ensures forall k :: 0 <= k < |Layout(rows, vals)| ==> Layout(rows, vals)[k].column < width
  {
    if rows != [] {
      var n := |rows| - 1;
      LayoutBounds(rows[..n], vals[..n], width);
      var l := Layout(rows, vals);
      var front := Layout(rows[..n], vals[..n]);
      forall k | 0 <= k < |l|
        ensures l[k].column < width
      {
        if k < |front| {
          assert l[k] == front[k];
        }
      }
    }
  }

  /** A cell's value is the value its row holds in its column. */
  lemma {:induction false} LayoutConsistent<R>(rows: seq<Row<R>>, vals: seq<seq<Value>>)
    requires |rows| == |vals| && DistinctIds(rows)
    ensures forall k, r :: 0 <= k < |Layout(rows, vals)| && 0 <= r < |rows| && Layout(rows, vals)[k].row == rows[r] ==>
      Layout(rows, vals)[k].column < |vals[r]| && Layout(rows, vals)[k].value == vals[r][Layout(rows, vals)[k].column]
  {
    if rows != [] {
      var n := |rows| - 1;
      var init := rows[..n];
      LayoutConsistent(init, vals[..n]);
      LayoutMembers(init, vals[..n]);
      var l := Layout(rows, vals);
      var front := Layout(init, vals[..n]);
      forall k, r | 0 <= k < |l| && 0 <= r < |rows| && l[k].row == rows[r]
        ensures l[k].column < |vals[r]| && l[k].value == vals[r][l[k].column]
      {
        if k < |front| {
          assert l[k] == front[k];
          var r' :| 0 <= r' < n && init[r'] == front[k].row;
          assert r' == r;
        } else {
          assert l[k] == RowCells(rows[n], vals[n])[k - |front|];
          assert r == n;
        }
      }
    }
  }

  /** Every cell of the layout is the cell of some row. */
  lemma {:induction false} LayoutMembers<R>(rows: seq<Row<R>>, vals: seq<seq<Value>>)
    requires |rows| == |vals|
    ensures forall k :: 0 <= k < |Layout(rows, vals)| ==> Layout(rows, vals)[k].row in rows
  {
    if rows != [] {
      var n := |rows| - 1;
      LayoutMembers(rows[..n], vals[..n]);
      var l := Layout(rows, vals);
      var front := Layout(rows[..n], vals[..n]);
      forall k | 0 <= k < |l|
        ensures l[k].row in rows
      {
        if k < |front| {
          assert l[k] == front[k];
          assert front[k].row in rows[..n];
        }
      }
    }
  }

  /** The cell of every (row, column) pair is in the layout. */
  lemma {:induction false} LayoutContains<R>(rows: seq<Row<R>>, vals: seq<seq<Value>>)
    requires |rows| == |vals|
    ensures forall r, c :: 0 <= r < |rows| && 0 <= c < |vals[r]| ==>
      Cell(c, rows[r], vals[r][c]) in Layout(rows, vals)
  {
    if rows != [] {
      var n := |rows| - 1;
      LayoutContains(rows[..n], vals[..n]);
      var l := Layout(rows, vals);
      var front := Layout(rows[..n], vals[..n]);
      var block := RowCells(rows[n], vals[n]);
      forall r, c | 0 <= r < |rows| && 0 <= c < |vals[r]|
        ensures Cell(c, rows[r], vals[r][c]) in l
      {
        if r < n {
          assert Cell(c, rows[..n][r], vals[..n][r][c]) in front;
        } else {
          assert block[c] == Cell(c, rows[r], vals[r][c]);
          assert l[|front| + c] == block[c];
        }
      }
    }
  }

  /** The cells of l come by row position in rows, then by column. */
  ghost predicate RowMajor<R>(rows: seq<Row<R>>, l: seq<Cell<R>>) {
    forall k1, k2, r1, r2 ::
      0 <= k1 < k2 < |l| && 0 <= r1 < |rows| && 0 <= r2 < |rows| && l[k1].row == rows[r1] && l[k2].row == rows[r2] ==>
      r1 < r2 || (r1 == r2 && l[k1].column < l[k2].column)
  }

  /** The cell list is strictly increasing under ORDER: by row position,
      then by column. */
  lemma {:induction false} LayoutOrdered<R>(rows: seq<Row<R>>, vals: seq<seq<Value>>)
    requires |rows| == |vals| && DistinctIds(rows)
    ensures RowMajor(rows, Layout(rows, vals))
    decreases |rows|, 1
  {
    var l := Layout(rows, vals);
    forall k1, k2, r1, r2 | 0 <= k1 < k2 < |l| && 0 <= r1 < |rows| && 0 <= r2 < |rows|
      && l[k1].row == rows[r1] && l[k2].row == rows[r2]
      ensures r1 < r2 || (r1 == r2 && l[k1].column < l[k2].column)
    {
      LayoutOrderedPair(rows, vals, k1, k2, r1, r2);
    }
  }

  /** The step of LayoutOrdered: two cells of the layout, each in the
      earlier rows or in the last row's block. */
  lemma LayoutOrderedPair<R>(rows: seq<Row<R>>, vals: seq<seq<Value>>, k1: nat, k2: nat, r1: nat, r2: nat)
    requires |rows| == |vals| && DistinctIds(rows)
    requires k1 < k2 < |Layout(rows, vals)| && r1 < |rows| && r2 < |rows|
    requires Layout(rows, vals)[k1].row == rows[r1] && Layout(rows, vals)[k2].row == rows[r2]
    ensures r1 < r2 || (r1 == r2 && Layout(rows, vals)[k1].column < Layout(rows, vals)[k2].column)
    decreases |rows|, 0
  {
    var n := |rows| - 1;
    var front := Layout(rows[..n], vals[..n]);
    if k2 < |front| {
      LayoutOrdered(rows[..n], vals[..n]);
      LayoutFront(rows, vals, k1, r1);
      LayoutFront(rows, vals, k2, r2);
    } else if k1 < |front| {
      LayoutFront(rows, vals, k1, r1);
      LayoutBlock(rows, vals, k2, r2);
    } else {
      LayoutBlock(rows, vals, k1, r1);
      LayoutBlock(rows, vals, k2, r2);
    }
  }

  /** A cell of the layout before the last row's block is the same cell in
      the layout of the rows before the last, and its row comes before it. */
  lemma LayoutFront<R>(rows: seq<Row<R>>, vals: seq<seq<Value>>, k: nat, r: nat)
    requires |rows| == |vals| && DistinctIds(rows) && r < |rows|
    requires k < |Layout(rows[..|rows| - 1], vals[..|rows| - 1])|
    requires Layout(rows, vals)[k].row == rows[r]
    ensures Layout(rows, vals)[k] == Layout(rows[..|rows| - 1], vals[..|rows| - 1])[k]
    ensures r < |rows| - 1 && Layout(rows, vals)[k].row == rows[..|rows| - 1][r]
  {
    var n := |rows| - 1;
    var front := Layout(rows[..n], vals[..n]);
    LayoutMembers(rows[..n], vals[..n]);
    assert Layout(rows, vals)[k] == front[k];
    var a :| 0 <= a < n && rows[..n][a] == front[k].row;
    assert a == r;
  }

  /** A cell of the last row's block belongs to the last row, at the column
      of its offset in the block. */
  lemma LayoutBlock<R>(rows: seq<Row<R>>, vals: seq<seq<Value>>, k: nat, r: nat)
    requires |rows| == |vals| && DistinctIds(rows) && r < |rows|
    requires |Layout(rows[..|rows| - 1], vals[..|rows| - 1])| <= k < |Layout(rows, vals)|
    requires Layout(rows, vals)[k].row == rows[r]
    ensures r == |rows| - 1
    ensures Layout(rows, vals)[k].column == k - |Layout(rows[..|rows| - 1], vals[..|rows| - 1])|
  {
    var n := |rows| - 1;
    var front := Layout(rows[..n], vals[..n]);
    assert Layout(rows, vals)[k] == RowCells(rows[n], vals[n])[k - |front|];
  }

  // ---------------------------------------------------------------------
  // Filtering the cell list (Table.cells(predicate), and so the iteration
  // of a column or a row)

  lemma {:induction false} FilterAppend<T>(a: seq<T>, b: seq<T>, p: T -> bool)
    ensures Filter(a + b, p) == Filter(a, p) + Filter(b, p)
    decreases |b|
  {
    if b != [] {
      var n := |b| - 1;
      assert (a + b)[..|a + b| - 1] == a + b[..n];
      FilterAppend(a, b[..n], p);
    } else {
      assert a + b == a;
    }
  }

  lemma {:induction false} FilterNone<T>(s: seq<T>, p: T -> bool)
    requires forall i :: 0 <= i < |s| ==> !p(s[i])
    ensures Filter(s, p) == []
  {
    if s != [] {
      FilterNone(s[..|s| - 1], p);
    }
  }

  lemma {:induction false} FilterAll<T>(s: seq<T>, p: T -> bool)
    requires forall i :: 0 <= i < |s| ==> p(s[i])
    ensures Filter(s, p) == s
  {
    if s != [] {
      FilterAll(s[..|s| - 1], p);
    }
  }

  /** A row's cells hold exactly one cell of column ci. */
  lemma {:induction false} FilterRowCells<R>(row: Row<R>, vs: seq<Value>, ci: nat, p: Cell<R> -> bool)
    requires ci < |vs|
    requires forall x :: p(x) == (x.column == ci)
    ensures Filter(RowCells(row, vs), p) == [Cell(ci, row, vs[ci])]
  {
    var cs := RowCells(row, vs);
    assert cs == cs[..ci] + [cs[ci]] + cs[ci + 1..];
    FilterNone(cs[..ci], p);
    FilterNone(cs[ci + 1..], p);
    FilterAppend(cs[..ci], [cs[ci]], p);
    FilterAppend(cs[..ci] + [cs[ci]], cs[ci + 1..], p);
    assert Filter([cs[ci]], p) == Filter([], p) + [cs[ci]];
  }

  /** The cells of column ci, one per row in row order. */
  function ColumnCells<R>(rows: seq<Row<R>>, vals: seq<seq<Value>>, ci: nat): seq<Cell<R>>
    requires |rows| == |vals|
    requires forall r :: 0 <= r < |vals| ==> ci < |vals[r]|
  {
    seq(|rows|, r requires 0 <= r < |rows| => Cell(ci, rows[r], vals[r][ci]))
  }

  /** Iterating a column visits its cells in row order: Column.iterator
      filters the cell list on the column. */
  lemma {:induction false} FilterColumn<R>(rows: seq<Row<R>>, vals: seq<seq<Value>>, width: nat, ci: nat, p: Cell<R> -> bool)
    requires |rows| == |vals| && Rectangular(vals, width) && ci < width
    requires forall x :: p(x) == (x.column == ci)
    ensures Filter(Layout(rows, vals), p) == ColumnCells(rows, vals, ci)
  {
    if rows != [] {
      var n := |rows| - 1;
      FilterColumn(rows[..n], vals[..n], width, ci, p);
      FilterAppend(Layout(rows[..n], vals[..n]), RowCells(rows[n], vals[n]), p);
      FilterRowCells(rows[n], vals[n], ci, p);
      assert ColumnCells(rows, vals, ci) == ColumnCells(rows[..n], vals[..n], ci) + [Cell(ci, rows[n], vals[n][ci])];
    }
  }

  /** Iterating a row visits its cells in column order: Row.iterator
      filters the cell list on the row. */
  lemma FilterRow<R>(rows: seq<Row<R>>, vals: seq<seq<Value>>, r: nat, p: Cell<R> -> bool)
    requires |rows| == |vals| && DistinctIds(rows) && r < |rows|
    requires forall x :: p(x) == (x.row == rows[r])
    ensures Filter(Layout(rows, vals), p) == RowCells(rows[r], vals[r])
  {
    FilterRowAt(rows, vals, r, rows[r], p);
  }

  /** FilterRow, with the row filtered on named: by induction on the rows. */
  lemma {:induction false} FilterRowAt<R>(rows: seq<Row<R>>, vals: seq<seq<Value>>, r: nat, row: Row<R>, p: Cell<R> -> bool)
    requires |rows| == |vals| && DistinctIds(rows) && r < |rows| && rows[r] == row
    requires forall x :: p(x) == (x.row == row)
    ensures Filter(Layout(rows, vals), p) == RowCells(row, vals[r])
    decreases |rows|, 1
  {
    if r < |rows| - 1 {
      FilterRowEarlier(rows, vals, r, row, p);
    } else {
      FilterRowLast(rows, vals, p);
    }
  }

  /** FilterRowAt for a row before the last: the last row's block adds nothing. */
  lemma FilterRowEarlier<R>(rows: seq<Row<R>>, vals: seq<seq<Value>>, r: nat, row: Row<R>, p: Cell<R> -> bool)
    requires |rows| == |vals| && DistinctIds(rows) && r < |rows| - 1 && rows[r] == row
    requires forall x :: p(x) == (x.row == row)
    ensures Filter(Layout(rows, vals), p) == RowCells(row, vals[r])
    decreases |rows|, 0
  {
    var n := |rows| - 1;
    var front := Layout(rows[..n], vals[..n]);
    var block := RowCells(rows[n], vals[n]);
    LayoutSnoc(rows, vals);
    FilterAppend(front, block, p);
    assert rows[..n][r] == row && vals[..n][r] == vals[r];
    FilterRowAt(rows[..n], vals[..n], r, row, p);
    assert rows[n].id != rows[r].id;
    FilterOtherRow(rows[n], vals[n], p);
    assert Filter(front, p) + Filter(block, p) == Filter(front, p);
  }

  /** FilterRowAt for the last row: only its own block passes. */
  lemma FilterRowLast<R>(rows: seq<Row<R>>, vals: seq<seq<Value>>, p: Cell<R> -> bool)
    requires |rows| == |vals| && DistinctIds(rows) && rows != []
    requires forall x :: p(x) == (x.row == rows[|rows| - 1])
    ensures Filter(Layout(rows, vals), p) == RowCells(rows[|rows| - 1], vals[|rows| - 1])
  {
    var n := |rows| - 1;
    FilterAppend(Layout(rows[..n], vals[..n]), RowCells(rows[n], vals[n]), p);
    FilterFront(rows, vals, p);
    FilterAll(RowCells(rows[n], vals[n]), p);
  }

  /** Filtering on another row keeps no cell of this row's block. */
  lemma FilterOtherRow<R>(row: Row<R>, vs: seq<Value>, p: Cell<R> -> bool)
    requires forall x: Cell<R> :: x.row == row ==> !p(x)
    ensures Filter(RowCells(row, vs), p) == []
  {
    FilterNone(RowCells(row, vs), p);
  }

  /** No cell of the rows before the last belongs to the last row. */
  lemma FilterFront<R>(rows: seq<Row<R>>, vals: seq<seq<Value>>, p: Cell<R> -> bool)
    requires |rows| == |vals| && DistinctIds(rows) && rows != []
    requires forall x :: p(x) == (x.row == rows[|rows| - 1])
    ensures Filter(Layout(rows[..|rows| - 1], vals[..|rows| - 1]), p) == []
  {
    var n := |rows| - 1;
    var front := Layout(rows[..n], vals[..n]);
    LayoutMembers(rows[..n], vals[..n]);
    forall i | 0 <= i < |front|
      ensures !p(front[i])
    {
      assert front[i].row in rows[..n];
    }
    FilterNone(front, p);
  }

  /** Writing one value into the cell of (row r, column c) is writing it
      into row r of the grid. */
  lemma {:induction false} LayoutUpdate<R>(rows: seq<Row<R>>, vals: seq<seq<Value>>, r: nat, c: nat, k: nat, v: Value)
    requires |rows| == |vals| && DistinctIds(rows)
    requires r < |rows| && c < |vals[r]|
    requires k < |Layout(rows, vals)| && Layout(rows, vals)[k].row == rows[r] && Layout(rows, vals)[k].column == c
    ensures Layout(rows, vals[r := vals[r][c := v]]) == Layout(rows, vals)[k := Cell(c, rows[r], v)]
    decreases |rows|, 1
  {
    if r == |rows| - 1 {
      LayoutUpdateLast(rows, vals, r, c, k, v);
    } else {
      LayoutUpdateEarlier(rows, vals, r, c, k, v);
    }
  }

  /** LayoutUpdate in the last row: the cell is in the last row's block. */
  lemma LayoutUpdateLast<R>(rows: seq<Row<R>>, vals: seq<seq<Value>>, r: nat, c: nat, k: nat, v: Value)
    requires |rows| == |vals| && DistinctIds(rows)
    requires r == |rows| - 1 && c < |vals[r]|
    requires k < |Layout(rows, vals)| && Layout(rows, vals)[k].row == rows[r] && Layout(rows, vals)[k].column == c
    ensures Layout(rows, vals[r := vals[r][c := v]]) == Layout(rows, vals)[k := Cell(c, rows[r], v)]
  {
    var n := |rows| - 1;
    var vals' := vals[r := vals[r][c := v]];
    var front := Layout(rows[..n], vals[..n]);
    var block := RowCells(rows[n], vals[n]);
    LayoutSnoc(rows, vals);
    LayoutSnoc(rows, vals');
    LayoutMembers(rows[..n], vals[..n]);
    assert forall i :: 0 <= i < |front| ==> front[i].row in rows[..n];
    assert forall i :: 0 <= i < |front| ==> front[i].row != rows[n];
    assert k >= |front|;
    assert vals'[..n] == vals[..n];
    assert block[k - |front|].column == c;
    RowCellsUpdate(rows[n], vals[n], c, v);
    Sequences.UpdateRight(front, block, k, Cell(c, rows[r], v));
  }

  /** LayoutUpdate in an earlier row: the cell is in the front part. */
  lemma LayoutUpdateEarlier<R>(rows: seq<Row<R>>, vals: seq<seq<Value>>, r: nat, c: nat, k: nat, v: Value)
    requires |rows| == |vals| && DistinctIds(rows)
    requires r < |rows| - 1 && c < |vals[r]|
    requires k < |Layout(rows, vals)| && Layout(rows, vals)[k].row == rows[r] && Layout(rows, vals)[k].column == c
    ensures Layout(rows, vals[r := vals[r][c := v]]) == Layout(rows, vals)[k := Cell(c, rows[r], v)]
    decreases |rows|, 0
  {
    var n := |rows| - 1;
    var vals' := vals[r := vals[r][c := v]];
    var front := Layout(rows[..n], vals[..n]);
    var block := RowCells(rows[n], vals[n]);
    LayoutSnoc(rows, vals);
    LayoutSnoc(rows, vals');
    assert forall i :: 0 <= i < |block| ==> block[i].row == rows[n];
    assert k < |front|;
    assert front[k] == Layout(rows, vals)[k];
    assert vals'[..n] == vals[..n][r := vals[r][c := v]];
    LayoutUpdate(rows[..n], vals[..n], r, c, k, v);
    Sequences.UpdateLeft(front, block, k, Cell(c, rows[r], v));
  }

  /** Writing a value into column c of a row's values writes it into that
      row's cell of column c. */
  lemma RowCellsUpdate<R>(row: Row<R>, vs: seq<Value>, c: nat, v: Value)
    requires c < |vs|
    ensures RowCells(row, vs[c := v]) == RowCells(row, vs)[c := Cell(c, row, v)]
  {
  }

  // ---------------------------------------------------------------------
  // Stable sorting of the rows (List.sort)

  /** The contract of java.util.Comparator, on the elements being compared:
      swapping the arguments flips the sign, and "not greater than" is
      transitive. */
  ghost predicate IsComparator<T>(s: seq<T>, cmp: (T, T) -> int) {
    && (forall a, b :: a in s && b in s ==> (cmp(a, b) > 0 <==> cmp(b, a) < 0))
    && (forall a, b, c :: a in s && b in s && c in s && cmp(a, b) <= 0 && cmp(b, c) <= 0 ==> cmp(a, c) <= 0)
  }

  predicate Sorted<T>(s: seq<T>, cmp: (T, T) -> int) {
    forall i, j :: 0 <= i < j < |s| ==> cmp(s[i], s[j]) <= 0
  }

  /** perm lists each of 0 .. n-1 exactly once. */
  predicate IsPermutation(perm: seq<nat>, n: nat) {
    && |perm| == n
    && (forall i :: 0 <= i < n ==> perm[i] < n)
    && (forall i, j :: 0 <= i < j < n ==> perm[i] != perm[j])
  }

  /** t is s rearranged: t[i] is s[perm[i]]. */
  predicate Rearranged<T(==)>(t: seq<T>, s: seq<T>, perm: seq<nat>) {
    && |t| == |s| && IsPermutation(perm, |s|)
    && (forall i :: 0 <= i < |t| ==> t[i] == s[perm[i]])
    && multiset(t) == multiset(s)
  }

  /** Elements that compare equal keep their original relative order. */
  predicate Stable<T>(t: seq<T>, perm: seq<nat>, cmp: (T, T) -> int)
    requires |perm| == |t|
  {
    forall i, j :: 0 <= i < j < |t| && cmp(t[i], t[j]) == 0 ==> perm[i] < perm[j]
  }

  /** The first i elements of t are sorted and stable, the rest untouched. */
  ghost predicate SortedPrefix<T>(s: seq<T>, t: seq<T>, perm: seq<nat>, i: nat, cmp: (T, T) -> int) {
    && i <= |s|
    && Rearranged(t, s, perm)
    && (forall x :: i <= x < |s| ==> perm[x] == x)
    && (forall x :: 0 <= x < i ==> perm[x] < i)
    && (forall a, b :: 0 <= a < b < i ==> cmp(t[a], t[b]) <= 0)
    && (forall a, b :: 0 <= a < b < i && cmp(t[a], t[b]) == 0 ==> perm[a] < perm[b])
  }

  /** Element i of s, now at position j, is being moved left past the
      elements of the sorted prefix that are greater than it. */
  ghost predicate Inserting<T>(s: seq<T>, t: seq<T>, perm: seq<nat>, i: nat, j: nat, cmp: (T, T) -> int) {
    && j <= i < |s|
    && Rearranged(t, s, perm)
    && perm[j] == i
    && (forall x :: 0 <= x <= i && x != j ==> perm[x] < i)
    && (forall x :: i < x < |s| ==> perm[x] == x)
    && (forall a, b :: 0 <= a < b <= i && a != j && b != j ==> cmp(t[a], t[b]) <= 0)
    && (forall a, b :: 0 <= a < b <= i && a != j && b != j && cmp(t[a], t[b]) == 0 ==> perm[a] < perm[b])
    && (forall b :: j < b <= i ==> cmp(t[j], t[b]) < 0)
  }

  lemma InsertStart<T>(s: seq<T>, t: seq<T>, perm: seq<nat>, i: nat, cmp: (T, T) -> int)
    requires i < |s| && SortedPrefix(s, t, perm, i, cmp)
    ensures Inserting(s, t, perm, i, i, cmp)
  {
  }

  lemma SwapMultiset<T>(t: seq<T>, j: nat)
    requires 0 < j < |t|
    ensures multiset(t[j - 1 := t[j]][j := t[j - 1]]) == multiset(t)
  {
    var t' := t[j - 1 := t[j]][j := t[j - 1]];
    assert t == t[..j - 1] + [t[j - 1], t[j]] + t[j + 1..];
    assert t' == t[..j - 1] + [t[j], t[j - 1]] + t[j + 1..];
  }

  lemma InsertSwap<T>(s: seq<T>, t: seq<T>, perm: seq<nat>, i: nat, j: nat, cmp: (T, T) -> int)
    requires IsComparator(s, cmp)
    requires Inserting(s, t, perm, i, j, cmp) && 0 < j && cmp(t[j - 1], t[j]) > 0
    ensures Inserting(s, t[j - 1 := t[j]][j := t[j - 1]], perm[j - 1 := perm[j]][j := perm[j - 1]], i, j - 1, cmp)
  {
    var t' := t[j - 1 := t[j]][j := t[j - 1]];
    var perm' := perm[j - 1 := perm[j]][j := perm[j - 1]];
    assert cmp(t'[j - 1], t'[j]) < 0;
    SwapRearranged(s, t, perm, j);
  }

  lemma SwapRearranged<T>(s: seq<T>, t: seq<T>, perm: seq<nat>, j: nat)
    requires Rearranged(t, s, perm) && 0 < j < |t|
    ensures Rearranged(t[j - 1 := t[j]][j := t[j - 1]], s, perm[j - 1 := perm[j]][j := perm[j - 1]])
  {
    var perm' := perm[j - 1 := perm[j]][j := perm[j - 1]];
    SwapMultiset(t, j);
    forall a, b | 0 <= a < b < |s|
      ensures perm'[a] != perm'[b]
    {
      var a0 := if a == j - 1 then j else if a == j then j - 1 else a;
      var b0 := if b == j - 1 then j else if b == j then j - 1 else b;
      assert perm'[a] == perm[a0] && perm'[b] == perm[b0];
      assert a0 != b0;
      assert a0 < b0 ==> perm[a0] != perm[b0];
      assert b0 < a0 ==> perm[b0] != perm[a0];
    }
  }

  lemma InsertDone<T>(s: seq<T>, t: seq<T>, perm: seq<nat>, i: nat, j: nat, cmp: (T, T) -> int)
    requires IsComparator(s, cmp)
    requires Inserting(s, t, perm, i, j, cmp) && (j == 0 || cmp(t[j - 1], t[j]) <= 0)
    ensures SortedPrefix(s, t, perm, i + 1, cmp)
  {
    forall a, b | 0 <= a < b < i + 1
      ensures cmp(t[a], t[b]) <= 0
      ensures cmp(t[a], t[b]) == 0 ==> perm[a] < perm[b]
    {
      if b == j {
        assert cmp(t[a], t[j - 1]) <= 0 || a == j - 1;
      } else if a == j {
        assert cmp(t[j], t[b]) < 0;
      }
    }
  }

  /** List.sort: a stable sort, here by insertion. */
  method StableSort<T(==)>(s: seq<T>, cmp: (T, T) -> int) returns (t: seq<T>, ghost perm: seq<nat>)
    requires IsComparator(s, cmp)
    ensures Rearranged(t, s, perm)
    ensures Sorted(t, cmp)
    ensures Stable(t, perm, cmp)
  {
    t := s;
    perm := seq(|s|, i => i);
    for i := 0 to |s|
      invariant SortedPrefix(s, t, perm, i, cmp)
    {
      t, perm := Insert(s, t, perm, i, cmp);
    }
  }

  /** One pass of the insertion sort: element i moves left past the larger
      elements of the sorted prefix before it. */
  method Insert<T(==)>(s: seq<T>, t0: seq<T>, ghost perm0: seq<nat>, i: nat, cmp: (T, T) -> int)
    returns (t: seq<T>, ghost perm: seq<nat>)
    requires IsComparator(s, cmp)
    requires i < |s| && SortedPrefix(s, t0, perm0, i, cmp)
    ensures SortedPrefix(s, t, perm, i + 1, cmp)
  {
    t, perm := t0, perm0;
    InsertStart(s, t, perm, i, cmp);
    var j: nat := i;
    while j > 0 && cmp(t[j - 1], t[j]) > 0
      invariant Inserting(s, t, perm, i, j, cmp)
    {
      InsertSwap(s, t, perm, i, j, cmp);
      t := t[j - 1 := t[j]][j := t[j - 1]];
      perm := perm[j - 1 := perm[j]][j := perm[j - 1]];
      j := j - 1;
    }
    InsertDone(s, t, perm, i, j, cmp);
  }

  // ---------------------------------------------------------------------
  // ORDER, and why sorting the cells by it gives the row-major layout

  /** ArrayList.indexOf: the first position holding x, or -1. */
  function IndexOf<T(==)>(s: seq<T>, x: T): (i: int)
    ensures -1 <= i < |s|
    ensures i == -1 <==> x !in s
    ensures 0 <= i ==> s[i] == x && x !in s[..i]
  {
    if s == [] then -1
    else if s[0] == x then 0
    else
      var i := IndexOf(s[1..], x);
      assert i >= 0 ==> s[..i + 1] == [s[0]] + s[1..][..i];
      if i == -1 then -1 else i + 1
  }

  /** A row's getIndex(): its position, since row identities are distinct. */
  lemma IndexOfDistinct<R>(rows: seq<Row<R>>, r: nat)
    requires DistinctIds(rows) && r < |rows|
    ensures IndexOf(rows, rows[r]) == r
  {
  }

  /** ORDER: by the position of the cells' rows, then by their columns. */
  function Order<R(==)>(rows: seq<Row<R>>, a: Cell<R>, b: Cell<R>): int {
    var d := IndexOf(rows, a.row) - IndexOf(rows, b.row);
    if d == 0 then a.column - b.column else d
  }

  /** ORDER honours the comparator contract. */
  lemma OrderComparator<R>(rows: seq<Row<R>>, s: seq<Cell<R>>, cmp: (Cell<R>, Cell<R>) -> int)
    requires forall a, b :: cmp(a, b) == Order(rows, a, b)
    ensures IsComparator(s, cmp)
  {
  }

  predicate StrictlySorted<T>(s: seq<T>, cmp: (T, T) -> int) {
    forall i, j :: 0 <= i < j < |s| ==> cmp(s[i], s[j]) < 0
  }

  /** The last elements of two strictly sorted sequences with the same
      elements agree, and so do the elements before them. */
  lemma SortedLast<T>(s: seq<T>, t: seq<T>, cmp: (T, T) -> int)
    requires StrictlySorted(s, cmp) && StrictlySorted(t, cmp)
    requires forall x :: x in s <==> x in t
    requires IsComparator(s, cmp)
    requires s != [] && t != []
    ensures s[|s| - 1] == t[|t| - 1]
  {
    var a := s[|s| - 1];
    var b := t[|t| - 1];
    assert a in t;
    var j :| 0 <= j < |t| && t[j] == a;
    assert b in s;
    var i :| 0 <= i < |s| && s[i] == b;
    assert j < |t| - 1 ==> cmp(a, b) < 0;
    assert i < |s| - 1 ==> cmp(b, a) < 0;
  }

  lemma SortedInit<T>(s: seq<T>, t: seq<T>, cmp: (T, T) -> int, x: T)
    requires StrictlySorted(s, cmp) && StrictlySorted(t, cmp)
    requires forall x :: x in s <==> x in t
    requires IsComparator(s, cmp)
    requires s != [] && t != [] && s[|s| - 1] == t[|t| - 1]
    requires x in s[..|s| - 1]
    ensures x in t[..|t| - 1]
  {
    var n := |s| - 1;
    var m := |t| - 1;
    var k :| 0 <= k < n && s[k] == x;
    assert cmp(x, s[n]) < 0;
    assert x in t;
    var l :| 0 <= l < |t| && t[l] == x;
    assert l != m;
    assert t[..m][l] == x;
  }

  lemma SortedInits<T>(s: seq<T>, t: seq<T>, cmp: (T, T) -> int, s0: seq<T>, t0: seq<T>)
    requires StrictlySorted(s, cmp) && StrictlySorted(t, cmp)
    requires forall x :: x in s <==> x in t
    requires IsComparator(s, cmp)
    requires s != [] && t != [] && s[|s| - 1] == t[|t| - 1]
    requires s0 == s[..|s| - 1] && t0 == t[..|t| - 1]
    ensures forall x :: x in s0 <==> x in t0
  {
    forall x
      ensures x in s0 <==> x in t0
    {
      if x in s0 {
        SortedInit(s, t, cmp, x);
      }
      if x in t0 {
        SortedInit(t, s, cmp, x);
      }
    }
  }

  lemma StrictlySortedPrefix<T>(s: seq<T>, n: nat, cmp: (T, T) -> int)
    requires StrictlySorted(s, cmp) && n <= |s|
    ensures StrictlySorted(s[..n], cmp)
  {
  }

  lemma ComparatorPrefix<T>(s: seq<T>, n: nat, cmp: (T, T) -> int)
    requires IsComparator(s, cmp) && n <= |s|
    ensures IsComparator(s[..n], cmp)
  {
    assert forall x :: x in s[..n] ==> x in s;
  }

  /** Two strictly sorted sequences with the same elements are equal. */
  lemma {:induction false} SortedUnique<T>(s: seq<T>, t: seq<T>, cmp: (T, T) -> int)
    requires StrictlySorted(s, cmp) && StrictlySorted(t, cmp)
    requires forall x :: x in s <==> x in t
    requires IsComparator(s, cmp)
    ensures s == t
    decreases |s|
  {
    if s == [] {
      assert forall k :: 0 <= k < |t| ==> t[k] in t;
    } else {
      assert s[0] in t;
      var n := |s| - 1;
      var m := |t| - 1;
      SortedLast(s, t, cmp);
      assert s[..n] == t[..m] by {
        SortedInits(s, t, cmp, s[..n], t[..m]);
        StrictlySortedPrefix(s, n, cmp);
        StrictlySortedPrefix(t, m, cmp);
        ComparatorPrefix(s, n, cmp);
        SortedUnique(s[..n], t[..m], cmp);
      }
      Sequences.TakeOneMore(s, n);
      Sequences.TakeOneMore(t, m);
      Sequences.TakeAll(s);
      Sequences.TakeAll(t);
    }
  }

  /** a and b hold the same elements. */
  ghost predicate SameElements<T>(a: seq<T>, b: seq<T>) {
    && (forall i :: 0 <= i < |a| ==> a[i] in b)
    && (forall j :: 0 <= j < |b| ==> b[j] in a)
  }

  lemma SameElementsMembers<T>(a: seq<T>, b: seq<T>)
    requires SameElements(a, b)
    ensures forall x :: x in a <==> x in b
  {
    forall x
      ensures x in a <==> x in b
    {
      if x in a {
        var i :| 0 <= i < |a| && a[i] == x;
      }
      if x in b {
        var j :| 0 <= j < |b| && b[j] == x;
      }
    }
  }

  /** x is the cell of some row of the grid, holding that row's value in
      x's column. */
  ghost predicate InGrid<R>(rows: seq<Row<R>>, vals: seq<seq<Value>>, x: Cell<R>)
    requires |rows| == |vals|
  {
    exists r :: 0 <= r < |rows| && rows[r] == x.row && x.column < |vals[r]| && vals[r][x.column] == x.value
  }

  /** The layout holds exactly the cells of the grid. */
  lemma LayoutMembership<R>(rows: seq<Row<R>>, vals: seq<seq<Value>>, x: Cell<R>)
    requires |rows| == |vals| && DistinctIds(rows)
    ensures x in Layout(rows, vals) <==> InGrid(rows, vals, x)
  {
    var l := Layout(rows, vals);
    LayoutContains(rows, vals);
    if x in l {
      LayoutMembers(rows, vals);
      LayoutConsistent(rows, vals);
      var k :| 0 <= k < |l| && l[k] == x;
      assert x.row in rows;
      var r :| 0 <= r < |rows| && rows[r] == x.row;
      assert x.column < |vals[r]| && vals[r][x.column] == x.value;
    }
    if InGrid(rows, vals, x) {
      var r :| 0 <= r < |rows| && rows[r] == x.row && x.column < |vals[r]| && vals[r][x.column] == x.value;
      assert x == Cell(x.column, rows[r], vals[r][x.column]);
    }
  }

  /** Two cells of the layout that ORDER ranks equal are the same cell. */
  lemma OrderZero<R>(rows: seq<Row<R>>, vals: seq<seq<Value>>, a: Cell<R>, b: Cell<R>)
    requires |rows| == |vals| && DistinctIds(rows)
    requires a in Layout(rows, vals) && b in Layout(rows, vals)
    requires Order(rows, a, b) == 0
    ensures a == b
  {
    assert InGrid(rows, vals, a) && InGrid(rows, vals, b) by {
      LayoutMembership(rows, vals, a);
      LayoutMembership(rows, vals, b);
    }
    var ra :| 0 <= ra < |rows| && rows[ra] == a.row && a.column < |vals[ra]| && vals[ra][a.column] == a.value;
    var rb :| 0 <= rb < |rows| && rows[rb] == b.row && b.column < |vals[rb]| && vals[rb][b.column] == b.value;
    OrderZeroPosition(rows, a, b, ra, rb);
  }

  /** ORDER ranks two cells equal only when they are in the same row and
      column. */
  lemma OrderZeroPosition<R>(rows: seq<Row<R>>, a: Cell<R>, b: Cell<R>, ra: nat, rb: nat)
    requires DistinctIds(rows) && ra < |rows| && rb < |rows|
    requires rows[ra] == a.row && rows[rb] == b.row
    requires Order(rows, a, b) == 0
    ensures ra == rb && a.column == b.column
  {
    IndexOfDistinct(rows, ra);
    IndexOfDistinct(rows, rb);
  }

  /** The layout is strictly increasing under ORDER. */
  lemma LayoutStrictlySorted<R>(rows: seq<Row<R>>, vals: seq<seq<Value>>, cmp: (Cell<R>, Cell<R>) -> int)
    requires |rows| == |vals| && DistinctIds(rows)
    requires forall a, b :: cmp(a, b) == Order(rows, a, b)
    ensures StrictlySorted(Layout(rows, vals), cmp)
  {
    var l := Layout(rows, vals);
    forall i, j | 0 <= i < j < |l|
      ensures cmp(l[i], l[j]) < 0
    {
      LayoutPairOrdered(rows, vals, i, j, cmp);
    }
  }

  /** Of two cells of the layout, the earlier comes first under ORDER. */
  lemma LayoutPairOrdered<R>(rows: seq<Row<R>>, vals: seq<seq<Value>>, i: nat, j: nat, cmp: (Cell<R>, Cell<R>) -> int)
    requires |rows| == |vals| && DistinctIds(rows)
    requires forall a, b :: cmp(a, b) == Order(rows, a, b)
    requires i < j < |Layout(rows, vals)|
    ensures cmp(Layout(rows, vals)[i], Layout(rows, vals)[j]) < 0
  {
    var l := Layout(rows, vals);
    var a, b := l[i], l[j];
    assert a.row in rows && b.row in rows by {
      LayoutMembers(rows, vals);
    }
    var ri :| 0 <= ri < |rows| && rows[ri] == a.row;
    var rj :| 0 <= rj < |rows| && rows[rj] == b.row;
    assert ri < rj || (ri == rj && a.column < b.column) by {
      LayoutOrdered(rows, vals);
    }
    OrderByPosition(rows, a, b, ri, rj);
  }

  /** ORDER ranks cells by the positions of their rows, then by column. */
  lemma OrderByPosition<R>(rows: seq<Row<R>>, a: Cell<R>, b: Cell<R>, ri: nat, rj: nat)
    requires DistinctIds(rows) && ri < |rows| && rj < |rows|
    requires rows[ri] == a.row && rows[rj] == b.row
    requires ri < rj || (ri == rj && a.column < b.column)
    ensures Order(rows, a, b) < 0
  {
    IndexOfDistinct(rows, ri);
    IndexOfDistinct(rows, rj);
  }

  /** Sorting by ORDER a list that holds, once each, exactly the cells of the
      grid yields the row-major layout: this is the private sort(). */
  lemma SortedBagIsLayout<R>(rows: seq<Row<R>>, vals: seq<seq<Value>>, bag: seq<Cell<R>>,
                             t: seq<Cell<R>>, perm: seq<nat>, cmp: (Cell<R>, Cell<R>) -> int)
    requires |rows| == |vals| && DistinctIds(rows)
    requires forall a, b :: cmp(a, b) == Order(rows, a, b)
    requires SameElements(bag, Layout(rows, vals))
    requires forall i, j :: 0 <= i < j < |bag| ==> bag[i] != bag[j]
    requires Rearranged(t, bag, perm) && Sorted(t, cmp)
    ensures t == Layout(rows, vals)
  {
    var l := Layout(rows, vals);
    SameElementsMembers(bag, l);
    assert forall x :: x in t <==> x in l by {
      forall x
        ensures x in t <==> x in l
      {
        assert x in t <==> x in multiset(t);
        assert x in bag <==> x in multiset(bag);
      }
    }
    forall i, j | 0 <= i < j < |t|
      ensures cmp(t[i], t[j]) < 0
    {
      assert t[i] != t[j] by {
        assert perm[i] != perm[j];
        assert perm[i] < perm[j] ==> bag[perm[i]] != bag[perm[j]];
        assert perm[j] < perm[i] ==> bag[perm[j]] != bag[perm[i]];
      }
      assert t[i] in t && t[j] in t;
      if cmp(t[i], t[j]) == 0 {
        OrderZero(rows, vals, t[i], t[j]);
      }
    }
    LayoutStrictlySorted(rows, vals, cmp);
    OrderComparator(rows, t, cmp);
    SortedUnique(t, l, cmp);
  }

  lemma MulLeq(a: nat, b: nat, w: nat)
    requires a <= b
    ensures a * w <= b * w
  {
  }

  /** Row-major position: the cell of row r and column c sits at r·width + c. */
  lemma {:induction false} LayoutIndex<R>(rows: seq<Row<R>>, vals: seq<seq<Value>>, width: nat, r: nat, c: nat)
    requires |rows| == |vals| && Rectangular(vals, width)
    requires r < |rows| && c < width
    ensures r * width + c < |Layout(rows, vals)|
    ensures Layout(rows, vals)[r * width + c] == Cell(c, rows[r], vals[r][c])
  {
    var n := |rows| - 1;
    var front := Layout(rows[..n], vals[..n]);
    LayoutLength(rows[..n], vals[..n], width);
    LayoutLength(rows, vals, width);
    MulFacts(r, 1, width);
    MulFacts(n, 1, width);
    if r < n {
      LayoutIndex(rows[..n], vals[..n], width, r, c);
      MulLeq(r + 1, n, width);
      assert Layout(rows, vals)[r * width + c] == front[r * width + c];
    } else {
      assert Layout(rows, vals)[r * width + c] == RowCells(rows[n], vals[n])[c];
    }
  }

  /** The cells of the layout are pairwise different. */
  lemma LayoutDistinct<R>(rows: seq<Row<R>>, vals: seq<seq<Value>>)
    requires |rows| == |vals| && DistinctIds(rows)
    ensures forall i, j :: 0 <= i < j < |Layout(rows, vals)| ==> Layout(rows, vals)[i] != Layout(rows, vals)[j]
  {
    var l := Layout(rows, vals);
    LayoutOrdered(rows, vals);
    LayoutMembers(rows, vals);
    forall i, j | 0 <= i < j < |l|
      ensures l[i] != l[j]
    {
      assert l[i].row in rows && l[j].row in rows;
      var ri :| 0 <= ri < |rows| && rows[ri] == l[i].row;
      var rj :| 0 <= rj < |rows| && rows[rj] == l[j].row;
      assert ri < rj ==> rows[ri].id != rows[rj].id;
    }
  }

  /** The new cells addColumn appends: one null cell per row, in row order. */
  function NullColumn<R>(rows: seq<Row<R>>, ci: nat): seq<Cell<R>> {
    seq(|rows|, r requires 0 <= r < |rows| => Cell(ci, rows[r], Null))
  }

  /** n null values: the new cells of a row. */
  function Nulls(n: nat): seq<Value> {
    seq(n, _ => Null)
  }

  /** The loop in addColumn: a null cell in the new column for each row,
      appended in row order. */
  method AppendNullColumn<R>(list: seq<Cell<R>>, rows: seq<Row<R>>, ci: nat) returns (result: seq<Cell<R>>)
    ensures result == list + NullColumn(rows, ci)
  {
    result := list;
    for r := 0 to |rows|
      invariant result == list + NullColumn(rows[..r], ci)
    {
      result := result + [Cell(ci, rows[r], Null)];
      assert NullColumn(rows[..r + 1], ci) == NullColumn(rows[..r], ci) + [Cell(ci, rows[r], Null)];
    }
    assert rows[..|rows|] == rows;
  }

  /** The loop in addRow: a null cell in the new row for each column,
      appended in column order. */
  method AppendNullRow<R>(list: seq<Cell<R>>, row: Row<R>, width: nat) returns (result: seq<Cell<R>>)
    ensures result == list + RowCells(row, Nulls(width))
  {
    result := list;
    for c := 0 to width
      invariant result == list + RowCells(row, Nulls(c))
    {
      result := result + [Cell(c, row, Null)];
    }
  }

  lemma BackfillCell<R>(rows: seq<Row<R>>, vals: seq<seq<Value>>, wide: seq<seq<Value>>, ci: nat, x: Cell<R>)
    requires |rows| == |vals| && DistinctIds(rows) && Rectangular(vals, ci)
    requires |wide| == |vals| && forall r :: 0 <= r < |vals| ==> wide[r] == vals[r] + [Null]
    ensures x in Layout(rows, vals) + NullColumn(rows, ci) <==> x in Layout(rows, wide)
  {
    var l := Layout(rows, vals);
    var col := NullColumn(rows, ci);
    LayoutMembership(rows, vals, x);
    LayoutMembership(rows, wide, x);
    if x in l {
      var r :| 0 <= r < |rows| && rows[r] == x.row && x.column < |vals[r]| && vals[r][x.column] == x.value;
      assert wide[r][x.column] == x.value;
    }
    if x in col {
      var r :| 0 <= r < |rows| && col[r] == x;
      assert wide[r][ci] == x.value;
    }
    if InGrid(rows, wide, x) {
      var r :| 0 <= r < |rows| && rows[r] == x.row && x.column < |wide[r]| && wide[r][x.column] == x.value;
      if x.column < ci {
        assert vals[r][x.column] == x.value;
      } else {
        assert x == col[r];
      }
    }
  }

  lemma BackfillDistinct<R>(rows: seq<Row<R>>, vals: seq<seq<Value>>, ci: nat)
    requires |rows| == |vals| && DistinctIds(rows) && Rectangular(vals, ci)
    ensures var bag := Layout(rows, vals) + NullColumn(rows, ci);
      forall i, j :: 0 <= i < j < |bag| ==> bag[i] != bag[j]
  {
    var l := Layout(rows, vals);
    var bag := l + NullColumn(rows, ci);
    LayoutDistinct(rows, vals);
    LayoutBounds(rows, vals, ci);
    forall i, j | 0 <= i < j < |bag|
      ensures bag[i] != bag[j]
    {
      if j < |l| {
        assert bag[i] == l[i] && bag[j] == l[j];
      } else if i < |l| {
        assert bag[i].column < ci && bag[j].column == ci;
      } else {
        assert bag[i].row == rows[i - |l|] && bag[j].row == rows[j - |l|];
        assert rows[i - |l|].id != rows[j - |l|].id;
      }
    }
  }

  /** The cells before addColumn's sort hold, once each, exactly the cells
      of the grid widened by a null column. */
  lemma BackfillColumn<R>(rows: seq<Row<R>>, vals: seq<seq<Value>>, wide: seq<seq<Value>>, ci: nat)
    requires |rows| == |vals| && DistinctIds(rows) && Rectangular(vals, ci)
    requires |wide| == |vals| && forall r :: 0 <= r < |vals| ==> wide[r] == vals[r] + [Null]
    ensures SameElements(Layout(rows, vals) + NullColumn(rows, ci), Layout(rows, wide))
    ensures var bag := Layout(rows, vals) + NullColumn(rows, ci);
      forall i, j :: 0 <= i < j < |bag| ==> bag[i] != bag[j]
  {
    var bag := Layout(rows, vals) + NullColumn(rows, ci);
    var l := Layout(rows, wide);
    forall i | 0 <= i < |bag|
      ensures bag[i] in l
    {
      BackfillCell(rows, vals, wide, ci, bag[i]);
    }
    forall j | 0 <= j < |l|
      ensures l[j] in bag
    {
      BackfillCell(rows, vals, wide, ci, l[j]);
    }
    BackfillDistinct(rows, vals, ci);
  }

  /** Reordering distinct rows keeps them distinct. */
  lemma PermutedIds<R>(rows: seq<Row<R>>, rows': seq<Row<R>>, perm: seq<nat>)
    requires DistinctIds(rows) && Rearranged(rows', rows, perm)
    ensures DistinctIds(rows')
  {
    forall i, j | 0 <= i < j < |rows'|
      ensures rows'[i].id != rows'[j].id
    {
      assert perm[i] != perm[j];
      assert perm[i] < perm[j] ==> rows[perm[i]].id != rows[perm[j]].id;
      assert perm[j] < perm[i] ==> rows[perm[j]].id != rows[perm[i]].id;
    }
  }

  lemma PermutedCell<R>(rows: seq<Row<R>>, vals: seq<seq<Value>>, rows': seq<Row<R>>, vals': seq<seq<Value>>, perm: seq<nat>, x: Cell<R>)
    requires |rows| == |vals| && DistinctIds(rows)
    requires Rearranged(rows', rows, perm)
    requires |vals'| == |rows'| && forall i :: 0 <= i < |rows'| ==> vals'[i] == vals[perm[i]]
    ensures InGrid(rows, vals, x) <==> InGrid(rows', vals', x)
  {
    if InGrid(rows, vals, x) {
      var r :| 0 <= r < |rows| && rows[r] == x.row && x.column < |vals[r]| && vals[r][x.column] == x.value;
      assert rows[r] in multiset(rows);
      assert rows[r] in rows';
      var i :| 0 <= i < |rows'| && rows'[i] == rows[r];
      assert vals'[i] == vals[r];
    }
    if InGrid(rows', vals', x) {
      var i :| 0 <= i < |rows'| && rows'[i] == x.row && x.column < |vals'[i]| && vals'[i][x.column] == x.value;
      assert rows[perm[i]] == x.row;
    }
  }

  /** Reordering the rows keeps the grid's shape, its values' types and the
      rows' identities. */
  lemma PermutedShape<R>(columns: seq<Column>, rows: seq<Row<R>>, vals: seq<seq<Value>>, rows': seq<Row<R>>, vals': seq<seq<Value>>, perm: seq<nat>, nextId: nat)
    requires Shaped(columns, rows, vals, nextId)
    requires Rearranged(rows', rows, perm)
    requires |vals'| == |rows'| && forall i :: 0 <= i < |rows'| ==> vals'[i] == vals[perm[i]]
    ensures Shaped(columns, rows', vals', nextId)
  {
    PermutedIds(rows, rows', perm);
  }

  /** A new last column, with a null value in every row, keeps the grid's
      shape. */
  lemma WidenedShape<R>(columns: seq<Column>, rows: seq<Row<R>>, vals: seq<seq<Value>>, wide: seq<seq<Value>>, nextId: nat, column: Column)
    requires Shaped(columns, rows, vals, nextId)
    requires |wide| == |vals| && forall r :: 0 <= r < |vals| ==> wide[r] == vals[r] + [Null]
    ensures Shaped(columns + [column], rows, wide, nextId)
  {
  }

  /** A new last row of nulls, with the next identity, keeps the grid's
      shape. */
  lemma LengthenedShape<R>(columns: seq<Column>, rows: seq<Row<R>>, vals: seq<seq<Value>>, nextId: nat, row: Row<R>)
    requires Shaped(columns, rows, vals, nextId) && row.id == nextId
    ensures Shaped(columns, rows + [row], vals + [Nulls(|columns|)], nextId + 1)
  {
    var rows', vals' := rows + [row], vals + [Nulls(|columns|)];
    forall i, j | 0 <= i < j < |rows'|
      ensures rows'[i].id != rows'[j].id
    {
      if j < |rows| {
        assert rows'[i] == rows[i] && rows'[j] == rows[j];
      }
    }
    forall r, c | 0 <= r < |rows'| && 0 <= c < |columns|
      ensures Conforms(vals'[r][c], columns[c].valueType)
    {
      if r < |rows| {
        assert vals'[r] == vals[r];
      }
    }
  }

  /** Reordering the rows, and their values with them, keeps the same cells. */
  lemma PermutedGrid<R>(rows: seq<Row<R>>, vals: seq<seq<Value>>, rows': seq<Row<R>>, vals': seq<seq<Value>>, perm: seq<nat>)
    requires |rows| == |vals| && DistinctIds(rows)
    requires Rearranged(rows', rows, perm)
    requires |vals'| == |rows'| && forall i :: 0 <= i < |rows'| ==> vals'[i] == vals[perm[i]]
    ensures DistinctIds(rows')
    ensures SameElements(Layout(rows, vals), Layout(rows', vals'))
  {
    PermutedIds(rows, rows', perm);
    var l := Layout(rows, vals);
    var l' := Layout(rows', vals');
    forall i | 0 <= i < |l|
      ensures l[i] in l'
    {
      LayoutMembership(rows, vals, l[i]);
      LayoutMembership(rows', vals', l[i]);
      PermutedCell(rows, vals, rows', vals', perm, l[i]);
    }
    forall j | 0 <= j < |l'|
      ensures l'[j] in l
    {
      LayoutMembership(rows, vals, l'[j]);
      LayoutMembership(rows', vals', l'[j]);
      PermutedCell(rows, vals, rows', vals', perm, l'[j]);
    }
  }

  /** The elements of Filter(s, p) are those of s that satisfy p. */
  lemma {:induction false} FilterSound<T>(s: seq<T>, p: T -> bool)
    ensures forall x :: x in Filter(s, p) <==> x in s && p(x)
  {
    if s != [] {
      var n := |s| - 1;
      FilterSound(s[..n], p);
      assert s == s[..n] + [s[n]];
    }
  }

  // ---------------------------------------------------------------------
  // Lookups

  /** The first position holding a label: the search Group.get(label) and
      Sequence.get(label) both perform. */
  function FirstIndex<L(==)>(names: seq<L>, name: L): (r: Option<nat>)
    ensures r.Some? ==>
      && r.value < |names| && names[r.value] == name
      && forall i :: 0 <= i < r.value ==> names[i] != name
    ensures r.None? <==> name !in names
  {
    if names == [] then None
    else if names[0] == name then Some(0)
    else match FirstIndex(names[1..], name)
      case None => None
      case Some(i) => Some(i + 1)
  }

  function ColumnNames(columns: seq<Column>): (names: seq<string>)
    ensures |names| == |columns| && forall i :: 0 <= i < |columns| ==> names[i] == columns[i].name
  {
    seq(|columns|, i requires 0 <= i < |columns| => columns[i].name)
  }

  function RowNames<R>(rows: seq<Row<R>>): (names: seq<R>)
    ensures |names| == |rows| && forall i :: 0 <= i < |rows| ==> names[i] == rows[i].name
  {
    seq(|rows|, i requires 0 <= i < |rows| => rows[i].name)
  }

  /** Group.get(label) on the columns: the first column with the label. */
  function FirstColumn(columns: seq<Column>, name: string): (r: Option<nat>)
    ensures r.Some? ==>
      && r.value < |columns| && columns[r.value].name == name
      && forall i :: 0 <= i < r.value ==> columns[i].name != name
    ensures r.None? <==> forall i :: 0 <= i < |columns| ==> columns[i].name != name
  {
    FirstIndex(ColumnNames(columns), name)
  }

  /** The first row with the label: what Column.get(rowLabel) finds. */
  function FirstRow<R(==)>(rows: seq<Row<R>>, name: R): (r: Option<nat>)
    ensures r.Some? ==>
      && r.value < |rows| && rows[r.value].name == name
      && forall i :: 0 <= i < r.value ==> rows[i].name != name
    ensures r.None? <==> forall i :: 0 <= i < |rows| ==> rows[i].name != name
  {
    FirstIndex(RowNames(rows), name)
  }

  /** A label search that found nothing throws IllegalArgumentException. */
  function OrMissing(found: Option<nat>): Result<nat, Failure> {
    match found
    case None => Err(NoSuchLabel)
    case Some(i) => Ok(i)
  }

  /** Group.get(int): ArrayList.get, which throws IndexOutOfBoundsException. */
  function At<T>(members: seq<T>, index: int): (r: Result<T, Failure>)
    ensures r.Ok? <==> 0 <= index < |members|
    ensures r.Ok? ==> r.value == members[index]
    ensures r.Err? ==> r.error == IndexOutOfBounds
  {
    if 0 <= index < |members| then Ok(members[index]) else Err(IndexOutOfBounds)
  }

  /** Cell.get(type): Class.cast lets null and instances of the type through
      and throws ClassCastException for anything else. */
  function Cast(v: Value, t: ValueType): (r: Result<Value, Failure>)
    ensures r.Ok? <==> v.Null? || TypeOf(v) == Some(t)
    ensures r.Ok? ==> r.value == v
    ensures r.Err? ==> r.error == ClassCast
  {
    if Conforms(v, t) then Ok(v) else Err(ClassCast)
  }

  /** The loop of Column/Row.values: the values of the cells of `list` that
      satisfy p, each cast to valueType, failing on the first that does not
      conform. */
  method CastFiltered<R>(list: seq<Cell<R>>, valueType: ValueType, p: Cell<R> -> bool) returns (r: Result<seq<Value>, Failure>)
    ensures r.Ok? <==> forall x :: x in Filter(list, p) ==> Conforms(x.value, valueType)
    ensures r.Ok? ==> r.value == ValuesOf(Filter(list, p))
    ensures r.Err? ==> r.error == ClassCast
  {
    var result := [];
    FilterSound(list, p);
    for k := 0 to |list|
      invariant result == ValuesOf(Filter(list[..k], p))
      invariant forall x :: x in Filter(list[..k], p) ==> Conforms(x.value, valueType)
    {
      FilterStep(list, k, p);
      if p(list[k]) {
        var cast := Cast(list[k].value, valueType);
        if cast.Err? {
          assert list[k] in Filter(list, p);
          return Err(ClassCast);
        }
        result := result + [cast.value];
      }
    }
    assert list[..|list|] == list;
    return Ok(result);
  }

  /** Filtering one more element of s. */
  lemma FilterStep<R>(s: seq<Cell<R>>, k: nat, p: Cell<R> -> bool)
    requires k < |s|
    ensures Filter(s[..k + 1], p) == Filter(s[..k], p) + (if p(s[k]) then [s[k]] else [])
    ensures ValuesOf(Filter(s[..k + 1], p)) == ValuesOf(Filter(s[..k], p)) + (if p(s[k]) then [s[k].value] else [])
  {
    assert s[..k + 1][..k] == s[..k];
  }

  /** The values held by a list of cells, in order. */
  function ValuesOf<R>(cs: seq<Cell<R>>): seq<Value> {
    seq(|cs|, i requires 0 <= i < |cs| => cs[i].value)
  }

  /** The values of column ci, in row order. */
  function ColumnValues(vals: seq<seq<Value>>, ci: nat): seq<Value>
    requires forall r :: 0 <= r < |vals| ==> ci < |vals[r]|
  {
    seq(|vals|, r requires 0 <= r < |vals| => vals[r][ci])
  }

  /** get(rowLabel, columnLabel) on the grid: the first column with the
      column label, then the first row with the row label. */
  ghost function Lookup<R>(columns: seq<Column>, rows: seq<Row<R>>, vals: seq<seq<Value>>, rowName: R, columnName: string): Result<Cell<R>, Failure>
    requires |rows| == |vals| && Rectangular(vals, |columns|)
  {
    match FirstColumn(columns, columnName)
    case None => Err(NoSuchLabel)
    case Some(c) =>
      match FirstRow(rows, rowName)
      case None => Err(NoSuchLabel)
      case Some(r) => Ok(Cell(c, rows[r], vals[r][c]))
  }

  /** set(rowLabel, columnLabel, value) on the grid: the new grid, or the
      exception thrown. */
  ghost function Assign<R>(columns: seq<Column>, rows: seq<Row<R>>, vals: seq<seq<Value>>, rowName: R, columnName: string, v: Value): Result<seq<seq<Value>>, Failure>
    requires |rows| == |vals| && Rectangular(vals, |columns|)
  {
    match FirstColumn(columns, columnName)
    case None => Err(NoSuchLabel)
    case Some(c) =>
      match FirstRow(rows, rowName)
      case None => Err(NoSuchLabel)
      case Some(r) =>
        if Conforms(v, columns[c].valueType) then Ok(vals[r := vals[r][c := v]]) else Err(ClassCast)
  }

  // ---------------------------------------------------------------------
  // The table

  /** A value per (row, column) pair, each allowed by its column's type, and
      rows with distinct identities below nextId. */
  ghost predicate Shaped<R>(columns: seq<Column>, rows: seq<Row<R>>, vals: seq<seq<Value>>, nextId: nat) {
    && |vals| == |rows|
    && Rectangular(vals, |columns|)
    && (forall r, c :: 0 <= r < |rows| && 0 <= c < |columns| ==> Conforms(vals[r][c], columns[c].valueType))
    && DistinctIds(rows)
    && (forall r :: 0 <= r < |rows| ==> rows[r].id < nextId)
  }

  class Table<R(==)> {
    /** The column group, in order; a column is referred to by its index. */
    var columns: seq<Column>
    /** The row group, in order. */
    var rows: seq<Row<R>>
    /** The cell list. */
    var cells: seq<Cell<R>>
    /** Every row made so far has an id below this: stands for allocating a
        new row object. */
    var nextId: nat
    /** The grid of values: vals[r][c] is the value of the cell in row r
        and column c. */
    ghost var vals: seq<seq<Value>>

    /** One cell per (row, column) pair, in row-major order, each value
        allowed by its column's type. */
    ghost predicate Valid()
      reads this
    {
      Shaped(columns, rows, vals, nextId) && cells == Layout(rows, vals)
    }

    constructor ()
      ensures Valid() && columns == [] && rows == [] && vals == []
    {
      columns := [];
      rows := [];
      cells := [];
      nextId := 0;
      vals := [];
    }

    /** size(): the number of cells. */
    function Size(): (n: nat)
      reads this
      requires Valid()
      ensures n == |rows| * |columns|
    {
      LayoutLength(rows, vals, |columns|);
      |cells|
    }

    /** The private sort(): cells.sort(ORDER). */
    method SortCells()
      requires |vals| == |rows| && DistinctIds(rows)
      requires SameElements(cells, Layout(rows, vals))
      requires forall i, j :: 0 <= i < j < |cells| ==> cells[i] != cells[j]
      modifies this
      ensures columns == old(columns) && rows == old(rows) && vals == old(vals) && nextId == old(nextId)
      ensures cells == Layout(rows, vals)
    {
      var rs := rows;
      ghost var vs := vals;
      var order := (a: Cell<R>, b: Cell<R>) => Order(rs, a, b);
      var bag := cells;
      OrderComparator(rs, bag, order);
      ghost var perm;
      var sorted;
      sorted, perm := StableSort(bag, order);
      SortedBagIsLayout(rs, vs, bag, sorted, perm, order);
      cells := sorted;
    }

    /** addColumn (the Column constructor): a new last column, and a null
        cell for it in every row. */
    method AddColumn(name: string, valueType: ValueType) returns (ci: nat)
      requires Valid()
      modifies this
      ensures Valid()
      ensures ci == |old(columns)| && columns == old(columns) + [Column(name, valueType)]
      ensures rows == old(rows) && nextId == old(nextId)
      ensures |vals| == |old(vals)| && forall r :: 0 <= r < |vals| ==> vals[r] == old(vals)[r] + [Null]
    {
      ci := |columns|;
      ghost var narrow := vals;
      ghost var wide := seq(|narrow|, r requires 0 <= r < |narrow| => narrow[r] + [Null]);
      WidenedShape(columns, rows, narrow, wide, nextId, Column(name, valueType));
      BackfillColumn(rows, narrow, wide, ci);
      var list := AppendNullColumn(cells, rows, ci);
      assert list == Layout(rows, narrow) + NullColumn(rows, ci);
      columns := columns + [Column(name, valueType)];
      cells := list;
      vals := wide;
      SortCells();
    }

    /** addRow (the Row constructor): a new last row with a fresh identity,
        and a null cell in it for every column. */
    method AddRow(name: R) returns (row: Row<R>)
      requires Valid()
      modifies this
      ensures Valid()
      ensures row.name == name && rows == old(rows) + [row]
      ensures forall r :: 0 <= r < |old(rows)| ==> old(rows)[r].id != row.id
      ensures columns == old(columns)
      ensures vals == old(vals) + [Nulls(|columns|)]
    {
      row := Row(nextId, name);
      LengthenedShape(columns, rows, vals, nextId, row);
      nextId := nextId + 1;
      rows := rows + [row];
      var width := |columns|;
      var list := AppendNullRow(cells, row, width);
      cells := list;
      vals := vals + [Nulls(width)];
      assert rows[..|rows| - 1] == old(rows) && vals[..|vals| - 1] == old(vals);
      assert DistinctIds(rows);
      assert cells == Layout(rows, vals);
      LayoutDistinct(rows, vals);
      SortCells();
    }

    /** cells(predicate): the cells that satisfy the predicate, in order. */
    method Cells(p: Cell<R> -> bool) returns (result: seq<Cell<R>>)
      ensures result == Filter(cells, p)
    {
      result := [];
      for k := 0 to |cells|
        invariant result == Filter(cells[..k], p)
      {
        assert cells[..k + 1][..k] == cells[..k];
        if p(cells[k]) {
          result := result + [cells[k]];
        }
      }
      assert cells[..|cells|] == cells;
    }

    /** values(type, predicate): the values of the cells that satisfy the
        predicate, each cast to the type; the first failing cast throws. */
    method Values(valueType: ValueType, p: Cell<R> -> bool) returns (r: Result<seq<Value>, Failure>)
      ensures r.Ok? <==> forall x :: x in Filter(cells, p) ==> Conforms(x.value, valueType)
      ensures r.Ok? ==> r.value == ValuesOf(Filter(cells, p))
      ensures r.Err? ==> r.error == ClassCast
    {
      r := CastFiltered(cells, valueType, p);
    }

    /** Column.get(rowLabel): the cell of the first row with the label. */
    method ColumnCell(ci: nat, rowName: R) returns (r: Result<Cell<R>, Failure>)
      requires Valid() && ci < |columns|
      ensures FirstRow(rows, rowName).None? ==> r == Err(NoSuchLabel)
      ensures FirstRow(rows, rowName).Some? ==>
        var i := FirstRow(rows, rowName).value;
        r == Ok(Cell(ci, rows[i], vals[i][ci]))
    {
      var inColumn := (x: Cell<R>) => x.column == ci;
      var column := Cells(inColumn);
      FilterColumn(rows, vals, |columns|, ci, inColumn);
      for k := 0 to |column|
        invariant forall j :: 0 <= j < k ==> rows[j].name != rowName
      {
        if column[k].row.name == rowName {
          return Ok(column[k]);
        }
      }
      return Err(NoSuchLabel);
    }

    /** Sequence.get(index) on a column: the cell of row index. */
    method ColumnCellAt(ci: nat, index: int) returns (r: Result<Cell<R>, Failure>)
      requires Valid() && ci < |columns|
      ensures 0 <= index < |rows| ==> r == Ok(Cell(ci, rows[index], vals[index][ci]))
      ensures !(0 <= index < |rows|) ==> r == Err(IndexOutOfBounds)
    {
      var inColumn := (x: Cell<R>) => x.column == ci;
      var column := Cells(inColumn);
      FilterColumn(rows, vals, |columns|, ci, inColumn);
      r := NthCell(column, index);
    }

    /** Row.get(columnLabel): the cell of the first column with the label. */
    method RowCell(ri: nat, columnName: string) returns (r: Result<Cell<R>, Failure>)
      requires Valid() && ri < |rows|
      ensures FirstColumn(columns, columnName).None? ==> r == Err(NoSuchLabel)
      ensures FirstColumn(columns, columnName).Some? ==>
        var c := FirstColumn(columns, columnName).value;
        r == Ok(Cell(c, rows[ri], vals[ri][c]))
    {
      var row := rows[ri];
      var inRow := (x: Cell<R>) => x.row == row;
      var cs := Cells(inRow);
      FilterRow(rows, vals, ri, inRow);
      for k := 0 to |cs|
        invariant forall j :: 0 <= j < k ==> columns[j].name != columnName
      {
        if columns[cs[k].column].name == columnName {
          return Ok(cs[k]);
        }
      }
      return Err(NoSuchLabel);
    }

    /** Sequence.get(index) on a row: the cell of column index. */
    method RowCellAt(ri: nat, index: int) returns (r: Result<Cell<R>, Failure>)
      requires Valid() && ri < |rows|
      ensures 0 <= index < |columns| ==> r == Ok(Cell(index, rows[ri], vals[ri][index]))
      ensures !(0 <= index < |columns|) ==> r == Err(IndexOutOfBounds)
    {
      var row := rows[ri];
      var inRow := (x: Cell<R>) => x.row == row;
      var cs := Cells(inRow);
      FilterRow(rows, vals, ri, inRow);
      r := NthCell(cs, index);
    }

    /** Cell.set(value) on the cell of row ri and column ci: the value must
        pass the column type's cast, or ClassCastException leaves the cell
        as it was. */
    method SetCell(ri: nat, ci: nat, v: Value) returns (r: Result<(), Failure>)
      requires Valid() && ri < |rows| && ci < |columns|
      modifies this
      ensures Valid()
      ensures columns == old(columns) && rows == old(rows) && nextId == old(nextId)
      ensures Conforms(v, columns[ci].valueType) ==> r == Ok(()) && vals == old(vals)[ri := old(vals)[ri][ci := v]]
      ensures !Conforms(v, columns[ci].valueType) ==> r == Err(ClassCast) && vals == old(vals) && cells == old(cells)
    {
      var cast := Cast(v, columns[ci].valueType);
      if cast.Err? {
        return Err(ClassCast);
      }
      LayoutIndex(rows, vals, |columns|, ri, ci);
      var k := ri * |columns| + ci;
      LayoutUpdate(rows, vals, ri, ci, k, v);
      cells := cells[k := Cell(ci, rows[ri], cast.value)];
      vals := vals[ri := vals[ri][ci := v]];
      return Ok(());
    }

    /** get(rowLabel, columnLabel). */
    method Get(rowName: R, columnName: string) returns (r: Result<Cell<R>, Failure>)
      requires Valid()
      ensures r == Lookup(columns, rows, vals, rowName, columnName)
    {
      var column := ColumnNamed(columnName);
      if column.Err? {
        return Err(column.error);
      }
      r := ColumnCell(column.value, rowName);
    }

    /** set(rowLabel, columnLabel, value). */
    method Set(rowName: R, columnName: string, v: Value) returns (r: Result<(), Failure>)
      requires Valid()
      modifies this
      ensures Valid()
      ensures columns == old(columns) && rows == old(rows) && nextId == old(nextId)
      ensures var after := Assign(columns, rows, old(vals), rowName, columnName, v);
        && (after.Ok? ==> r == Ok(()) && vals == after.value)
        && (after.Err? ==> r == Err(after.error) && vals == old(vals))
    {
      var column := ColumnNamed(columnName);
      if column.Err? {
        return Err(column.error);
      }
      var cell := ColumnCell(column.value, rowName);
      if cell.Err? {
        return Err(cell.error);
      }
      IndexOfDistinct(rows, FirstRow(rows, rowName).value);
      var ri := IndexOf(rows, cell.value.row);
      r := SetCell(ri, column.value, v);
    }

    /** Group.get(label) on the columns. */
    method ColumnNamed(name: string) returns (r: Result<nat, Failure>)
      ensures r == OrMissing(FirstColumn(columns, name))
    {
      for i := 0 to |columns|
        invariant forall j :: 0 <= j < i ==> columns[j].name != name
      {
        if columns[i].name == name {
          return Ok(i);
        }
      }
      return Err(NoSuchLabel);
    }

    /** sort(comparator): List.sort on the rows, then the cells re-sorted by
        ORDER. Each row keeps its values. */
    method Sort(cmp: (Row<R>, Row<R>) -> int) returns (ghost perm: seq<nat>)
      requires Valid() && IsComparator(rows, cmp)
      modifies this
      ensures Valid()
      ensures Rearranged(rows, old(rows), perm) && Sorted(rows, cmp) && Stable(rows, perm, cmp)
      ensures |vals| == |rows| && forall i :: 0 <= i < |rows| ==> vals[i] == old(vals)[perm[i]]
      ensures columns == old(columns) && nextId == old(nextId)
    {
      var sorted;
      sorted, perm := StableSort(rows, cmp);
      Rearrange(sorted, perm);
    }

    /** The rows put in the order perm gives, each keeping its values, and the
        cells sorted again to match. */
    method Rearrange(sorted: seq<Row<R>>, ghost perm: seq<nat>)
      requires Valid() && Rearranged(sorted, rows, perm)
      modifies this
      ensures Valid() && rows == sorted
      ensures |vals| == |rows| && forall i :: 0 <= i < |rows| ==> vals[i] == old(vals)[perm[i]]
      ensures columns == old(columns) && nextId == old(nextId)
    {
      ghost var before := vals;
      ghost var permuted := seq(|sorted|, i requires 0 <= i < |sorted| => before[perm[i]]);
      PermutedGrid(rows, before, sorted, permuted, perm);
      PermutedShape(columns, rows, before, sorted, permuted, perm, nextId);
      LayoutDistinct(rows, before);
      rows := sorted;
      vals := permuted;
      SortCells();
    }

    /** The value each row's comparisons in sort(columnLabel, type,
        comparator) use: Row.get(columnLabel) cast to the type. */
    method SortKeys(ci: nat, valueType: ValueType) returns (r: Result<map<Row<R>, Value>, Failure>)
      requires Valid() && ci < |columns|
      ensures r.Ok? <==> AllConform(ColumnValues(vals, ci), valueType)
      ensures r.Ok? ==> forall i :: 0 <= i < |rows| ==> rows[i] in r.value && r.value[rows[i]] == vals[i][ci]
      ensures r.Err? ==> r.error == ClassCast
    {
      var inColumn := (x: Cell<R>) => x.column == ci;
      var column := Cells(inColumn);
      FilterColumn(rows, vals, |columns|, ci, inColumn);
      r := KeyCells(rows, vals, ci, column, valueType);
    }

    /** sort(columnLabel, type, comparator): the rows ordered by their
        values in the column, each cast to the type. With fewer than two
        rows the comparator is never called, so nothing can fail. */
    method SortBy(columnName: string, valueType: ValueType, cmp: (Value, Value) -> int) returns (r: Result<(), Failure>, ghost perm: seq<nat>)
      requires Valid()
      requires FirstColumn(columns, columnName).Some? ==>
        IsComparator(ColumnValues(vals, FirstColumn(columns, columnName).value), cmp)
      modifies this
      ensures Valid() && columns == old(columns) && nextId == old(nextId)
      ensures r.Err? ==> rows == old(rows) && vals == old(vals)
      ensures r == Err(NoSuchLabel) <==> |old(rows)| >= 2 && FirstColumn(columns, columnName).None?
      ensures r == Err(ClassCast) <==>
        && |old(rows)| >= 2 && FirstColumn(columns, columnName).Some?
        && !AllConform(ColumnValues(old(vals), FirstColumn(columns, columnName).value), valueType)
      ensures r.Ok? ==> Rearranged(rows, old(rows), perm)
      ensures r.Ok? ==> |vals| == |rows| && forall i :: 0 <= i < |rows| ==> vals[i] == old(vals)[perm[i]]
      ensures r.Ok? && FirstColumn(columns, columnName).Some? ==>
        SortedOnColumn(vals, perm, FirstColumn(columns, columnName).value, cmp)
    {
      if |rows| < 2 {
        perm := Sort((a: Row<R>, b: Row<R>) => 0);
        return Ok(()), perm;
      }
      var found := ColumnNamed(columnName);
      if found.Err? {
        return Err(NoSuchLabel), [];
      }
      var ci := found.value;
      var lookup := SortKeys(ci, valueType);
      if lookup.Err? {
        return Err(ClassCast), [];
      }
      perm := SortByKeys(ci, lookup.value, cmp);
      r := Ok(());
    }

    /** The rows ordered by the comparator on their keys, the values they
        hold in column ci. */
    method SortByKeys(ci: nat, keys: map<Row<R>, Value>, cmp: (Value, Value) -> int) returns (ghost perm: seq<nat>)
      requires Valid() && ci < |columns|
      requires forall i :: 0 <= i < |rows| ==> rows[i] in keys && keys[rows[i]] == vals[i][ci]
      requires IsComparator(ColumnValues(vals, ci), cmp)
      modifies this
      ensures Valid() && columns == old(columns) && nextId == old(nextId)
      ensures Rearranged(rows, old(rows), perm)
      ensures |vals| == |rows| && forall i :: 0 <= i < |rows| ==> vals[i] == old(vals)[perm[i]]
      ensures SortedOnColumn(vals, perm, ci, cmp)
    {
      var rs := rows;
      ghost var vs := vals;
      var byValue := (a: Row<R>, b: Row<R>) => if a in keys && b in keys then cmp(keys[a], keys[b]) else 0;
      KeyedComparator(rs, vs, ci, keys, cmp, byValue);
      perm := Sort(byValue);
      KeyedSorted(rs, vs, rows, vals, perm, ci, keys, cmp, byValue);
    }
  }

  /** Sequence.get(index): counts the cells of the sequence and returns the
      index-th, or throws IndexOutOfBoundsException. */
  method NthCell<R>(s: seq<Cell<R>>, index: int) returns (r: Result<Cell<R>, Failure>)
    ensures 0 <= index < |s| ==> r == Ok(s[index])
    ensures !(0 <= index < |s|) ==> r == Err(IndexOutOfBounds)
  {
    var count := 0;
    for k := 0 to |s|
      invariant count == k && !(0 <= index < k)
    {
      if count == index {
        return Ok(s[k]);
      }
      count := count + 1;
    }
    return Err(IndexOutOfBounds);
  }

  /** The loop of sort(columnLabel, type, comparator) that casts each cell of
      the column to the type and records it as its row's key. */
  method KeyCells<R(==)>(ghost rows: seq<Row<R>>, ghost vals: seq<seq<Value>>, ghost ci: nat, column: seq<Cell<R>>, valueType: ValueType)
    returns (r: Result<map<Row<R>, Value>, Failure>)
    requires |rows| == |vals| && DistinctIds(rows) && forall i :: 0 <= i < |vals| ==> ci < |vals[i]|
    requires column == ColumnCells(rows, vals, ci)
    ensures r.Ok? <==> AllConform(ColumnValues(vals, ci), valueType)
    ensures r.Ok? ==> forall i :: 0 <= i < |rows| ==> rows[i] in r.value && r.value[rows[i]] == vals[i][ci]
    ensures r.Err? ==> r.error == ClassCast
  {
    var keys: map<Row<R>, Value> := map[];
    for k := 0 to |column|
      invariant forall i :: 0 <= i < k ==> rows[i] in keys && keys[rows[i]] == vals[i][ci]
      invariant forall i :: 0 <= i < k ==> Conforms(vals[i][ci], valueType)
    {
      var cast := Cast(column[k].value, valueType);
      if cast.Err? {
        assert ColumnValues(vals, ci)[k] == vals[k][ci];
        return Err(ClassCast);
      }
      keys := keys[column[k].row := cast.value];
    }
    return Ok(keys);
  }

  predicate AllConform(vs: seq<Value>, t: ValueType) {
    forall i :: 0 <= i < |vs| ==> Conforms(vs[i], t)
  }

  /** The rows' values in column ci are in comparator order, and rows whose
      values compare equal kept their original relative order (perm[i] is
      the original position of row i). */
  predicate SortedOnColumn(vals: seq<seq<Value>>, perm: seq<nat>, ci: nat, cmp: (Value, Value) -> int) {
    && |perm| == |vals|
    && (forall i :: 0 <= i < |vals| ==> ci < |vals[i]|)
    && (forall i, j :: 0 <= i < j < |vals| ==> cmp(vals[i][ci], vals[j][ci]) <= 0)
    && (forall i, j :: 0 <= i < j < |vals| && cmp(vals[i][ci], vals[j][ci]) == 0 ==> perm[i] < perm[j])
  }

  /** Comparing rows by their keys honours the comparator contract when the
      comparator does on the keys. */
  lemma KeyedComparator<R>(rows: seq<Row<R>>, vals: seq<seq<Value>>, ci: nat, keys: map<Row<R>, Value>,
                           cmp: (Value, Value) -> int, byValue: (Row<R>, Row<R>) -> int)
    requires |rows| == |vals| && forall r :: 0 <= r < |vals| ==> ci < |vals[r]|
    requires forall i :: 0 <= i < |rows| ==> rows[i] in keys && keys[rows[i]] == vals[i][ci]
    requires IsComparator(ColumnValues(vals, ci), cmp)
    requires forall a, b :: byValue(a, b) == (if a in keys && b in keys then cmp(keys[a], keys[b]) else 0)
    ensures IsComparator(rows, byValue)
  {
    var column := ColumnValues(vals, ci);
    assert forall a :: a in rows ==> a in keys && keys[a] in column by {
      forall a | a in rows
        ensures a in keys && keys[a] in column
      {
        var i :| 0 <= i < |rows| && rows[i] == a;
        assert column[i] == keys[a];
      }
    }
  }

  /** Rows sorted by their keys have their column values sorted. */
  lemma KeyedSorted<R>(rows: seq<Row<R>>, vals: seq<seq<Value>>, rows': seq<Row<R>>, vals': seq<seq<Value>>, perm: seq<nat>,
                       ci: nat, keys: map<Row<R>, Value>, cmp: (Value, Value) -> int, byValue: (Row<R>, Row<R>) -> int)
    requires |rows| == |vals| && forall r :: 0 <= r < |vals| ==> ci < |vals[r]|
    requires forall i :: 0 <= i < |rows| ==> rows[i] in keys && keys[rows[i]] == vals[i][ci]
    requires forall a, b :: byValue(a, b) == (if a in keys && b in keys then cmp(keys[a], keys[b]) else 0)
    requires Rearranged(rows', rows, perm) && Sorted(rows', byValue) && Stable(rows', perm, byValue)
    requires |vals'| == |rows'| && forall i :: 0 <= i < |rows'| ==> vals'[i] == vals[perm[i]]
    ensures SortedOnColumn(vals', perm, ci, cmp)
  {
    forall i, j | 0 <= i < j < |rows'|
      ensures byValue(rows'[i], rows'[j]) == cmp(vals'[i][ci], vals'[j][ci])
    {
      assert rows'[i] == rows[perm[i]] && rows'[j] == rows[perm[j]];
    }
  }

  // ---------------------------------------------------------------------
  // Properties of get and set

  /** After a successful set, get at the same labels finds the new value. */
  lemma SetThenGet<R>(columns: seq<Column>, rows: seq<Row<R>>, vals: seq<seq<Value>>, rowName: R, columnName: string, v: Value)
    requires |rows| == |vals| && Rectangular(vals, |columns|)
    requires Assign(columns, rows, vals, rowName, columnName, v).Ok?
    ensures var vals' := Assign(columns, rows, vals, rowName, columnName, v).value;
      && |vals'| == |rows| && Rectangular(vals', |columns|)
      && Lookup(columns, rows, vals', rowName, columnName).Ok?
      && Lookup(columns, rows, vals', rowName, columnName).value.value == v
  {
  }

  /** set changes the one cell it addresses and no other. */
  lemma SetChangesOneCell<R>(columns: seq<Column>, rows: seq<Row<R>>, vals: seq<seq<Value>>, rowName: R, columnName: string, v: Value)
    requires |rows| == |vals| && Rectangular(vals, |columns|)
    requires Assign(columns, rows, vals, rowName, columnName, v).Ok?
    ensures var vals' := Assign(columns, rows, vals, rowName, columnName, v).value;
      var ri, ci := FirstRow(rows, rowName).value, FirstColumn(columns, columnName).value;
      && |vals'| == |vals|
      && forall i, c :: 0 <= i < |vals| && 0 <= c < |columns| && (i != ri || c != ci) ==> vals'[i][c] == vals[i][c]
  {
  }

  /** Null passes every column's cast; any other value passes exactly when
      it has the column's type. */
  lemma SetTypeChecked<R>(columns: seq<Column>, rows: seq<Row<R>>, vals: seq<seq<Value>>, rowName: R, columnName: string, v: Value)
    requires |rows| == |vals| && Rectangular(vals, |columns|)
    requires FirstColumn(columns, columnName).Some? && FirstRow(rows, rowName).Some?
    ensures Assign(columns, rows, vals, rowName, columnName, Null).Ok?
    ensures Assign(columns, rows, vals, rowName, columnName, v) == Err(ClassCast) <==>
      !v.Null? && TypeOf(v) != Some(columns[FirstColumn(columns, columnName).value].valueType)
  {
  }

  /** set fails on a missing label exactly when get does. */
  lemma SetMissingLabel<R>(columns: seq<Column>, rows: seq<Row<R>>, vals: seq<seq<Value>>, rowName: R, columnName: string, v: Value)
    requires |rows| == |vals| && Rectangular(vals, |columns|)
    ensures Assign(columns, rows, vals, rowName, columnName, v) == Err(NoSuchLabel) <==>
      Lookup(columns, rows, vals, rowName, columnName) == Err(NoSuchLabel)
    ensures Lookup(columns, rows, vals, rowName, columnName) == Err(NoSuchLabel) <==>
      (exists i :: 0 <= i < |columns| && columns[i].name == columnName) ==> forall r :: 0 <= r < |rows| ==> rows[r].name != rowName
  {
  }
}
