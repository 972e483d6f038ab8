/** CSVTablePrinter: writes a table as comma-separated values. The header
    line holds the quoted column labels; every row follows on its own line,
    introduced by a line feed. Cells of String columns are quoted, other
    cells are written bare, and nothing is ever escaped, so the output is
    not RFC 4180: there is no quote doubling (section 2, rule 7) and lines
    end in LF rather than CRLF (section 2, rule 1). */
module CsvPrinter {
  import opened Values
  import opened Tables

  /** "\"" + text + "\"": quotes around the text, nothing escaped. */
  function Quoted(s: string): string {
    "\"" + s + "\""
  }

  /** print(Cell): a String column's cell is quoted, and a null there reads
      "null"; any other cell goes through print(Object), which writes
      nothing for null. */
  function CellText(valueType: ValueType, v: Value, doubleText: real -> string): string {
    if valueType == StringType then Quoted(Text(v, doubleText))
    else if v.Null? then ""
    else Text(v, doubleText)
  }

  /** The parts written one after another with a separator before every
      part but the first. */
  function JoinedBy(parts: seq<string>, sep: char): string {
    if parts == [] then ""
    else
      var n := |parts| - 1;
      JoinedBy(parts[..n], sep) + (if n > 0 then [sep] else []) + parts[n]
  }

  function HeaderFields(columns: seq<Column>): seq<string> {
    seq(|columns|, i requires 0 <= i < |columns| => Quoted(columns[i].name))
  }

  function RowFields(columns: seq<Column>, vs: seq<Value>, doubleText: real -> string): seq<string>
    requires |vs| == |columns|
  {
    seq(|columns|, i requires 0 <= i < |columns| => CellText(columns[i].valueType, vs[i], doubleText))
  }

  function Header(columns: seq<Column>): string {
    JoinedBy(HeaderFields(columns), ',')
  }

  function Line(columns: seq<Column>, vs: seq<Value>, doubleText: real -> string): string
    requires |vs| == |columns|
  {
    JoinedBy(RowFields(columns, vs, doubleText), ',')
  }

  function Lines(columns: seq<Column>, vals: seq<seq<Value>>, doubleText: real -> string): seq<string>
    requires Rectangular(vals, |columns|)
  {
    seq(|vals|, r requires 0 <= r < |vals| => Line(columns, vals[r], doubleText))
  }

  /** The text print(Table) writes: the header, then a line feed and a line
      for each row. */
  function Csv(columns: seq<Column>, vals: seq<seq<Value>>, doubleText: real -> string): string
    requires Rectangular(vals, |columns|)
  {
    JoinedBy([Header(columns)] + Lines(columns, vals, doubleText), '\n')
  }

  class CsvTablePrinter {
    /** Everything written to the printer's writer so far. */
    var written: string

    constructor ()
      ensures written == ""
    {
      written := "";
    }

    /** print(Table): writes the header, then a line feed and each row's
        cells in column order. */
    method Print<R(==)>(table: Table<R>, doubleText: real -> string)
      requires table.Valid()
      modifies this
      ensures written == old(written) + Csv(table.columns, table.vals, doubleText)
    {
      var text := TableText(table, doubleText);
      written := written + text;
    }
  }

  /** The characters print(Table) writes, in the order it writes them. */
  method TableText<R(==)>(table: Table<R>, doubleText: real -> string) returns (text: string)
    requires table.Valid()
    ensures text == Csv(table.columns, table.vals, doubleText)
  {
    var columns := table.columns;
    text := HeaderText(columns);
    var rows := table.rows;
    ghost var vals := table.vals;
    PrintedNone(columns, vals, doubleText);
    for r := 0 to |rows|
      invariant text == Printed(columns, vals, r, doubleText)
    {
      var line := RowLine(table, r, doubleText);
      PrintedSnoc(columns, vals, r, doubleText);
      text := text + "\n" + line;
    }
    assert vals[..|rows|] == vals;
  }

  /** The header loop of print(Table): the quoted labels, each after a
      comma unless it is the first. */
  method HeaderText(columns: seq<Column>) returns (text: string)
    ensures text == Header(columns)
  {
    ghost var fields := HeaderFields(columns);
    text := "";
    for i := 0 to |columns|
      invariant text == JoinedBy(fields[..i], ',')
    {
      JoinedSnoc(fields, i, ',');
      if i > 0 {
        text := text + ",";
      }
      text := text + Quoted(columns[i].name);
    }
    assert fields[..|columns|] == fields;
  }

  /** The inner loop of print(Table) for row r: the row's cells, which
      Row.iterator yields in column order, each after a comma unless it is
      in the first column. */
  method RowLine<R(==)>(table: Table<R>, r: nat, doubleText: real -> string) returns (line: string)
    requires table.Valid() && r < |table.rows|
    ensures line == Line(table.columns, table.vals[r], doubleText)
  {
    var columns := table.columns;
    ghost var vs := table.vals[r];
    var row := table.rows[r];
    var inRow := (x: Cell<R>) => x.row == row;
    var cs := table.Cells(inRow);
    FilterRow(table.rows, table.vals, r, inRow);
    ghost var fields := RowFields(columns, vs, doubleText);
    line := "";
    for k := 0 to |cs|
      invariant line == JoinedBy(fields[..k], ',')
    {
      JoinedSnoc(fields, k, ',');
      assert fields[k] == CellText(columns[cs[k].column].valueType, cs[k].value, doubleText);
      if cs[k].column > 0 {
        line := line + ",";
      }
      line := line + CellText(columns[cs[k].column].valueType, cs[k].value, doubleText);
    }
    assert fields[..|cs|] == fields;
  }

  lemma JoinedSnoc(parts: seq<string>, k: nat, sep: char)
    requires k < |parts|
    ensures JoinedBy(parts[..k + 1], sep) == JoinedBy(parts[..k], sep) + (if k > 0 then [sep] else []) + parts[k]
  {
    assert parts[..k + 1][..k] == parts[..k];
  }

  /** What print(Table) has written once it has printed the first r rows. */
  function Printed(columns: seq<Column>, vals: seq<seq<Value>>, r: nat, doubleText: real -> string): string
    requires Rectangular(vals, |columns|) && r <= |vals|
  {
    JoinedBy([Header(columns)] + Lines(columns, vals[..r], doubleText), '\n')
  }

  lemma PrintedNone(columns: seq<Column>, vals: seq<seq<Value>>, doubleText: real -> string)
    requires Rectangular(vals, |columns|)
    ensures Printed(columns, vals, 0, doubleText) == Header(columns)
  {
    var parts := [Header(columns)] + Lines(columns, vals[..0], doubleText);
    assert parts == [Header(columns)];
    assert parts[..0] == [];
    assert JoinedBy(parts, '\n') == JoinedBy(parts[..0], '\n') + parts[0];
  }

  lemma PrintedSnoc(columns: seq<Column>, vals: seq<seq<Value>>, r: nat, doubleText: real -> string)
    requires Rectangular(vals, |columns|) && r < |vals|
    ensures Printed(columns, vals, r + 1, doubleText) == Printed(columns, vals, r, doubleText) + "\n" + Line(columns, vals[r], doubleText)
  {
    var before := [Header(columns)] + Lines(columns, vals[..r], doubleText);
    LinesSnoc(columns, vals, r, doubleText);
    var after := before + [Line(columns, vals[r], doubleText)];
    assert after == [Header(columns)] + Lines(columns, vals[..r + 1], doubleText);
    JoinedSnoc(after, |before|, '\n');
    assert after[..|before|] == before;
    assert after[..|before| + 1] == after;
  }

  lemma LinesSnoc(columns: seq<Column>, vals: seq<seq<Value>>, r: nat, doubleText: real -> string)
    requires Rectangular(vals, |columns|) && r < |vals|
    ensures Lines(columns, vals[..r + 1], doubleText) == Lines(columns, vals[..r], doubleText) + [Line(columns, vals[r], doubleText)]
  {
  }

  // ---------------------------------------------------------------------
  // Reading the text back

  /** The position of the last sep in s. */
  function LastIndex(s: string, sep: char): (i: nat)
    requires sep in s
    ensures i < |s| && s[i] == sep
    ensures forall j :: i < j < |s| ==> s[j] != sep
  {
    if s[|s| - 1] == sep then |s| - 1
    else
      assert sep in s[..|s| - 1];
      LastIndex(s[..|s| - 1], sep)
  }

  /** The pieces of s between the occurrences of sep. */
  function Split(s: string, sep: char): (parts: seq<string>)
    ensures |parts| >= 1
    decreases |s|
  {
    if sep !in s then [s]
    else
      var i := LastIndex(s, sep);
      Split(s[..i], sep) + [s[i + 1..]]
  }

  lemma LastIndexAfter(a: string, sep: char, x: string)
    requires sep !in x
    ensures sep in a + [sep] + x && LastIndex(a + [sep] + x, sep) == |a|
  {
    var s := a + [sep] + x;
    assert s[|a|] == sep;
    var i := LastIndex(s, sep);
    assert forall j :: |a| < j < |s| ==> s[j] == x[j - |a| - 1];
  }

  /** Splitting at the separator recovers the parts when none contains it. */
  lemma {:induction false} SplitJoined(parts: seq<string>, sep: char)
    requires |parts| >= 1
    requires forall i :: 0 <= i < |parts| ==> sep !in parts[i]
    ensures Split(JoinedBy(parts, sep), sep) == parts
  {
    var n := |parts| - 1;
    if n == 0 {
      assert JoinedBy(parts, sep) == parts[0];
    } else {
      var front := JoinedBy(parts[..n], sep);
      assert JoinedBy(parts, sep) == front + [sep] + parts[n];
      LastIndexAfter(front, sep, parts[n]);
      var s := front + [sep] + parts[n];
      assert s[..|front|] == front;
      assert s[|front| + 1..] == parts[n];
      SplitJoined(parts[..n], sep);
      assert parts == parts[..n] + [parts[n]];
    }
  }

  /** The occurrences of ch in s. */
  function Count(s: string, ch: char): nat {
    if s == [] then 0 else Count(s[..|s| - 1], ch) + (if s[|s| - 1] == ch then 1 else 0)
  }

  lemma {:induction false} CountAppend(a: string, b: string, ch: char)
    ensures Count(a + b, ch) == Count(a, ch) + Count(b, ch)
    decreases |b|
  {
    if b == [] {
      assert a + b == a;
    } else {
      var n := |b| - 1;
      assert (a + b)[..|a + b| - 1] == a + b[..n];
      CountAppend(a, b[..n], ch);
    }
  }

  lemma {:induction false} CountAbsent(s: string, ch: char)
    requires ch !in s
    ensures Count(s, ch) == 0
  {
    if s != [] {
      assert ch !in s[..|s| - 1];
      CountAbsent(s[..|s| - 1], ch);
    }
  }

  /** Joining n parts that do not contain the separator writes it n - 1 times. */
  lemma {:induction false} CountJoined(parts: seq<string>, sep: char)
    requires |parts| >= 1
    requires forall i :: 0 <= i < |parts| ==> sep !in parts[i]
    ensures Count(JoinedBy(parts, sep), sep) == |parts| - 1
  {
    var n := |parts| - 1;
    CountAbsent(parts[n], sep);
    if n == 0 {
      assert JoinedBy(parts, sep) == parts[0];
    } else {
      var front := JoinedBy(parts[..n], sep);
      assert JoinedBy(parts, sep) == front + [sep] + parts[n];
      CountJoined(parts[..n], sep);
      CountAppend(front, [sep], sep);
      CountAppend(front + [sep], parts[n], sep);
      assert Count([sep], sep) == Count([], sep) + 1;
    }
  }

  // ---------------------------------------------------------------------
  // Properties of the text

  /** No label and no value's text contains ch. */
  ghost predicate Free(columns: seq<Column>, vals: seq<seq<Value>>, doubleText: real -> string, ch: char)
    requires Rectangular(vals, |columns|)
  {
    && (forall c :: 0 <= c < |columns| ==> ch !in columns[c].name)
    && (forall r, c :: 0 <= r < |vals| && 0 <= c < |columns| ==> ch !in Text(vals[r][c], doubleText))
  }

  lemma FieldsFree(columns: seq<Column>, vals: seq<seq<Value>>, doubleText: real -> string, ch: char)
    requires Rectangular(vals, |columns|) && Free(columns, vals, doubleText, ch) && ch != '"'
    ensures forall i :: 0 <= i < |columns| ==> ch !in HeaderFields(columns)[i]
    ensures forall r, i :: 0 <= r < |vals| && 0 <= i < |columns| ==> ch !in RowFields(columns, vals[r], doubleText)[i]
  {
  }

  /** With no line feed in any label or value, the text reads back as the
      header followed by one line per row: rows + 1 lines, no trailing
      line feed. */
  lemma CsvLines(columns: seq<Column>, vals: seq<seq<Value>>, doubleText: real -> string)
    requires Rectangular(vals, |columns|) && Free(columns, vals, doubleText, '\n')
    ensures Split(Csv(columns, vals, doubleText), '\n') == [Header(columns)] + Lines(columns, vals, doubleText)
    ensures |Split(Csv(columns, vals, doubleText), '\n')| == |vals| + 1
  {
    FieldsFree(columns, vals, doubleText, '\n');
    var all := [Header(columns)] + Lines(columns, vals, doubleText);
    forall i | 0 <= i < |all|
      ensures '\n' !in all[i]
    {
      if i == 0 {
        JoinedFree(HeaderFields(columns), ',', '\n');
      } else {
        JoinedFree(RowFields(columns, vals[i - 1], doubleText), ',', '\n');
      }
    }
    SplitJoined(all, '\n');
  }

  lemma {:induction false} JoinedFree(parts: seq<string>, sep: char, ch: char)
    requires sep != ch
    requires forall i :: 0 <= i < |parts| ==> ch !in parts[i]
    ensures ch !in JoinedBy(parts, sep)
  {
    if parts != [] {
      JoinedFree(parts[..|parts| - 1], sep, ch);
    }
  }

  /** With no comma in any label or value, every line has exactly one comma
      fewer than there are columns, and splitting it at the commas gives the
      cells in column order. */
  lemma CsvFields(columns: seq<Column>, vals: seq<seq<Value>>, doubleText: real -> string, r: nat)
    requires Rectangular(vals, |columns|) && Free(columns, vals, doubleText, ',')
    requires |columns| >= 1 && r < |vals|
    ensures Split(Header(columns), ',') == HeaderFields(columns)
    ensures Count(Header(columns), ',') == |columns| - 1
    ensures Split(Line(columns, vals[r], doubleText), ',') == RowFields(columns, vals[r], doubleText)
    ensures Count(Line(columns, vals[r], doubleText), ',') == |columns| - 1
  {
    FieldsFree(columns, vals, doubleText, ',');
    SplitJoined(HeaderFields(columns), ',');
    CountJoined(HeaderFields(columns), ',');
    SplitJoined(RowFields(columns, vals[r], doubleText), ',');
    CountJoined(RowFields(columns, vals[r], doubleText), ',');
  }

  /** A String column's null cell reads "null" in quotes; a null cell of any
      other column is an empty field. */
  lemma NullCells(valueType: ValueType, doubleText: real -> string)
    ensures CellText(StringType, Null, doubleText) == "\"null\""
    ensures valueType != StringType ==> CellText(valueType, Null, doubleText) == ""
  {
  }

  /** Only String cells are quoted: a cell's field starts with a quote
      exactly when its column holds strings (numbers, booleans and nulls
      never start with one). */
  lemma QuotedIffString(valueType: ValueType, v: Value, doubleText: real -> string)
    requires !v.Dbl? || doubleText(v.d) == [] || doubleText(v.d)[0] != '"'
    requires !v.Str? || valueType == StringType
    ensures |CellText(valueType, v, doubleText)| > 0 && CellText(valueType, v, doubleText)[0] == '"' <==> valueType == StringType
  {
    if valueType != StringType && !v.Null? {
      if v.Int? || v.Lng? {
        var s := Text(v, doubleText);
        assert |s| >= 1 && (s[0] == '-' || '0' <= s[0] <= '9');
      }
    }
  }

  /** Nothing is escaped: a label holding a comma is written as it is, so
      even a one-column header reads back as more than one field. */
  lemma NotEscaped(name: string, valueType: ValueType)
    requires ',' in name
    ensures |Split(Header([Column(name, valueType)]), ',')| >= 2
  {
    var fields := HeaderFields([Column(name, valueType)]);
    assert fields == [Quoted(name)];
    assert JoinedBy(fields, ',') == JoinedBy(fields[..0], ',') + Quoted(name);
    assert ',' in Quoted(name) by {
      var k :| 0 <= k < |name| && name[k] == ',';
      assert Quoted(name)[k + 1] == ',';
    }
  }
}
