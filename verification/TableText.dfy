/** The flat text form of a table: cells end at a tab or newline, rows at a newline. What is in such a text, read row
    by row, and where its cells start. */
module TableText {
  import opened Sequences
  import opened Wrappers

  predicate Sep(c: char) {
    c == '\t' || c == '\n'
  }

  predicate Plain(cell: string) {
    forall i :: 0 <= i < |cell| ==> !Sep(cell[i])
  }

  // ---- reading a text as a list of rows

  /** Complete rows, the complete cells of the row being read, and the cell being read. */
  datatype Reader = Reader(rows: Table, cells: Row, cell: string)

  function Read1(s: Reader, c: char): Reader {
    if c == '\t' then Reader(s.rows, s.cells + [s.cell], "")
    else if c == '\n' then Reader(s.rows + [s.cells + [s.cell]], [], "")
    else Reader(s.rows, s.cells, s.cell + [c])
  }

  function Read(s: Reader, text: string): Reader {
    if text == "" then s else Read1(Read(s, text[..|text| - 1]), text[|text| - 1])
  }

  const START := Reader([], [], "")

  /** The rows of a text; an unfinished last row does not count. */
  function Rows(text: string): Table {
    Read(START, text).rows
  }

  predicate EndsLine(text: string) {
    |text| > 0 && text[|text| - 1] == '\n'
  }

  predicate EndsCell(text: string) {
    |text| > 0 && Sep(text[|text| - 1])
  }

  lemma {:induction false} ReadSplit(s: Reader, a: string, b: string)
    ensures Read(s, a + b) == Read(Read(s, a), b)
  {
    if b == "" {
      assert a + b == a;
    } else {
      var c := |b| - 1;
      assert (a + b)[..|a| + c] == a + b[..c] && (a + b)[|a| + c] == b[c];
      ReadSplit(s, a, b[..c]);
    }
  }

  /** Rows already read stay where they are. */
  lemma {:induction false} ReadAppends(rows: Table, s: Reader, text: string)
    ensures Read(Reader(rows + s.rows, s.cells, s.cell), text)
      == Reader(rows + Read(s, text).rows, Read(s, text).cells, Read(s, text).cell)
  {
    if text != "" {
      ReadAppends(rows, s, text[..|text| - 1]);
      var r := Read(s, text[..|text| - 1]);
      assert rows + (r.rows + [r.cells + [r.cell]]) == rows + r.rows + [r.cells + [r.cell]];
    }
  }

  /** A block after complete lines adds exactly its own rows. */
  lemma RowsAppend(a: string, b: string)
    requires a == "" || EndsLine(a)
    ensures Rows(a + b) == Rows(a) + Rows(b)
  {
    ReadSplit(START, a, b);
    assert Read(START, a) == Reader(Rows(a), [], "");
    assert Rows(a) + START.rows == Rows(a);
    ReadAppends(Rows(a), START, b);
  }

  // ---- writing a list of rows

  function Cells(row: Row): string {
    if row == [] then "" else Cells(row[..|row| - 1]) + row[|row| - 1] + "\t"
  }

  /** The cells joined by tabs, then a newline. */
  function RowText(row: Row): string {
    if row == [] then "\n" else Cells(row[..|row| - 1]) + row[|row| - 1] + "\n"
  }

  function Text(rows: Table): string {
    if rows == [] then "" else Text(rows[..|rows| - 1]) + RowText(rows[|rows| - 1])
  }

  lemma {:induction false} RowTextIs(row: Row)
    ensures RowText(row) == Joined(row, '\t') + "\n"
  {
    if row != [] {
      CellsAre(row[..|row| - 1]);
      if |row| > 1 {
        assert Cells(row[..|row| - 1]) + row[|row| - 1] + "\n" == Joined(row, '\t') + "\n";
      } else {
        assert row[..0] == [] && "" + row[0] + "\n" == row[0] + "\n";
      }
    }
  }

  lemma {:induction false} CellsAre(row: Row)
    ensures row != [] ==> Cells(row) == Joined(row, '\t') + "\t"
  {
    if |row| > 1 {
      CellsAre(row[..|row| - 1]);
    } else if |row| == 1 {
      assert row[..0] == [] && "" + row[0] + "\t" == row[0] + "\t";
    }
  }

  predicate PlainRow(row: Row) {
    forall c :: 0 <= c < |row| ==> Plain(row[c])
  }

  predicate WellFormed(rows: Table, cols: nat) {
    forall r :: 0 <= r < |rows| ==> |rows[r]| == cols && PlainRow(rows[r])
  }

  lemma TextSnoc(rows: Table, row: Row)
    ensures Text(rows + [row]) == Text(rows) + RowText(row)
  {
    assert (rows + [row])[..|rows|] == rows;
  }

  lemma CellsSnoc(row: Row, cell: string)
    ensures Cells(row + [cell]) == Cells(row) + cell + "\t"
    ensures RowText(row + [cell]) == Cells(row) + cell + "\n"
  {
    assert (row + [cell])[..|row|] == row;
  }

  lemma {:induction false} TextSplit(a: Table, b: Table)
    ensures Text(a + b) == Text(a) + Text(b)
  {
    if b == [] {
      assert a + b == a && Text(a) + "" == Text(a);
    } else {
      hide RowText;
      hide Text;
      var n := |b| - 1;
      TextSplit(a, b[..n]);
      TextSnoc(a + b[..n], b[n]);
      TextSnoc(b[..n], b[n]);
      SplitLast(b);
      Assoc(a, b[..n], [b[n]]);
      Assoc(Text(a), Text(b[..n]), RowText(b[n]));
    }
  }

  lemma {:induction false} ReadPlain(s: Reader, cell: string)
    requires Plain(cell)
    ensures Read(s, cell) == Reader(s.rows, s.cells, s.cell + cell)
  {
    if cell == "" {
      assert s.cell + cell == s.cell;
    } else {
      var n := |cell| - 1;
      ReadPlain(s, cell[..n]);
      assert s.cell + cell[..n] + [cell[n]] == s.cell + cell;
    }
  }

  lemma ReadEnd(s: Reader, before: string, cell: string, end: string)
    requires Plain(cell) && |end| == 1
    ensures Read(s, before + cell + end)
      == Read1(Reader(Read(s, before).rows, Read(s, before).cells, Read(s, before).cell + cell), end[0])
  {
    ReadSplit(s, before, cell);
    ReadPlain(Read(s, before), cell);
    ReadSplit(s, before + cell, end);
    assert end[..0] == "";
  }

  lemma {:induction false} ReadCells(row: Row)
    requires PlainRow(row)
    ensures Read(START, Cells(row)) == Reader([], row, "")
  {
    if row != [] {
      var n := |row| - 1;
      ReadCells(row[..n]);
      ReadEnd(START, Cells(row[..n]), row[n], "\t");
      assert "" + row[n] == row[n] && row[..n] + [row[n]] == row;
    }
  }

  lemma RowsOfRow(row: Row)
    requires |row| > 0 && PlainRow(row)
    ensures Rows(RowText(row)) == [row] && EndsLine(RowText(row))
  {
    var n := |row| - 1;
    ReadCells(row[..n]);
    ReadEnd(START, Cells(row[..n]), row[n], "\n");
    assert "" + row[n] == row[n] && row[..n] + [row[n]] == row;
  }

  /** What was written is what is read. */
  lemma {:induction false} RowsText(rows: Table, cols: nat)
    requires WellFormed(rows, cols) && cols > 0
    ensures Rows(Text(rows)) == rows && (rows != [] ==> EndsLine(Text(rows)))
  {
    if rows != [] {
      hide Text;
      hide Rows;
      hide RowText;
      hide PlainRow;
      var n := |rows| - 1;
      RowsText(rows[..n], cols);
      RowsOfRow(rows[n]);
      SplitLast(rows);
      TextSnoc(rows[..n], rows[n]);
      NoText();
      RowsAppend(Text(rows[..n]), RowText(rows[n]));
    }
  }

  lemma NoText()
    ensures Text([]) == ""
  {
  }

  /** The text a reader has read. */
  function Written(s: Reader): string {
    Text(s.rows) + Cells(s.cells) + s.cell
  }

  lemma WrittenStep(s: Reader, c: char)
    ensures Written(Read1(s, c)) == Written(s) + [c]
  {
    hide Text;
    hide Cells;
    hide RowText;
    if c == '\t' {
      CellsSnoc(s.cells, s.cell);
      TabWritten(Text(s.rows), Cells(s.cells), s.cell);
    } else if c == '\n' {
      var row := s.cells + [s.cell];
      CellsSnoc(s.cells, s.cell);
      TextSnoc(s.rows, row);
      NoCells();
      LineWritten(Text(s.rows), Cells(s.cells), s.cell);
    } else {
      Assoc(Text(s.rows) + Cells(s.cells), s.cell, [c]);
    }
  }

  lemma NoCells()
    ensures Cells([]) == ""
  {
  }

  lemma TabWritten(text: string, cells: string, cell: string)
    ensures text + (cells + cell + "\t") + "" == text + cells + cell + ['\t']
  {
  }

  lemma LineWritten(text: string, cells: string, cell: string)
    ensures text + (cells + cell + "\n") + "" + "" == text + cells + cell + ['\n']
  {
  }

  lemma {:induction false} ReadIsWritten(text: string)
    ensures Written(Read(START, text)) == text
  {
    if text != "" {
      hide Written;
      hide Read1;
      ReadIsWritten(text[..|text| - 1]);
      WrittenStep(Read(START, text[..|text| - 1]), text[|text| - 1]);
      SplitLast(text);
    }
  }

  /** Any text that ends in a newline is the text of its rows. */
  lemma TextRows(text: string)
    requires text == "" || EndsLine(text)
    ensures Text(Rows(text)) == text
  {
    ReadIsWritten(text);
    assert Text(Rows(text)) + "" + "" == Text(Rows(text));
  }

  // ---- where the cells start

  /** Where cells start: at the beginning, and after each separator. */
  function Opened(text: string): (r: seq<nat>)
    ensures |r| > 0
  {
    if text == "" then [0]
    else Opened(text[..|text| - 1]) + if Sep(text[|text| - 1]) then [|text|] else []
  }

  /** The start of the cell being read. */
  function TailStart(text: string): nat {
    Opened(text)[|Opened(text)| - 1]
  }

  /** Where the complete cells start, which is what the index of a table holds. */
  function Starts(text: string): seq<nat> {
    Opened(text)[..|Opened(text)| - 1]
  }

  function Newlines(text: string): nat {
    if text == "" then 0 else Newlines(text[..|text| - 1]) + if text[|text| - 1] == '\n' then 1 else 0
  }

  lemma {:induction false} OpenedGrows(a: string, b: string)
    ensures Opened(a) <= Opened(a + b)
  {
    if b == "" {
      assert a + b == a;
    } else {
      var n := |b| - 1;
      assert (a + b)[..|a| + n] == a + b[..n];
      OpenedGrows(a, b[..n]);
    }
  }

  /** The starts strictly increase and lie within the text. */
  lemma {:induction false} OpenedIncreases(text: string)
    ensures forall i :: 0 <= i < |Opened(text)| ==> Opened(text)[i] <= |text|
    ensures forall i, j :: 0 <= i < j < |Opened(text)| ==> Opened(text)[i] < Opened(text)[j]
  {
    if text != "" {
      OpenedIncreases(text[..|text| - 1]);
    }
  }

  lemma {:induction false} NewlinesAreRows(text: string)
    ensures Newlines(text) == |Rows(text)|
  {
    if text != "" {
      NewlinesAreRows(text[..|text| - 1]);
    }
  }

  lemma {:induction false} NewlinesSplit(a: string, b: string)
    ensures Newlines(a + b) == Newlines(a) + Newlines(b)
  {
    if b == "" {
      assert a + b == a;
    } else {
      var n := |b| - 1;
      assert (a + b)[..|a| + n] == a + b[..n];
      NewlinesSplit(a, b[..n]);
    }
  }

  // ---- the index and the rows agree

  /** All complete cells read, in order. */
  function Complete(s: Reader): seq<string> {
    Flatten(s.rows) + s.cells
  }

  lemma CompleteStep(s: Reader, c: char)
    ensures Complete(Read1(s, c)) == if Sep(c) then Complete(s) + [s.cell] else Complete(s)
  {
    hide Flatten;
    if c == '\n' {
      FlattenSnoc(s.rows, s.cells + [s.cell]);
    }
    Assoc(Flatten(s.rows), s.cells, [s.cell]);
  }

  /** The `k`-th complete cell stands in the text where the `k`-th start says, followed by a separator. */
  predicate CellAt(text: string, start: nat, cell: string) {
    start + |cell| < |text| && text[start..start + |cell|] == cell && Sep(text[start + |cell|]) && Plain(cell)
  }

  predicate Indexed(text: string, starts: seq<nat>, cells: seq<string>) {
    |starts| == |cells| && forall k :: 0 <= k < |cells| ==> CellAt(text, starts[k], cells[k])
  }

  predicate TailAt(text: string, start: nat, cell: string) {
    start + |cell| == |text| && text[start..] == cell && Plain(cell)
  }

  lemma StillIndexed(text: string, c: char, starts: seq<nat>, cells: seq<string>)
    requires Indexed(text, starts, cells)
    ensures Indexed(text + [c], starts, cells)
  {
    forall k | 0 <= k < |cells| ensures CellAt(text + [c], starts[k], cells[k]) {
      assert CellAt(text, starts[k], cells[k]);
      assert text[starts[k]..starts[k] + |cells[k]|] == (text + [c])[starts[k]..starts[k] + |cells[k]|];
    }
  }

  lemma TailDone(text: string, c: char, start: nat, cell: string)
    requires TailAt(text, start, cell)
    ensures Sep(c) ==> CellAt(text + [c], start, cell) && TailAt(text + [c], |text| + 1, "")
    ensures !Sep(c) ==> TailAt(text + [c], start, cell + [c])
  {
    assert (text + [c])[start..] == text[start..] + [c];
    assert (text + [c])[start..start + |cell|] == text[start..];
  }

  lemma StartsStep(text: string, c: char)
    ensures Starts(text + [c]) == if Sep(c) then Starts(text) + [TailStart(text)] else Starts(text)
    ensures TailStart(text + [c]) == if Sep(c) then |text| + 1 else TailStart(text)
  {
    assert (text + [c])[..|text|] == text;
  }

  lemma {:induction false} CellsAreIndexed(text: string)
    ensures Indexed(text, Starts(text), Complete(Read(START, text)))
    ensures TailAt(text, TailStart(text), Read(START, text).cell)
  {
    if text != "" {
      hide Complete;
      hide Starts;
      hide TailStart;
      hide CellAt;
      var before, c := text[..|text| - 1], text[|text| - 1];
      var s := Read(START, before);
      CellsAreIndexed(before);
      CompleteStep(s, c);
      SplitLast(text);
      StartsStep(before, c);
      StillIndexed(before, c, Starts(before), Complete(s));
      TailDone(before, c, TailStart(before), s.cell);
    }
  }

  lemma {:induction false} FlatAt(rows: Table, cols: nat, r: nat, c: nat)
    requires r < |rows| && c < cols && forall k :: 0 <= k < |rows| ==> |rows[k]| == cols
    ensures |Flatten(rows)| == |rows| * cols && 0 <= r * cols + c < |Flatten(rows)|
    ensures Flatten(rows)[r * cols + c] == rows[r][c]
  {
    var n := |rows| - 1;
    FlatLength(rows, cols);
    FlatLength(rows[..n], cols);
    RowBounds(r, |rows|, c, cols);
    if r < n {
      FlatAt(rows[..n], cols, r, c);
    }
  }

  lemma {:induction false} FlatLength(rows: Table, cols: nat)
    requires forall k :: 0 <= k < |rows| ==> |rows[k]| == cols
    ensures |Flatten(rows)| == |rows| * cols
  {
    if rows != [] {
      FlatLength(rows[..|rows| - 1], cols);
      assert |rows| * cols == (|rows| - 1) * cols + cols;
    }
  }

  lemma RowBounds(r: nat, rows: nat, c: nat, cols: nat)
    requires r < rows && c < cols
    ensures 0 <= r * cols + c < rows * cols
  {
    assert rows * cols == r * cols + cols + (rows - r - 1) * cols;
  }

  predicate Rectangular(text: string, cols: nat) {
    forall r :: 0 <= r < |Rows(text)| ==> |Rows(text)[r]| == cols
  }

  /** The index entry `row * cols + col` is where that cell is. */
  lemma CellIndexed(text: string, cols: nat, row: nat, col: nat)
    requires EndsLine(text) && Rectangular(text, cols) && row < |Rows(text)| && col < cols
    ensures |Starts(text)| == |Rows(text)| * cols && 0 <= row * cols + col < |Starts(text)|
    ensures CellAt(text, Starts(text)[row * cols + col], Rows(text)[row][col])
  {
    CellsAreIndexed(text);
    FlatAt(Rows(text), cols, row, col);
    assert Complete(Read(START, text)) == Flatten(Rows(text));
  }

  /** A row starts where the text of the rows before it ends. */
  lemma RowIndexed(text: string, cols: nat, row: nat)
    requires EndsLine(text) && Rectangular(text, cols) && row < |Rows(text)| && 0 < cols
    ensures 0 <= row * cols < |Starts(text)| && Starts(text)[row * cols] == |Text(Rows(text)[..row])|
  {
    hide Opened;
    hide Text;
    hide Rows;
    hide PlainRow;
    hide CellAt;
    var rows := Rows(text);
    var first, rest := rows[..row], rows[row..];
    CellIndexed(text, cols, row, 0);
    TextRows(text);
    SplitAt(rows, row);
    TextSplit(first, rest);
    PlainRows(text);
    StartsAfter(first, Text(rest), cols);
  }

  /** The cell after a complete table starts where the table ends. */
  lemma StartsAfter(rows: Table, more: string, cols: nat)
    requires WellFormed(rows, cols) && 0 < cols
    ensures |Opened(Text(rows) + more)| > |rows| * cols && Opened(Text(rows) + more)[|rows| * cols] == |Text(rows)|
  {
    var text := Text(rows);
    RowsText(rows, cols);
    CellsAreIndexed(text);
    FlatLength(rows, cols);
    OpenedGrows(text, more);
    NoText();
    if rows != [] {
    }
    assert Complete(Read(START, text)) == Flatten(rows);
    assert Opened(text)[|rows| * cols] == TailStart(text);
  }

  predicate PlainReader(s: Reader) {
    (forall r :: 0 <= r < |s.rows| ==> PlainRow(s.rows[r])) && PlainRow(s.cells) && Plain(s.cell)
  }

  lemma {:induction false} PlainRead(text: string)
    ensures PlainReader(Read(START, text))
  {
    if text != "" {
      PlainRead(text[..|text| - 1]);
    }
  }

  lemma PlainRows(text: string)
    ensures forall r :: 0 <= r < |Rows(text)| ==> PlainRow(Rows(text)[r])
  {
    PlainRead(text);
  }

  /** Between two row starts is the text of the rows in between. */
  lemma Slice(text: string, from: nat, to: nat)
    requires EndsLine(text) && from <= to <= |Rows(text)|
    ensures var rows := Rows(text);
      |Text(rows[..from])| <= |Text(rows[..to])| <= |text|
      && text[|Text(rows[..from])|..|Text(rows[..to])|] == Text(rows[from..to])
      && (to == |rows| ==> |Text(rows[..to])| == |text|)
  {
    var rows := Rows(text);
    TextRows(text);
    assert rows == rows[..to] + rows[to..] && rows[..to] == rows[..from] + rows[from..to];
    TextSplit(rows[..to], rows[to..]);
    TextSplit(rows[..from], rows[from..to]);
    if to == |rows| {
      assert rows[..to] == rows;
    }
  }
}
