/** Tables built from tables without copying: joins, selections of rows, selections of columns, and ranges. Each view
    agrees with what it means as a list of rows. */
module Views {
  import opened Wrappers
  import opened TableText
  import opened CsvTable
  import opened Sequences

  datatype View =
    | Base(text: string, cols: nat, offsets: seq<nat>)
    | Joined(sources: seq<View>)
    | Split(source: View, rows: seq<nat>)
    | Extended(refs: seq<ColRef>)
    | Range(source: View, startRow: nat, count: nat)

  datatype ColRef = ColRef(table: View, col: nat)

  // ---- what a view means

  function Pick(t: Table, rows: seq<nat>): (r: Table)
    ensures |r| == |rows| && forall k :: 0 <= k < |rows| && rows[k] < |t| ==> r[k] == t[rows[k]]
  {
    seq(|rows|, k requires 0 <= k < |rows| => if rows[k] < |t| then t[rows[k]] else [])
  }

  function CellOf(t: Table, row: nat, col: nat): string {
    if row < |t| && col < |t[row]| then t[row][col] else ""
  }

  /** `t` with a column of `s` added on the right. */
  function Beside(t: Table, s: Table, col: nat): (r: Table)
    ensures |r| == |t| && forall k :: 0 <= k < |t| ==> r[k] == t[k] + [CellOf(s, k, col)]
  {
    seq(|t|, k requires 0 <= k < |t| => t[k] + [CellOf(s, k, col)])
  }

  function NoColumns(rows: nat): (r: Table)
    ensures |r| == rows && forall k :: 0 <= k < rows ==> r[k] == []
  {
    seq(rows, k => [])
  }

  function Meaning(v: View): Table
    decreases v, 1, 0
  {
    match v
    case Base(text, _, _) => Rows(text)
    case Joined(sources) => JoinMeaning(v, |sources|)
    case Split(source, rows) => Pick(Meaning(source), rows)
    case Extended(refs) => ExtendMeaning(v, |refs|)
    case Range(source, startRow, count) => Between(Meaning(source), startRow, count)
  }

  /** The first `n` sources, one below the other. */
  function JoinMeaning(v: View, n: nat): Table
    requires v.Joined? && n <= |v.sources|
    decreases v, 0, n
  {
    if n == 0 then [] else JoinMeaning(v, n - 1) + Meaning(v.sources[n - 1])
  }

  /** The first `n` columns, side by side. */
  function ExtendMeaning(v: View, n: nat): Table
    requires v.Extended? && n <= |v.refs|
    decreases v, 0, n
  {
    if n == 0 then NoColumns(RowCount(v))
    else Beside(ExtendMeaning(v, n - 1), Meaning(v.refs[n - 1].table), v.refs[n - 1].col)
  }

  /** A join is its sources one below the other. */
  lemma {:induction false} JoinIsFlat(v: View, tables: seq<Table>, n: nat)
    requires v.Joined? && |tables| == |v.sources| && n <= |tables|
    requires forall i :: 0 <= i < |tables| ==> tables[i] == Meaning(v.sources[i])
    ensures JoinMeaning(v, n) == Flatten(tables[..n])
    ensures n == |tables| ==> Meaning(v) == Flatten(tables)
  {
    if n > 0 {
      JoinIsFlat(v, tables, n - 1);
      assert tables[..n][..n - 1] == tables[..n - 1];
    }
    assert tables[..|tables|] == tables;
  }

  /** A split is the rows it names, in that order. */
  lemma SplitRow(source: View, rows: seq<nat>, k: nat)
    requires Valid(Split(source, rows)) && k < |rows|
    ensures |Meaning(Split(source, rows))| == |rows| && rows[k] < |Meaning(source)|
    ensures Meaning(Split(source, rows))[k] == Meaning(source)[rows[k]]
  {
    MeaningShaped(source);
  }

  /** A range is that many rows from its start on. */
  lemma RangeRows(source: View, startRow: nat, count: nat)
    requires Valid(Range(source, startRow, count))
    ensures startRow + count <= |Meaning(source)|
    ensures Meaning(Range(source, startRow, count)) == Meaning(source)[startRow..startRow + count]
  {
    MeaningShaped(source);
  }

  // ---- the counts a view keeps

  function ColCount(v: View): nat {
    match v
    case Base(_, cols, _) => cols
    case Joined(sources) => if sources == [] then 0 else ColCount(sources[0])
    case Split(source, _) => ColCount(source)
    case Extended(refs) => |refs|
    case Range(source, _, _) => ColCount(source)
  }

  function RowCount(v: View): nat
    decreases v, 1, 0
  {
    match v
    case Base(text, _, _) => Newlines(text)
    case Joined(sources) => RowsBefore(v, |sources|)
    case Split(_, rows) => |rows|
    case Extended(refs) => if refs == [] then 0 else RowCount(refs[0].table)
    case Range(_, _, count) => count
  }

  /** The rows of the first `n` sources: entry `n` of the running offsets. */
  function RowsBefore(v: View, n: nat): nat
    requires v.Joined? && n <= |v.sources|
    decreases v, 0, n
  {
    if n == 0 then 0 else RowsBefore(v, n - 1) + RowCount(v.sources[n - 1])
  }

  predicate BaseValid(text: string, cols: nat, offsets: seq<nat>) {
    && (text == "" || EndsLine(text)) && Rectangular(text, cols) && CellsFit(text)
    && 0 < cols < MAX_COLUMNS && offsets == Starts(text)
  }

  /** What the constructors check, and the well-formedness of the flat tables at the leaves. */
  predicate Valid(v: View) {
    match v
    case Base(text, cols, offsets) => BaseValid(text, cols, offsets)
    case Joined(sources) =>
      && sources != []
      && forall i :: 0 <= i < |sources| ==> Valid(sources[i]) && ColCount(sources[i]) == ColCount(sources[0])
    case Split(source, rows) => Valid(source) && forall k :: 0 <= k < |rows| ==> rows[k] < RowCount(source)
    case Extended(refs) =>
      && refs != []
      && forall i :: 0 <= i < |refs| ==>
           && Valid(refs[i].table) && refs[i].col < ColCount(refs[i].table)
           && RowCount(refs[i].table) == RowCount(refs[0].table)
    case Range(source, startRow, count) => Valid(source) && startRow + count <= RowCount(source)
  }

  /** The counts are right, and every cell can stand in a text. */
  predicate Shaped(t: Table, rows: nat, cols: nat) {
    |t| == rows && WellFormed(t, cols)
  }

  lemma {:induction false} MeaningShaped(v: View)
    requires Valid(v)
    ensures Shaped(Meaning(v), RowCount(v), ColCount(v)) && ColCount(v) > 0
    decreases v, 1, 0
  {
    match v
    case Base(text, cols, _) =>
      NewlinesAreRows(text);
      PlainRows(text);
    case Joined(sources) => JoinShaped(v, |sources|); MeaningShaped(sources[0]);
    case Split(source, rows) => MeaningShaped(source);
    case Extended(refs) => ExtendShaped(v, |refs|);
    case Range(source, _, _) => MeaningShaped(source);
  }

  lemma {:induction false} JoinShaped(v: View, n: nat)
    requires Valid(v) && v.Joined? && n <= |v.sources|
    ensures Shaped(JoinMeaning(v, n), RowsBefore(v, n), ColCount(v))
    decreases v, 0, n
  {
    if n > 0 {
      JoinShaped(v, n - 1);
      MeaningShaped(v.sources[n - 1]);
    }
  }

  lemma {:induction false} ExtendShaped(v: View, n: nat)
    requires Valid(v) && v.Extended? && n <= |v.refs|
    ensures Shaped(ExtendMeaning(v, n), RowCount(v), n)
    decreases v, 0, n
  {
    if n > 0 {
      ExtendShaped(v, n - 1);
      MeaningShaped(v.refs[n - 1].table);
      assert RowCount(v.refs[n - 1].table) == RowCount(v);
    }
  }

  // ---- a joined table

  lemma {:induction false} JoinedRow(v: View, idx: nat, n: nat, row: nat)
    requires Valid(v) && v.Joined? && idx < n <= |v.sources|
    requires RowsBefore(v, idx) <= row < RowsBefore(v, idx + 1)
    ensures row < |JoinMeaning(v, n)| && row - RowsBefore(v, idx) < |Meaning(v.sources[idx])|
    ensures JoinMeaning(v, n)[row] == Meaning(v.sources[idx])[row - RowsBefore(v, idx)]
    decreases n
  {
    JoinShaped(v, n);
    JoinShaped(v, n - 1);
    MeaningShaped(v.sources[n - 1]);
    if idx < n - 1 {
      JoinedRow(v, idx, n - 1, row);
    }
  }

  lemma {:induction false} OffsetsGrow(v: View, a: nat, b: nat)
    requires v.Joined? && a <= b <= |v.sources|
    ensures RowsBefore(v, a) <= RowsBefore(v, b)
  {
    if a < b {
      OffsetsGrow(v, a, b - 1);
    }
  }

  lemma NextOffset(v: View, idx: nat)
    requires v.Joined? && idx < |v.sources|
    ensures RowsBefore(v, idx + 1) == RowsBefore(v, idx) + RowCount(v.sources[idx])
  {
  }

  /** The running offsets, computed by the constructor. */
  method Offsets(v: View) returns (offsets: seq<nat>)
    requires v.Joined?
    ensures |offsets| == |v.sources| + 1 && forall i :: 0 <= i < |offsets| ==> offsets[i] == RowsBefore(v, i)
  {
    assert RowsBefore(v, 0) == 0;
    hide *;
    ghost var before := seq(|v.sources| + 1, i requires 0 <= i <= |v.sources| => RowsBefore(v, i));
    var rowCount := 0;
    offsets := [0];
    for idx := 0 to |v.sources|
      invariant rowCount == before[idx] && offsets == before[..idx + 1]
    {
      NextOffset(v, idx);
      rowCount := rowCount + RowCount(v.sources[idx]);
      offsets := offsets + [rowCount];
    }
  }

  predicate Holds(v: View, row: nat, idx: nat)
    requires v.Joined?
  {
    idx < |v.sources| && RowsBefore(v, idx) <= row < RowsBefore(v, idx + 1)
  }

  /** At most one source holds a row: empty sources, which share an offset with the next one, hold none. */
  lemma UniqueSource(v: View, row: nat, i: nat, j: nat)
    requires v.Joined? && Holds(v, row, i) && Holds(v, row, j)
    ensures i == j
  {
    if i < j {
      OffsetsGrow(v, i + 1, j);
    } else if j < i {
      OffsetsGrow(v, j + 1, i);
    }
  }

  /** Finds the one source that holds a row, and the row's number there, exactly when the row is within bounds. */
  method CalculateRelativeRow(v: View, row: nat) returns (r: Option<(nat, nat)>)
    requires v.Joined?
    ensures r.Some? <==> row < RowCount(v)
    ensures r.Some? ==> Holds(v, row, r.value.0) && r.value.1 == row - RowsBefore(v, r.value.0)
    ensures r.Some? ==> forall j: nat :: Holds(v, row, j) ==> j == r.value.0
  {
    var offsets := Offsets(v);
    for idx := 0 to |v.sources|
      invariant row >= offsets[idx]
    {
      var offset := offsets[idx];
      if row >= offset && row < offsets[idx + 1] {
        OffsetsGrow(v, idx + 1, |v.sources|);
        forall j: nat | Holds(v, row, j) ensures j == idx {
          UniqueSource(v, row, idx, j);
        }
        return Some((idx, row - offset));
      }
    }
    r := None;
  }

  // ---- an extended table

  lemma {:induction false} ExtendedCell(v: View, n: nat, row: nat, col: nat)
    requires Valid(v) && v.Extended? && col < n <= |v.refs| && row < RowCount(v)
    ensures row < |ExtendMeaning(v, n)| && col < |ExtendMeaning(v, n)[row]| && row < |Meaning(v.refs[col].table)|
    ensures v.refs[col].col < |Meaning(v.refs[col].table)[row]|
    ensures ExtendMeaning(v, n)[row][col] == Meaning(v.refs[col].table)[row][v.refs[col].col]
    decreases n
  {
    ExtendShaped(v, n);
    ExtendShaped(v, n - 1);
    MeaningShaped(v.refs[col].table);
    assert RowCount(v.refs[col].table) == RowCount(v);
    if col < n - 1 {
      ExtendedCell(v, n - 1, row, col);
    }
  }

  // ---- cells

  predicate Within(v: View, row: nat, col: nat) {
    row < RowCount(v) && col < ColCount(v)
  }

  /** Every cell of every view is the cell of its meaning. */
  method GetColumn(v: View, row: nat, col: nat) returns (cell: string)
    requires Valid(v) && Within(v, row, col)
    ensures row < |Meaning(v)| && col < |Meaning(v)[row]| && cell == Meaning(v)[row][col]
    decreases v, 0
  {
    MeaningShaped(v);
    if v.Base? {
      var t := new CsvTableData.Of(v.text, v.cols, v.offsets);
      cell := t.GetColumn(row, col);
      return;
    }
    match v {
      case Joined(sources) =>
        var r := CalculateRelativeRow(v, row);
        JoinedRow(v, r.value.0, |sources|, row);
        cell := GetColumn(sources[r.value.0], r.value.1, col);
      case Split(source, rows) =>
        MeaningShaped(source);
        cell := GetColumn(source, rows[row], col);
      case Extended(refs) =>
        ExtendedCell(v, |refs|, row, col);
        cell := GetColumn(refs[col].table, row, refs[col].col);
      case Range(source, startRow, count) =>
        MeaningShaped(source);
        cell := GetColumn(source, startRow + row, col);
    }
  }

  // ---- rows

  function Repeated(row: Row, count: nat): (r: Table)
    ensures |r| == count && forall k :: 0 <= k < count ==> r[k] == row
  {
    seq(count, k => row)
  }

  /** The rows that getRows delivers: the rows asked for, but from a range the first of them again and again. */
  function Delivered(v: View, startRow: nat, rows: nat): Table {
    var t := Meaning(v);
    if startRow + rows > |t| then []
    else if v.Range? && rows > 0 then Repeated(t[startRow], rows)
    else t[startRow..startRow + rows]
  }

  /** A flat table's index lookup needs the first row to exist, even when no rows are asked for. */
  predicate Askable(v: View, startRow: nat, rows: nat) {
    startRow + rows <= RowCount(v) && (v.Base? ==> startRow < RowCount(v))
  }

  lemma OneRow(v: View, row: nat)
    requires Valid(v) && row < RowCount(v)
    ensures Askable(v, row, 1) && row < |Meaning(v)| && Delivered(v, row, 1) == [Meaning(v)[row]]
  {
    MeaningShaped(v);
    assert Meaning(v)[row..row + 1] == [Meaning(v)[row]];
    assert Repeated(Meaning(v)[row], 1) == [Meaning(v)[row]];
  }

  /** One row of a view of one source, through that source. */
  method SourceRow(v: View, row: nat) returns (chunks: seq<string>)
    requires Valid(v) && row < RowCount(v) && (v.Joined? || v.Split?)
    ensures row < |Meaning(v)| && Flatten(chunks) == RowText(Meaning(v)[row])
    decreases v, 0
  {
    MeaningShaped(v);
    match v {
      case Joined(sources) =>
        var r := CalculateRelativeRow(v, row);
        JoinedRow(v, r.value.0, |sources|, row);
        MeaningShaped(sources[r.value.0]);
        OneRow(sources[r.value.0], r.value.1);
        chunks := GetRows(sources[r.value.0], r.value.1, 1);
      case Split(source, rows) =>
        MeaningShaped(source);
        OneRow(source, rows[row]);
        chunks := GetRows(source, rows[row], 1);
    }
  }

  /** The cells of one row of an extended table with the separators between them. */
  method ExtendedRow(v: View, row: nat) returns (chunks: seq<string>)
    requires Valid(v) && v.Extended? && row < RowCount(v)
    ensures row < |Meaning(v)| && Flatten(chunks) == RowText(Meaning(v)[row])
    decreases v, 1
  {
    MeaningShaped(v);
    hide Flatten;
    hide Cells;
    var cells := Meaning(v)[row];
    chunks := [];
    for col := 0 to ColCount(v)
      invariant col < ColCount(v) ==> Flatten(chunks) == Cells(cells[..col])
      invariant col == ColCount(v) ==> Flatten(chunks) == Cells(cells[..col - 1]) + cells[col - 1]
    {
      var cell := GetColumn(v, row, col);
      FlattenSnoc(chunks, cell);
      chunks := chunks + [cell];
      if col < ColCount(v) - 1 {
        FlattenSnoc(chunks, "\t");
        CellsSnoc(cells[..col], cells[col]);
        TakeMore(cells, col);
        chunks := chunks + ["\t"];
      }
    }
    FlattenSnoc(chunks, "\n");
    chunks := chunks + ["\n"];
  }

  /** One row of a range, through its source. */
  method RangeRow(v: View, row: nat) returns (chunks: seq<string>)
    requires Valid(v) && v.Range? && row < RowCount(v)
    ensures row < |Meaning(v)| && Flatten(chunks) == RowText(Meaning(v)[row])
    decreases v, 0
  {
    MeaningShaped(v);
    MeaningShaped(v.source);
    OneRow(v.source, v.startRow + row);
    chunks := GetRows(v.source, v.startRow + row, 1);
  }

  /** What one round of the loop over the rows asks for: from a range always its first row. */
  method NextRow(v: View, startRow: nat, row: nat) returns (chunks: seq<string>)
    requires Valid(v) && !v.Base? && startRow <= row < RowCount(v)
    ensures row < |Meaning(v)| && Flatten(chunks) == RowText(Meaning(v)[if v.Range? then startRow else row])
    decreases v, 2
  {
    hide Text;
    hide Flatten;
    hide Meaning;
    hide RowText;
    MeaningShaped(v);
    if v.Extended? {
      chunks := ExtendedRow(v, row);
    } else if v.Range? {
      chunks := RangeRow(v, startRow);
    } else {
      chunks := SourceRow(v, row);
    }
  }

  /** The chunks, put together, are the text of the delivered rows. */
  method GetRows(v: View, startRow: nat, rows: nat) returns (chunks: seq<string>)
    requires Valid(v) && Askable(v, startRow, rows)
    ensures Flatten(chunks) == Text(Delivered(v, startRow, rows))
    decreases v, 3
  {
    hide Text;
    hide RowText;
    MeaningShaped(v);
    if v.Base? {
      chunks := BaseRows(v, startRow, rows);
      return;
    }
    NoText();
    chunks := [];
    ghost var all := Delivered(v, startRow, rows);
    for row := startRow to startRow + rows
      invariant Flatten(chunks) == Text(all[..row - startRow])
    {
      var more := NextRow(v, startRow, row);
      ghost var k := row - startRow;
      FlattenSplit(chunks, more);
      TextSnoc(all[..k], all[k]);
      TakeMore(all, k);
      chunks := chunks + more;
    }
    assert all[..rows] == all;
  }

  method BaseRows(v: View, startRow: nat, rows: nat) returns (chunks: seq<string>)
    requires v.Base? && Valid(v) && Askable(v, startRow, rows)
    ensures Flatten(chunks) == Text(Delivered(v, startRow, rows))
  {
    MeaningShaped(v);
    var t := new CsvTableData.Of(v.text, v.cols, v.offsets);
    var chunk := t.GetRows(startRow, rows);
    chunks := [chunk];
    FlattenSnoc([], chunk);
    assert [] + [chunk] == [chunk] && Flatten([]) + chunk == chunk;
  }

  // ---- what getRows of a range gets wrong

  /** The rows asked for. */
  function Asked(v: View, startRow: nat, rows: nat): Table {
    Between(Meaning(v), startRow, rows)
  }

  predicate AllAlike(t: Table) {
    forall i :: 0 <= i < |t| ==> t[i] == t[0]
  }

  /** Every view but a range delivers the rows asked for; a range does exactly when they are all alike. */
  lemma DeliveredExact(v: View, startRow: nat, rows: nat)
    requires Valid(v) && Askable(v, startRow, rows)
    ensures Text(Delivered(v, startRow, rows)) == Text(Asked(v, startRow, rows))
      <==> !v.Range? || AllAlike(Asked(v, startRow, rows))
  {
    MeaningShaped(v);
    var delivered, asked := Delivered(v, startRow, rows), Asked(v, startRow, rows);
    TextInjective(delivered, asked, ColCount(v));
    if v.Range? && rows > 0 {
      assert delivered[0] == asked[0];
      if AllAlike(asked) {
        assert delivered == asked;
      }
    }
  }

  lemma TextInjective(a: Table, b: Table, cols: nat)
    requires WellFormed(a, cols) && WellFormed(b, cols) && cols > 0
    ensures Text(a) == Text(b) <==> a == b
  {
    RowsText(a, cols);
    RowsText(b, cols);
  }

  /** For at most one row a range is right whatever it is a range of. */
  lemma OneRowIsRight(v: View, startRow: nat, rows: nat)
    requires Valid(v) && Askable(v, startRow, rows) && rows <= 1
    ensures Text(Delivered(v, startRow, rows)) == Text(Asked(v, startRow, rows))
  {
    DeliveredExact(v, startRow, rows);
  }

  lemma BaseOf(t: Table)
    requires t != [] && forall r :: 0 <= r < |t| ==> |t[r]| == 1 && |t[r][0]| == 1 && !Sep(t[r][0][0])
    ensures Valid(Base(Text(t), 1, Starts(Text(t)))) && Rows(Text(t)) == t
    ensures RowCount(Base(Text(t), 1, Starts(Text(t)))) == |t|
  {
    assert WellFormed(t, 1);
    RowsText(t, 1);
    hide Text;
    hide Rows;
    NewlinesAreRows(Text(t));
  }

  /** For any larger number of rows there is a table for which it is wrong: one whose rows are not all alike. */
  lemma MoreRowsGoWrong(rows: nat) returns (v: View)
    requires rows > 1
    ensures Valid(v) && v.Range? && Askable(v, 0, rows)
    ensures Text(Delivered(v, 0, rows)) != Text(Asked(v, 0, rows))
  {
    hide Opened;
    hide Text;
    hide Rows;
    hide Newlines;
    var a, b := ["a"], ["b"];
    var t := [a] + Repeated(b, rows - 1);
    assert a[0][0] != b[0][0];
    BaseOf(t);
    v := Range(Base(Text(t), 1, Starts(Text(t))), 0, rows);
    DeliveredExact(v, 0, rows);
    assert t[0..0 + rows] == t;
    assert Meaning(v) == t;
    assert Asked(v, 0, rows) == t[0..0 + rows];
    assert t[1] != t[0];
  }
}
