/** A table as one flat text buffer with an index of cell offsets. */
module CsvTable {
  import opened Sequences
  import opened TableText
  import opened Wrappers

  const INT_LIMIT: nat := 0x8000_0000
  const MAX_COLUMNS: nat := 65536

  class TableIndex {
    var rowCount: nat
    var colCount: nat
    var offsets: seq<nat>

    constructor ()
      ensures offsets == []
    {
      offsets := [];
    }

    /** The condition is the original's assertion. */
    method AddOffset(offset: nat)
      requires offsets == [] || offset > offsets[|offsets| - 1]
      modifies this`offsets
      ensures offsets == old(offsets) + [offset]
    {
      offsets := offsets + [offset];
    }

    method SetRowCount(rowCount: nat)
      modifies this`rowCount
      ensures this.rowCount == rowCount
    {
      this.rowCount := rowCount;
    }

    /** The field has 16 bits. */
    method SetColCount(colCount: nat)
      modifies this`colCount
      ensures this.colCount == colCount % MAX_COLUMNS
    {
      this.colCount := colCount % MAX_COLUMNS;
    }

    method Clear()
      modifies this
      ensures offsets == [] && rowCount == 0 && colCount == 0
    {
      offsets, rowCount, colCount := [], 0, 0;
    }

    /** The first two conditions are the original's assertions. */
    method GetOffset(row: nat, col: nat) returns (offset: nat)
      requires row < rowCount && col < colCount && 0 <= row * colCount + col < |offsets|
      ensures offset == offsets[row * colCount + col]
    {
      offset := offsets[row * colCount + col];
    }
  }

  // ---- what appending to an indexed text adds to the index

  function Last(text: string): char
    requires text != ""
  {
    text[|text| - 1]
  }

  function Init(text: string): string
    requires text != ""
  {
    text[..|text| - 1]
  }

  /** One past each separator from the last old character to the one before the last new. */
  function AddedStarts(a: string, b: string): seq<nat>
    requires b != "" ==> a != ""
  {
    if b == "" then [] else
      OpenedGrows(Init(a), [Last(a)] + Init(b));
      assert Init(a) + ([Last(a)] + Init(b)) == a + Init(b);
      Opened(a + Init(b))[|Opened(Init(a))|..]
  }

  function AddedRows(a: string, b: string): nat
    requires b != "" ==> a != ""
  {
    if b == "" then 0 else Newlines([Last(a)] + Init(b))
  }

  predicate NoSep(text: string) {
    forall i :: 0 <= i < |text| ==> !Sep(text[i])
  }

  /** Old text and block end alike, or neither completes a cell. */
  predicate EndAlike(a: string, b: string)
    requires a != ""
  {
    b == "" || (Last(a) == Last(b) && Sep(Last(a))) || (!Sep(Last(a)) && NoSep(b))
  }

  lemma AddedPrefix(a: string, b: string)
    requires a != "" && b != ""
    ensures Opened(a + Init(b)) == Opened(Init(a)) + AddedStarts(a, b)
  {
    hide Opened;
    OpenedGrows(Init(a), [Last(a)] + Init(b));
    assert Init(a) + ([Last(a)] + Init(b)) == a + Init(b);
  }

  lemma StartsWithin(text: string)
    ensures forall k :: 0 <= k < |Starts(text)| ==> Starts(text)[k] < |text|
  {
    OpenedIncreases(text);
    var o := Opened(text);
    forall k | 0 <= k < |Starts(text)| ensures Starts(text)[k] < |text| {
      assert o[k] < o[|o| - 1];
    }
  }

  lemma NoNewlines(text: string, from: nat)
    requires from <= |text|
    ensures Newlines(text[from..from]) == 0
  {
  }

  lemma OneMore(text: string, from: nat, n: nat)
    requires from <= n < |text|
    ensures Opened(text[..n + 1]) == Opened(text[..n]) + if Sep(text[n]) then [n + 1] else []
    ensures Newlines(text[from..n + 1]) == Newlines(text[from..n]) + if text[n] == '\n' then 1 else 0
  {
    assert Init(text[..n + 1]) == text[..n];
    assert Init(text[from..n + 1]) == text[from..n];
  }

  /** When the positions from the last old character to the one before the last new one have been visited. */
  lemma AllVisited(a: string, b: string, added: seq<nat>)
    requires a != "" && b != "" && Opened((a + b)[..|a| - 1 + |b|]) == Opened(Init(a)) + added
    ensures added == AddedStarts(a, b) && Newlines((a + b)[|a| - 1..|a| - 1 + |b|]) == AddedRows(a, b)
  {
    assert (a + b)[..|a| - 1 + |b|] == a + Init(b);
    assert (a + b)[|a| - 1..|a| - 1 + |b|] == [Last(a)] + Init(b);
    AddedPrefix(a, b);
    Cancel(Opened(Init(a)), added, AddedStarts(a, b));
  }

  /** None of the cell's characters is a separator, and the one after it is. */
  lemma CellChars(text: string, start: nat, cell: string)
    requires CellAt(text, start, cell)
    ensures start + |cell| < |text| && Sep(text[start + |cell|])
    ensures forall k :: start <= k < start + |cell| ==> !Sep(text[k])
  {
    forall k | start <= k < start + |cell| ensures !Sep(text[k]) {
      assert text[start..start + |cell|][k - start] == cell[k - start];
    }
  }

  lemma ConcatLast(a: string, b: string)
    requires b != ""
    ensures a + b != "" && Init(a + b) == a + Init(b) && Last(a + b) == Last(b)
  {
  }

  /** Appending a block that ends in a separator to a text that does: the index stays what a rebuild would give. */
  lemma StartsAppend(a: string, b: string)
    requires EndsCell(a) && EndsCell(b)
    ensures Starts(a) + AddedStarts(a, b) == Starts(a + b)
  {
    ConcatLast(a, b);
    AddedPrefix(a, b);
  }

  lemma RowsAdded(a: string, b: string)
    requires a != "" && b != ""
    ensures Newlines(a) + AddedRows(a, b) + (if Last(b) == '\n' then 1 else 0)
         == Newlines(a + b) + if Last(a) == '\n' then 1 else 0
  {
    NewlinesSplit(a, b);
    NewlinesSplit([Last(a)], Init(b));
    assert [Last(a)][..0] == "";
  }

  // ---- when the incremental index is wrong

  lemma NoSepInit(b: string)
    requires b != ""
    ensures NoSep(b) <==> NoSep(Init(b)) && !Sep(Last(b))
  {
    if NoSep(Init(b)) && !Sep(Last(b)) {
      forall i | 0 <= i < |b| ensures !Sep(b[i]) {
        assert i < |b| - 1 ==> b[i] == Init(b)[i];
      }
    }
  }

  lemma {:induction false} OpenedCount(a: string, b: string)
    ensures NoSep(b) ==> Opened(a + b) == Opened(a)
    ensures !NoSep(b) ==> |Opened(a + b)| > |Opened(a)|
  {
    if b == "" {
      assert a + b == a;
    } else {
      ConcatLast(a, b);
      OpenedCount(a, Init(b));
      NoSepInit(b);
    }
  }

  /** A block without an end of its own after an unfinished cell: the unfinished cell's start is missed. */
  lemma MissedStart(a: string, b: string)
    requires a != "" && b != "" && !Sep(Last(a)) && !NoSep(b)
    ensures Starts(a) + AddedStarts(a, b) != Starts(a + b)
  {
    var o := Opened(a);
    AddedPrefix(a, b);
    OpenedGrows(a, b);
    OpenedCount(a, b);
    OpenedIncreases(a + Init(b));
    var k, added := |o| - 1, AddedStarts(a, b);
    assert Starts(a) == o[..k];
    assert Starts(a + b)[k] == o[k];
    if added != [] {
      assert (o + added)[k] < (o + added)[k + 1];
      assert (Starts(a) + added)[k] > o[k];
    }
  }

  lemma WrongCount(a: string, b: string)
    requires a != "" && b != "" && Sep(Last(a)) && !Sep(Last(b))
    ensures |Starts(a) + AddedStarts(a, b)| == |Starts(a + b)| + 1
  {
    AddedPrefix(a, b);
    ConcatLast(a, b);
  }

  /** The incremental index and row count are what a rebuild gives exactly when old text and block end alike: both in
      a newline, which is what callers see to, or both in a tab, or both inside one unfinished cell. */
  lemma IncrementalExact(a: string, b: string)
    requires a != ""
    ensures Starts(a) + AddedStarts(a, b) == Starts(a + b) && Newlines(a) + AddedRows(a, b) == Newlines(a + b)
      <==> EndAlike(a, b)
  {
    if b == "" {
      assert a + b == a && Starts(a) + [] == Starts(a);
    } else {
      RowsAdded(a, b);
      if Sep(Last(a)) && Sep(Last(b)) {
        StartsAppend(a, b);
      } else if Sep(Last(a)) {
        WrongCount(a, b);
      } else if NoSep(b) {
        OpenedCount(a, b);
        OpenedCount(a, Init(b));
        AddedPrefix(a, b);
        assert AddedStarts(a, b) == [];
        assert Starts(a) + [] == Starts(a);
      } else {
        MissedStart(a, b);
      }
    }
  }

  /** The scan for the end of a cell counts in a 32-bit int. */
  predicate CellsFit(text: string) {
    forall r, c :: 0 <= r < |Rows(text)| && 0 <= c < |Rows(text)[r]| ==> |Rows(text)[r][c]| < INT_LIMIT
  }

  /** From the start of a cell to the next separator, which is never beyond the buffer. */
  method Scan(data: string, startIndex: nat, ghost cell: string) returns (chunk: string)
    requires CellAt(data, startIndex, cell) && |cell| < INT_LIMIT
    ensures chunk == cell
  {
    CellChars(data, startIndex, cell);
    var len := 0;
    while data[startIndex + len] != '\n' && data[startIndex + len] != '\t' && startIndex + len < |data|
      invariant len <= |cell| < INT_LIMIT
      decreases |cell| - len
    {
      len := len + 1;
    }
    chunk := data[startIndex..startIndex + len];
  }

  /** The loop stops after `n` increments of its 32-bit counter. */
  predicate StopsAfter(n: nat, size: nat) {
    n % TWO_32 >= size
  }

  /** The loop stops at all exactly for less than 2^32 characters. */
  lemma CounterStops(size: nat)
    ensures (exists n: nat :: StopsAfter(n, size)) <==> size < TWO_32
  {
    if size < TWO_32 {
      assert StopsAfter(size, size);
    }
  }

  class CsvTableData {
    var hasData: bool
    var data: string
    var rowCount: nat
    const colCount: nat
    const index: TableIndex

    ghost predicate Valid()
      reads this, index
    {
      && (!hasData ==> data == "" && rowCount == 0 && index.offsets == [])
      && (hasData ==>
            && index.rowCount == rowCount && index.colCount == colCount % MAX_COLUMNS
            && forall k :: 0 <= k < |index.offsets| ==> index.offsets[k] < |data|)
    }

    /** The buffer holds complete rows, and index and row count are those of a rebuild. */
    ghost predicate Built()
      reads this, index
    {
      && (data == "" || EndsLine(data))
      && (hasData ==> index.offsets == Starts(data) && rowCount == Newlines(data))
    }

    constructor (colCount: nat)
      ensures Valid() && Built() && data == "" && !hasData && this.colCount == colCount && fresh(index)
      ensures index.offsets == []
    {
      hasData, data, rowCount := false, "", 0;
      this.colCount := colCount;
      index := new TableIndex();
    }

    /** A table in the state that building `text` leaves behind. */
    constructor Of(text: string, colCount: nat, offsets: seq<nat>)
      requires (text == "" || EndsLine(text)) && offsets == Starts(text)
      ensures Valid() && Built() && hasData && data == text && rowCount == Newlines(text)
      ensures this.colCount == colCount && fresh(index)
    {
      hasData, data, rowCount := true, text, Newlines(text);
      this.colCount := colCount;
      index := new TableIndex();
      new;
      index.SetRowCount(rowCount);
      index.SetColCount(colCount);
      index.offsets := offsets;
      StartsWithin(text);
    }

    /** The loop counter has 32 bits: `CounterStops` says when it reaches the end. */
    method CalculateRowCount()
      requires |data| < TWO_32
      modifies this`rowCount
      ensures rowCount == Newlines(data)
    {
      var count := 0;
      var ptr := 0;
      while ptr < |data|
        invariant ptr <= |data| && count == Newlines(data[..ptr])
      {
        assert data[..ptr + 1][..ptr] == data[..ptr];
        if data[ptr] == '\n' {
          count := count + 1;
        }
        ptr := (ptr + 1) % TWO_32;
      }
      assert data[..|data|] == data;
      rowCount := count;
    }

    method BuildIndex()
      modifies index
      ensures index.offsets == Starts(data) && index.rowCount == rowCount && index.colCount == colCount % MAX_COLUMNS
    {
      index.Clear();
      index.SetRowCount(rowCount);
      index.SetColCount(colCount);
      var ptr, lastPtr := 0, 0;
      while ptr < |data|
        invariant ptr <= |data| && index.offsets == Starts(data[..ptr]) && lastPtr == TailStart(data[..ptr])
        invariant index.rowCount == rowCount && index.colCount == colCount % MAX_COLUMNS
      {
        assert data[..ptr + 1] == data[..ptr] + [data[ptr]];
        StartsStep(data[..ptr], data[ptr]);
        if data[ptr] == '\t' || data[ptr] == '\n' {
          OpenedIncreases(data[..ptr]);
          index.AddOffset(lastPtr);
          lastPtr := ptr + 1;
        }
        ptr := ptr + 1;
      }
      assert data[..|data|] == data;
    }

    /** Appends a block; the index is extended, not rebuilt. */
    method AppendRaw(raw: string)
      requires Valid() && (!hasData ==> |raw| < TWO_32) && (hasData && raw != "" ==> data != "")
      modifies this, index
      ensures Valid() && hasData && data == old(data) + raw
      ensures old(hasData) ==> index.offsets == old(index.offsets) + AddedStarts(old(data), raw)
      ensures old(hasData) ==> rowCount == old(rowCount) + AddedRows(old(data), raw)
      ensures !old(hasData) ==> index.offsets == Starts(raw) && rowCount == Newlines(raw)
      ensures old(Built()) && (raw == "" || EndsLine(raw)) ==> Built() && Rows(data) == old(Rows(data)) + Rows(raw)
    {
      if Built() {
        RowsAppend(data, raw);
      }
      if !hasData {
        hasData, data := true, raw;
        CalculateRowCount();
        BuildIndex();
        StartsWithin(raw);
        return;
      }
      if raw == "" {
        assert data + raw == data;
        return;
      }
      AppendToIndex(raw);
      ghost var before := data;
      data := data + raw;
      if EndsLine(raw) && old(Built()) {
        StartsAppend(before, raw);
        RowsAdded(before, raw);
      }
    }

    /** The loop over the new block: the character before it is looked at first, its own last one not at all. */
    method AppendToIndex(raw: string)
      requires Valid() && hasData && data != "" && raw != ""
      modifies this`rowCount, index
      ensures index.offsets == old(index.offsets) + AddedStarts(data, raw)
      ensures rowCount == old(rowCount) + AddedRows(data, raw)
      ensures index.rowCount == rowCount && index.colCount == old(index.colCount)
      ensures forall k :: 0 <= k < |index.offsets| ==> index.offsets[k] < |data| + |raw|
    {
      hide Opened;
      hide Newlines;
      hide AddedStarts;
      hide AddedRows;
      var size := |data|;
      var all := data + raw;
      ghost var first := Opened(Init(data));
      ghost var added: seq<nat> := [];
      assert all[..size - 1] == Init(data);
      NoNewlines(all, size - 1);
      for idx := 0 to |raw|
        invariant Opened(all[..size - 1 + idx]) == first + added
        invariant index.offsets == old(index.offsets) + added
        invariant rowCount == old(rowCount) + Newlines(all[size - 1..size - 1 + idx])
        invariant index.rowCount == rowCount && index.colCount == old(index.colCount)
        invariant forall k :: 0 <= k < |index.offsets| ==> index.offsets[k] < size + idx
      {
        var c := all[size - 1 + idx];
        OneMore(all, size - 1, size - 1 + idx);
        if c == '\t' || c == '\n' {
          index.AddOffset(size + idx);
          added := added + [size + idx];
        }
        if c == '\n' {
          rowCount := rowCount + 1;
          index.SetRowCount(rowCount);
        }
      }
      AllVisited(data, raw, added);
    }

    /** The cells of a row joined by tabs, and a newline. */
    method AddRow(row: Row)
      requires Valid() && |row| == colCount && (!hasData ==> |RowText(row)| < TWO_32) && (hasData ==> data != "")
      modifies this, index
      ensures Valid() && hasData && data == old(data) + RowText(row) && data != ""
      ensures old(Built()) ==> Built()
      ensures old(Built()) && PlainRow(row) && |row| > 0 ==> Rows(data) == old(Rows(data)) + [row]
    {
      if PlainRow(row) && |row| > 0 {
        RowsOfRow(row);
      }
      AppendRaw(RowText(row));
    }

    /** Rows `startRow` to `startRow + rows - 1` as text. For no rows at all past the last row the original's index
        lookup fails its assertion, so `startRow` must be a row. */
    method GetRows(startRow: nat, rows: nat) returns (chunk: string)
      requires Valid() && Built() && hasData && Rectangular(data, colCount) && 0 < colCount < MAX_COLUMNS
      requires startRow + rows <= rowCount && startRow < rowCount
      ensures startRow + rows <= |Rows(data)| && chunk == Text(Rows(data)[startRow..startRow + rows])
    {
      hide Opened;
      hide Text;
      hide Rows;
      NewlinesAreRows(data);
      RowIndexed(data, colCount, startRow);
      Slice(data, startRow, startRow + rows);
      var startOffset := index.GetOffset(startRow, 0);
      var endOffset;
      if startRow + rows == rowCount {
        endOffset := |data|;
      } else {
        RowIndexed(data, colCount, startRow + rows);
        endOffset := index.GetOffset(startRow + rows, 0);
      }
      chunk := data[startOffset..endOffset];
    }

    /** One cell. */
    method GetColumn(row: nat, col: nat) returns (chunk: string)
      requires Valid() && Built() && hasData && Rectangular(data, colCount) && colCount < MAX_COLUMNS
      requires row < rowCount && col < colCount && CellsFit(data)
      ensures row < |Rows(data)| && chunk == Rows(data)[row][col]
    {
      hide Opened;
      hide Rows;
      NewlinesAreRows(data);
      CellIndexed(data, colCount, row, col);
      ghost var cell := Rows(data)[row][col];
      var startIndex := index.GetOffset(row, col);
      chunk := Scan(data, startIndex, cell);
    }
  }
}
