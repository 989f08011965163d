/** Saving a table to a text file with an index file beside it, and loading it again. */
module TableFile {
  import opened Wrappers
  import opened TableText
  import opened CsvTable
  import opened Remainders
  import opened Sequences

  datatype ColDef = ColDef(name: string, oid: nat)

  const TEXT: nat := 25

  /** The type names: by type id, and by name. */
  datatype Registry = Registry(nameOf: nat -> Option<string>, oidOf: string -> Option<nat>)

  /** A registered type is found by its name, and a name can stand in a column header. */
  predicate Registered(reg: Registry, oid: nat) {
    reg.nameOf(oid).Some? && Bare(reg.nameOf(oid).value) && reg.nameOf(oid).value != ""
      && reg.oidOf(reg.nameOf(oid).value) == Some(oid)
  }

  predicate Without(text: string, delim: char) {
    forall i :: 0 <= i < |text| ==> text[i] != delim
  }

  /** No character that has a meaning in the header line. */
  predicate Bare(text: string) {
    Without(text, ':') && Without(text, '\t') && Without(text, '\n')
  }

  // ---- splitting what was joined

  /** Complete pieces, and the piece being read. */
  datatype Cutter = Cutter(pieces: seq<string>, piece: string)

  function Cut(text: string, delim: char): Cutter {
    if text == "" then Cutter([], "")
    else
      var before, c := Cut(text[..|text| - 1], delim), text[|text| - 1];
      if c == delim then Cutter(before.pieces + [before.piece], "") else Cutter(before.pieces, before.piece + [c])
  }

  /** The pieces between delimiters; an empty last piece does not count. */
  function Pieces(text: string, delim: char): seq<string> {
    var c := Cut(text, delim);
    c.pieces + if c.piece == "" then [] else [c.piece]
  }

  lemma CutSnoc(text: string, c: char, delim: char)
    requires c != delim
    ensures Cut(text + [c], delim) == Cutter(Cut(text, delim).pieces, Cut(text, delim).piece + [c])
  {
    assert (text + [c])[..|text|] == text;
  }

  lemma {:induction false} CutPlain(before: string, item: string, delim: char)
    requires Without(item, delim)
    ensures Cut(before + item, delim) == Cutter(Cut(before, delim).pieces, Cut(before, delim).piece + item)
  {
    if item == "" {
      assert before + item == before && Cut(before, delim).piece + item == Cut(before, delim).piece;
    } else {
      hide Cut;
      var n := |item| - 1;
      CutPlain(before, item[..n], delim);
      CutSnoc(before + item[..n], item[n], delim);
      SplitLast(item);
      Assoc(before, item[..n], [item[n]]);
      Assoc(Cut(before, delim).piece, item[..n], [item[n]]);
    }
  }

  lemma {:induction false} CutJoined(items: seq<string>, delim: char)
    requires |items| > 0 && forall i :: 0 <= i < |items| ==> Without(items[i], delim)
    ensures Cut(Joined(items, delim), delim) == Cutter(items[..|items| - 1], items[|items| - 1])
  {
    var n := |items| - 1;
    if n == 0 {
      CutPlain("", items[0], delim);
      assert "" + items[0] == items[0];
    } else {
      CutJoined(items[..n], delim);
      CutPlain(Joined(items[..n], delim) + [delim], items[n], delim);
      assert "" + items[n] == items[n];
      SplitLast(items[..n]);
    }
  }

  /** Splitting undoes joining when no item contains the delimiter and the last one is not empty. */
  lemma PiecesOfJoined(items: seq<string>, delim: char)
    requires forall i :: 0 <= i < |items| ==> Without(items[i], delim)
    requires items != [] ==> items[|items| - 1] != ""
    ensures Pieces(Joined(items, delim), delim) == items
  {
    if items != [] {
      CutJoined(items, delim);
      SplitLast(items);
    }
  }

  method Split(text: string, delim: char) returns (pieces: seq<string>)
    ensures pieces == Pieces(text, delim)
  {
    pieces := [];
    var piece := "";
    for i := 0 to |text|
      invariant Cut(text[..i], delim) == Cutter(pieces, piece)
    {
      assert text[..i + 1][..i] == text[..i];
      if text[i] == delim {
        pieces, piece := pieces + [piece], "";
      } else {
        piece := piece + [text[i]];
      }
    }
    assert text[..|text|] == text;
    if piece != "" {
      pieces := pieces + [piece];
    }
  }

  // ---- the header line

  /** An unregistered type is written as text. */
  function TypeName(reg: Registry, oid: nat): string
    requires Registered(reg, TEXT)
  {
    if reg.nameOf(oid).Some? then reg.nameOf(oid).value else reg.nameOf(TEXT).value
  }

  function ColumnText(reg: Registry, col: ColDef): string
    requires Registered(reg, TEXT)
  {
    col.name + ":" + TypeName(reg, col.oid)
  }

  function ColumnTexts(reg: Registry, cols: seq<ColDef>): (r: seq<string>)
    requires Registered(reg, TEXT)
    ensures |r| == |cols| && forall i :: 0 <= i < |cols| ==> r[i] == ColumnText(reg, cols[i])
  {
    seq(|cols|, i requires 0 <= i < |cols| => ColumnText(reg, cols[i]))
  }

  /** A missing or unknown type reads as text. */
  function ColumnOf(reg: Registry, col: string): ColDef
    requires col != ""
  {
    var nt := Pieces(col, ':');
    var typeName := if |nt| > 1 then nt[1] else "TEXT";
    ColDef(nt[0], if reg.oidOf(typeName).Some? then reg.oidOf(typeName).value else TEXT)
  }

  /** The columns a header line defines; an empty definition is an error. */
  function ColumnsOf(reg: Registry, cols: seq<string>): Result<seq<ColDef>, string> {
    if AllDefined(cols) then Ok(Defined(reg, cols)) else Err("empty column definition")
  }

  predicate AllDefined(cols: seq<string>) {
    forall i :: 0 <= i < |cols| ==> cols[i] != ""
  }

  function Defined(reg: Registry, cols: seq<string>): (r: seq<ColDef>)
    requires AllDefined(cols)
    ensures |r| == |cols| && forall i :: 0 <= i < |cols| ==> r[i] == ColumnOf(reg, cols[i])
  {
    seq(|cols|, i requires 0 <= i < |cols| => ColumnOf(reg, cols[i]))
  }

  method ReadColumns(reg: Registry, firstLine: string) returns (r: Result<seq<ColDef>, string>)
    ensures r == ColumnsOf(reg, Pieces(firstLine, '\t'))
  {
    var cols := Split(firstLine, '\t');
    var colDefs := [];
    for i := 0 to |cols|
      invariant |colDefs| == i && forall k :: 0 <= k < i ==> cols[k] != "" && colDefs[k] == ColumnOf(reg, cols[k])
    {
      if cols[i] == "" {
        return Err("empty column definition");
      }
      var nt := Split(cols[i], ':');
      var typeName := if |nt| > 1 then nt[1] else "TEXT";
      var typeId := if reg.oidOf(typeName).Some? then reg.oidOf(typeName).value else TEXT;
      colDefs := colDefs + [ColDef(nt[0], typeId)];
    }
    assert colDefs == Defined(reg, cols);
    r := Ok(colDefs);
  }

  lemma ColumnReadBack(reg: Registry, col: ColDef)
    requires Registered(reg, TEXT) && Bare(col.name)
    ensures ColumnText(reg, col) != ""
    ensures Registered(reg, col.oid) ==> ColumnOf(reg, ColumnText(reg, col)) == col
    ensures reg.nameOf(col.oid).None? ==> ColumnOf(reg, ColumnText(reg, col)) == ColDef(col.name, TEXT)
  {
    var name := TypeName(reg, col.oid);
    if Bare(name) && name != "" {
      var items := [col.name, name];
      assert items[..1] == [col.name];
      assert Joined(items, ':') == ColumnText(reg, col);
      PiecesOfJoined(items, ':');
    }
  }

  /** A column written without a type, or with one that is not registered, is text, whose number is 25. */
  lemma TypelessIsText(reg: Registry, name: string, typeName: string)
    requires Bare(name) && Bare(typeName) && name != "" && typeName != ""
    ensures reg.oidOf("TEXT") == Some(25) || reg.oidOf("TEXT").None? ==> ColumnOf(reg, name) == ColDef(name, 25)
    ensures reg.oidOf(typeName).None? ==> ColumnOf(reg, name + ":" + typeName) == ColDef(name, 25)
  {
    PiecesOfJoined([name], ':');
    var items := [name, typeName];
    assert items[..1] == [name];
    assert Joined(items, ':') == name + ":" + typeName;
    PiecesOfJoined(items, ':');
  }

  /** Columns survive the header line; a column of an unregistered type comes back as text. */
  function Restored(reg: Registry, col: ColDef): ColDef {
    if reg.nameOf(col.oid).Some? then col else ColDef(col.name, TEXT)
  }

  function RestoredAll(reg: Registry, cols: seq<ColDef>): (r: seq<ColDef>)
    ensures |r| == |cols| && forall i :: 0 <= i < |cols| ==> r[i] == Restored(reg, cols[i])
  {
    seq(|cols|, i requires 0 <= i < |cols| => Restored(reg, cols[i]))
  }

  predicate Storable(reg: Registry, cols: seq<ColDef>) {
    && Registered(reg, TEXT)
    && forall i :: 0 <= i < |cols| ==>
         Bare(cols[i].name) && (reg.nameOf(cols[i].oid).None? || Registered(reg, cols[i].oid))
  }

  lemma StorableText(reg: Registry, cols: seq<ColDef>)
    requires Storable(reg, cols)
    ensures Registered(reg, TEXT)
  {
  }

  lemma HeaderReadBack(reg: Registry, cols: seq<ColDef>)
    requires Storable(reg, cols)
    ensures ColumnsOf(reg, Pieces(Joined(ColumnTexts(reg, cols), '\t'), '\t'))
         == Ok(RestoredAll(reg, cols))
    ensures Without(Joined(ColumnTexts(reg, cols), '\t'), '\n')
  {
    var texts := ColumnTexts(reg, cols);
    forall i | 0 <= i < |cols|
      ensures texts[i] != "" && Without(texts[i], '\t') && Without(texts[i], '\n')
      ensures ColumnOf(reg, texts[i]) == Restored(reg, cols[i])
    {
      ColumnReadBack(reg, cols[i]);
    }
    PiecesOfJoined(texts, '\t');
    assert AllDefined(texts) && Defined(reg, texts) == RestoredAll(reg, cols);
    JoinedWithout(texts, '\t', '\n');
  }

  lemma {:induction false} JoinedWithout(items: seq<string>, delim: char, c: char)
    requires delim != c && forall i :: 0 <= i < |items| ==> Without(items[i], c)
    ensures Without(Joined(items, delim), c)
  {
    if |items| > 1 {
      JoinedWithout(items[..|items| - 1], delim, c);
    }
  }

  // ---- the files

  /** What the index file holds. */
  datatype IndexFile = IndexFile(rowCount: nat, colCount: nat, offsets: seq<nat>)

  /** The lines before and after the first newline, if there is one. */
  function FirstLine(file: string, from: nat): Option<nat>
    requires from <= |file|
    decreases |file| - from
  {
    if from == |file| then None else if file[from] == '\n' then Some(from) else FirstLine(file, from + 1)
  }

  lemma {:induction false} FirstLineIs(header: string, rest: string, from: nat)
    requires from <= |header| && Without(header, '\n')
    ensures FirstLine(header + "\n" + rest, from) == Some(|header|)
    decreases |header| - from
  {
    if from < |header| {
      FirstLineIs(header, rest, from + 1);
    }
  }

  /** The header line, spelled out: names and type names with a colon between them, and tabs between the columns. */
  lemma HeaderIs(reg: Registry, cols: seq<ColDef>, texts: seq<string>)
    requires Registered(reg, TEXT) && |texts| == |cols|
    requires forall i :: 0 <= i < |cols| ==>
      texts[i] == cols[i].name + ":" + reg.nameOf(if reg.nameOf(cols[i].oid).Some? then cols[i].oid else 25).value
    ensures Joined(ColumnTexts(reg, cols), '\t') == Joined(texts, '\t')
  {
    assert ColumnTexts(reg, cols) == texts;
  }

  method WriteHeader(reg: Registry, cols: seq<ColDef>) returns (os: string)
    requires Registered(reg, TEXT)
    ensures os == Joined(ColumnTexts(reg, cols), '\t')
  {
    os := "";
    ghost var texts := ColumnTexts(reg, cols);
    for idx := 0 to |cols|
      invariant os == Joined(texts[..idx], '\t') + if 0 < idx < |cols| then "\t" else ""
    {
      assert texts[..idx + 1][..idx] == texts[..idx];
      os := os + cols[idx].name + ":" + TypeName(reg, cols[idx].oid);
      HeaderStep(Joined(texts[..idx], '\t'), cols[idx].name, TypeName(reg, cols[idx].oid));
      if idx < |cols| - 1 {
        os := os + "\t";
      }
    }
    assert texts[..|cols|] == texts;
  }

  lemma HeaderStep(before: string, name: string, typeName: string)
    ensures before + "\t" + name + ":" + typeName == before + "\t" + (name + ":" + typeName)
    ensures "" + "" + name + ":" + typeName == name + ":" + typeName
  {
  }

  /** Writes header and buffer to one file, the index to another. The condition is the original's assertion. */
  method Save(reg: Registry, cols: seq<ColDef>, t: CsvTableData) returns (file: string, idx: IndexFile)
    requires Registered(reg, TEXT) && t.colCount == |cols| && t.Valid()
    requires t.rowCount == 0 || |t.index.offsets| % t.rowCount == 0
    modifies t.index
    ensures file == Joined(ColumnTexts(reg, cols), '\t') + "\n" + t.data
    ensures idx == IndexFile(t.rowCount, |cols| % MAX_COLUMNS, old(t.index.offsets))
    ensures t.Valid() && t.index.offsets == old(t.index.offsets)
  {
    var os := WriteHeader(reg, cols);
    file := os + "\n" + t.data;
    t.index.SetRowCount(t.rowCount);
    t.index.SetColCount(t.colCount);
    idx := IndexFile(t.index.rowCount, t.index.colCount, t.index.offsets);
  }

  /** Reads the number of offsets the header of the index file announces; reads past its end give zero. */
  method LoadIndex(index: TableIndex, file: IndexFile)
    requires index.offsets == []
    modifies index
    ensures index.rowCount == file.rowCount && index.colCount == file.colCount % MAX_COLUMNS
    ensures file.rowCount * (file.colCount % MAX_COLUMNS) == |file.offsets| ==> index.offsets == file.offsets
  {
    index.SetRowCount(file.rowCount);
    index.SetColCount(file.colCount);
    for i := 0 to index.rowCount * index.colCount
      invariant index.rowCount == file.rowCount && index.colCount == file.colCount % MAX_COLUMNS
      invariant |index.offsets| == i
      invariant forall k :: 0 <= k < i ==> index.offsets[k] == if k < |file.offsets| then file.offsets[k] else 0
    {
      index.offsets := index.offsets + [if i < |file.offsets| then file.offsets[i] else 0];
    }
  }

  /** Loads a file; without an index file, rows are counted and the index is built, as after a first append. */
  method Load(reg: Registry, file: string, idx: Option<IndexFile>)
    returns (r: Result<CsvTableData, string>, ghost header: string, ghost cols: Result<seq<ColDef>, string>)
    requires idx.None? ==> |file| < TWO_32
    ensures FirstLine(file, 0).None? ==> r == Err("failed getting first line. probably long line header")
    ensures FirstLine(file, 0).Some? ==>
      var eol := FirstLine(file, 0).value;
      && eol < |file| && header == file[..eol] && cols == ColumnsOf(reg, Pieces(header, '\t'))
      && (cols.Err? ==> r == Err(cols.fault))
      && (cols.Ok? && idx.None? ==>
            && r.Ok? && fresh(r.value) && r.value.colCount == |cols.value| && r.value.data == file[eol + 1..]
            && r.value.index.offsets == Starts(r.value.data) && r.value.rowCount == Newlines(r.value.data))
      && (cols.Ok? && idx.Some? ==> (r.Ok? <==> idx.value.colCount % MAX_COLUMNS == |cols.value|))
      && (cols.Ok? && idx.Some? && r.Ok? ==>
            && fresh(r.value) && r.value.colCount == |cols.value| && r.value.data == file[eol + 1..]
            && r.value.rowCount == idx.value.rowCount
            && (idx.value.rowCount * |cols.value| == |idx.value.offsets| ==>
                  r.value.index.offsets == idx.value.offsets))
    ensures r.Ok? ==>
      r.value.hasData && r.value.index.rowCount == r.value.rowCount
      && r.value.index.colCount == r.value.colCount % MAX_COLUMNS
  {
    var eol := 0;
    while eol < |file| && file[eol] != '\n'
      invariant eol <= |file| && FirstLine(file, 0) == FirstLine(file, eol)
    {
      eol := eol + 1;
    }
    if eol == |file| {
      return Err("failed getting first line. probably long line header"), "", Ok([]);
    }
    header := file[..eol];
    var defs := ReadColumns(reg, file[..eol]);
    cols := defs;
    if defs.Err? {
      return Err(defs.fault), header, cols;
    }
    var t := new CsvTableData(|defs.value|);
    t.hasData, t.data := true, file[eol + 1..];
    if idx.Some? {
      LoadIndex(t.index, idx.value);
      if t.colCount != t.index.colCount {
        return Err("assertion failed"), header, cols;
      }
      t.rowCount := t.index.rowCount;
    } else {
      t.CalculateRowCount();
      t.BuildIndex();
    }
    r := Ok(t);
  }

  /** Saving and loading: columns, buffer, row count and index come back, and the index is the one a rebuild gives;
      with 65536 columns or more the index file's 16-bit column count no longer matches, and loading fails. */
  method SaveThenLoad(reg: Registry, cols: seq<ColDef>, t: CsvTableData)
    returns (r: Result<CsvTableData, string>, ghost restored: Result<seq<ColDef>, string>)
    requires Storable(reg, cols) && t.colCount == |cols| && t.Valid() && t.Built() && Rectangular(t.data, |cols|)
    modifies t.index
    ensures r.Ok? <==> |cols| < 0x1_0000
    ensures restored == Ok(RestoredAll(reg, cols))
    ensures r.Ok? ==>
      && r.value.data == t.data && r.value.rowCount == t.rowCount && r.value.colCount == |cols|
      && r.value.index.offsets == Starts(t.data)
      && r.value.Valid() && r.value.Built()
  {
    hide Joined;
    hide ColumnsOf;
    hide Pieces;
    hide Opened;
    hide Rectangular;
    hide Storable;
    hide Registered;
    StorableText(reg, cols);
    IndexSize(t.data, |cols|);
    var file, idx := Save(reg, cols, t);
    HeaderReadBack(reg, cols);
    var header := Joined(ColumnTexts(reg, cols), '\t');
    FirstLineIs(header, t.data, 0);
    ghost var h;
    r, h, restored := Load(reg, file, Some(idx));
    assert file[..|header|] == header && file[|header| + 1..] == t.data;
    if r.Ok? {
      StartsWithin(t.data);
    }
  }

  /** The index of a table with complete rows has one entry per cell. */
  lemma IndexSize(text: string, cols: nat)
    requires (text == "" || EndsLine(text)) && Rectangular(text, cols)
    ensures |Starts(text)| == Newlines(text) * cols
    ensures Newlines(text) == 0 || |Starts(text)| % Newlines(text) == 0
  {
    NewlinesAreRows(text);
    CellsAreIndexed(text);
    FlatLength(Rows(text), cols);
    if text != "" {
    }
    var n := Newlines(text);
    if n > 0 {
      RemainderIs(n * cols, n, cols, 0);
    }
  }
}
