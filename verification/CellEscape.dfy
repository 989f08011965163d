/** Escaping of cell values, so that a value may contain the separators of the flat text form. */
module CellEscape {
  import opened Sequences
  import opened CsvTable
  import opened TableText
  import opened Wrappers

  const BACKSPACE: char := 8 as char
  const TAB: char := 9 as char
  const NEWLINE: char := 10 as char
  const VERTICAL_TAB: char := 11 as char
  const FORM_FEED: char := 12 as char
  const RETURN: char := 13 as char

  /** The letter that stands for a special character after a backslash; a character that is not special has none. */
  function Letter(c: char): (r: char)
  {
    if c == '\\' then '\\' else if c == BACKSPACE then 'b' else if c == FORM_FEED then 'f' else if c == NEWLINE then 'n'
    else if c == RETURN then 'r' else if c == TAB then 't' else if c == VERTICAL_TAB then 'v' else ' '
  }

  predicate Special(c: char) {
    c == '\\' || c == BACKSPACE || c == FORM_FEED || c == NEWLINE || c == RETURN || c == TAB || c == VERTICAL_TAB
  }

  function EncodeChar(c: char): string {
    if Special(c) then ['\\', Letter(c)] else [c]
  }

  function Encoded(value: string): string {
    if value == "" then "" else EncodeChar(value[0]) + Encoded(value[1..])
  }

  /** What a letter after a backslash stands for; an unknown one stands for nothing. */
  function DecodeLetter(c: char): string {
    if c == '\\' then "\\" else if c == 'b' then [BACKSPACE] else if c == 'f' then [FORM_FEED]
    else if c == 'n' then [NEWLINE]
    else if c == 'r' then [RETURN] else if c == 't' then [TAB] else if c == 'v' then [VERTICAL_TAB] else ""
  }

  /** A backslash takes the next character with it; at the very end that is the terminating null. */
  function Decoded(value: string): string {
    if value == "" then ""
    else if value[0] != '\\' then [value[0]] + Decoded(value[1..])
    else if |value| == 1 then ""
    else DecodeLetter(value[1]) + Decoded(value[2..])
  }

  method Encode(value: string) returns (result: string)
    ensures result == Encoded(value)
  {
    result := "";
    for idx := 0 to |value|
      invariant Encoded(value) == result + Encoded(value[idx..])
    {
      var c := value[idx];
      assert value[idx..][0] == c && value[idx..][1..] == value[idx + 1..];
      Assoc(result, EncodeChar(c), Encoded(value[idx + 1..]));
      if Special(c) {
        result := result + ['\\', Letter(c)];
      } else {
        result := result + [c];
      }
    }
    assert value[|value|..] == "";
  }

  method Decode(value: string) returns (result: string)
    ensures result == Decoded(value)
  {
    result := "";
    var idx := 0;
    while idx < |value|
      invariant Decoded(value) == result + if idx < |value| then Decoded(value[idx..]) else ""
    {
      var c := value[idx];
      var rest := value[idx..];
      assert rest[0] == c && rest[1..] == value[idx + 1..];
      if c == '\\' {
        if idx + 1 < |value| {
          assert rest[1] == value[idx + 1] && rest[2..] == value[idx + 2..];
          Assoc(result, DecodeLetter(value[idx + 1]), Decoded(value[idx + 2..]));
          result := result + DecodeLetter(value[idx + 1]);
        }
        idx := idx + 1;
      } else {
        Assoc(result, [c], Decoded(value[idx + 1..]));
        result := result + [c];
      }
      idx := idx + 1;
    }
  }

  lemma {:induction false} EncodedAppends(a: string, b: string)
    ensures Encoded(a + b) == Encoded(a) + Encoded(b)
  {
    if a == "" {
      assert a + b == b;
    } else {
      assert (a + b)[1..] == a[1..] + b;
      EncodedAppends(a[1..], b);
    }
  }

  /** Which characters are escaped, by their codes, and how: 92 is the backslash, and 8 to 13 are backspace, tab,
      newline, vertical tab, form feed and carriage return. */
  lemma EscapeTable(c: char)
    ensures c as int == 92 ==> Encoded([c]) == "\\\\"
    ensures c as int == 8 ==> Encoded([c]) == "\\b"
    ensures c as int == 9 ==> Encoded([c]) == "\\t"
    ensures c as int == 10 ==> Encoded([c]) == "\\n"
    ensures c as int == 11 ==> Encoded([c]) == "\\v"
    ensures c as int == 12 ==> Encoded([c]) == "\\f"
    ensures c as int == 13 ==> Encoded([c]) == "\\r"
    ensures c as int != 92 && !(8 <= c as int <= 13) ==> Encoded([c]) == [c]
  {
    assert [c][1..] == "";
    assert Encoded([c]) == EncodeChar(c);
  }

  /** A backslash with a letter of its own is what that letter says; with any other character it stands for nothing,
      and that character is lost; and so is a backslash at the end. */
  lemma UnknownEscape(c: char, rest: string)
    requires c !in "\\bfnrtv"
    ensures Decoded(['\\', c] + rest) == Decoded(rest) && Decoded("\\") == ""
  {
    var value := ['\\', c] + rest;
    assert value[2..] == rest;
    var known := "\\bfnrtv";
    assert known[0] == '\\' && known[1] == 'b' && known[2] == 'f' && known[3] == 'n' && known[4] == 'r';
    assert known[5] == 't' && known[6] == 'v';
    assert "" + Decoded(rest) == Decoded(rest);
  }

  /** Decoding undoes encoding, for every string. */
  lemma {:induction false} RoundTrip(value: string)
    ensures Decoded(Encoded(value)) == value
  {
    if value != "" {
      RoundTrip(value[1..]);
      var c, rest := value[0], Encoded(value[1..]);
      assert EncodeChar(c) + rest == Encoded(value);
      if Special(c) {
        assert (EncodeChar(c) + rest)[2..] == rest;
        assert DecodeLetter(Letter(c)) == [c];
      } else {
        assert (EncodeChar(c) + rest)[1..] == rest;
      }
      assert value == [c] + value[1..];
    }
  }

  /** An encoded value can stand in a cell. */
  lemma {:induction false} EncodedIsPlain(value: string)
    ensures Plain(Encoded(value))
  {
    if value != "" {
      EncodedIsPlain(value[1..]);
    }
  }

  /** A text that encoding can produce: no special character but backslashes, each followed by a known letter. */
  predicate Canonical(text: string) {
    if text == "" then true
    else if text[0] != '\\' then !Special(text[0]) && Canonical(text[1..])
    else |text| > 1 && DecodeLetter(text[1]) != "" && Canonical(text[2..])
  }

  lemma {:induction false} CanonicalIsEncoded(text: string)
    requires Canonical(text)
    ensures Encoded(Decoded(text)) == text
  {
    if text == "" {
    } else if text[0] != '\\' {
      CanonicalIsEncoded(text[1..]);
    } else {
      var c := text[1];
      CanonicalIsEncoded(text[2..]);
      assert DecodeLetter(c) == [DecodeLetter(c)[0]];
      assert text == ['\\', c] + text[2..];
    }
  }

  /** Encoding undoes decoding exactly for the texts that need no repair. */
  lemma DecodeEncode(text: string)
    ensures Encoded(Decoded(text)) == text <==> Canonical(text)
  {
    if Canonical(text) {
      CanonicalIsEncoded(text);
    }
  }

  function EncodedRow(values: Row): (r: Row)
    ensures |r| == |values| && forall i :: 0 <= i < |values| ==> r[i] == Encoded(values[i])
  {
    seq(|values|, i requires 0 <= i < |values| => Encoded(values[i]))
  }

  function EncodedRows(values: Table): (r: Table)
    ensures |r| == |values| && forall i :: 0 <= i < |values| ==> r[i] == EncodedRow(values[i])
  {
    seq(|values|, i requires 0 <= i < |values| => EncodedRow(values[i]))
  }

  lemma EncodedRowIsPlain(values: Row)
    ensures PlainRow(EncodedRow(values))
  {
    forall i | 0 <= i < |values| ensures Plain(EncodedRow(values)[i]) {
      EncodedIsPlain(values[i]);
    }
  }

  method EncodeRow(values: Row) returns (row: Row)
    ensures row == EncodedRow(values)
  {
    row := [];
    for i := 0 to |values|
      invariant row == EncodedRow(values)[..i]
    {
      var cell := Encode(values[i]);
      row := row + [cell];
    }
  }

  /** Values of a row of the table's width whose encoding a cell can hold. */
  predicate Fits(values: Row, colCount: nat) {
    |values| == colCount && forall c :: 0 <= c < |values| ==> |Encoded(values[c])| < INT_LIMIT
  }

  /** A table that cells can be read from, and rows added to. */
  ghost predicate Readable(t: CsvTableData)
    reads t, t.index
  {
    && t.Valid() && t.Built() && Rectangular(t.data, t.colCount) && CellsFit(t.data)
    && 0 < t.colCount < MAX_COLUMNS && (t.hasData ==> t.data != "")
  }

  method StoreRow(t: CsvTableData, values: Row)
    requires Readable(t) && Fits(values, t.colCount) && (!t.hasData ==> |RowText(EncodedRow(values))| < TWO_32)
    modifies t, t.index
    ensures Readable(t) && t.hasData && Rows(t.data) == old(Rows(t.data)) + [EncodedRow(values)]
  {
    var row := EncodeRow(values);
    EncodedRowIsPlain(values);
    t.AddRow(row);
  }

  /** Adds rows of arbitrary values, encoded. */
  method StoreAll(t: CsvTableData, values: Table)
    requires Readable(t) && forall r :: 0 <= r < |values| ==> Fits(values[r], t.colCount)
    requires !t.hasData && values != [] ==> |RowText(EncodedRow(values[0]))| < TWO_32
    modifies t, t.index
    ensures Readable(t) && (values != [] ==> t.hasData) && Rows(t.data) == old(Rows(t.data)) + EncodedRows(values)
  {
    hide Rows;
    hide EncodedRow;
    hide Readable;
    for r := 0 to |values|
      invariant Readable(t) && (r > 0 ==> t.hasData) && (r == 0 ==> t.hasData == old(t.hasData))
      invariant Rows(t.data) == old(Rows(t.data)) + EncodedRows(values)[..r]
    {
      Assoc(old(Rows(t.data)), EncodedRows(values)[..r], [EncodedRow(values[r])]);
      TakeMore(EncodedRows(values), r);
      StoreRow(t, values[r]);
    }
  }

  /** Rows of arbitrary values, stored encoded and read cell by cell through the index, come back unchanged. */
  method StoreThenFetch(t: CsvTableData, values: Table, row: nat, col: nat) returns (value: string)
    requires Readable(t) && forall r :: 0 <= r < |values| ==> Fits(values[r], t.colCount)
    requires !t.hasData && values != [] ==> |RowText(EncodedRow(values[0]))| < TWO_32
    requires row < |values| && col < t.colCount
    modifies t, t.index
    ensures col < |values[row]| && value == values[row][col]
  {
    var before := t.rowCount;
    NewlinesAreRows(t.data);
    StoreAll(t, values);
    NewlinesAreRows(t.data);
    var cell := t.GetColumn(before + row, col);
    value := Decode(cell);
    RoundTrip(values[row][col]);
  }
}
