/** Decoding what the export wrote gives back the rows. */
module CopyRoundTrip {
  import opened Sequences
  import opened Decimal
  import opened CopyText

  // Fields.

  predicate Special(c: char) {
    c == '\\' || c == '\t' || c == '\n' || c == '\r'
  }

  /** Text that needs no escaping. */
  predicate Plain(s: string) {
    forall i :: 0 <= i < |s| ==> !Special(s[i])
  }

  /** Values printed as they are must not contain special characters; numbers and times do not. */
  predicate Printable(v: Value) {
    v.Rendered? ==> Plain(v.s)
  }

  predicate AllPrintable(row: seq<Value>) {
    forall i :: 0 <= i < |row| ==> Printable(row[i])
  }

  /** What a decoder should read for a value. */
  function Meaning(v: Value): Option<string> {
    match v
    case Null => None
    case Text(s) => Some(s)
    case Bytes(s) => Some(s)
    case Boolean(b) => Some(if b then "t" else "f")
    case Integer(n) => Some(Signed(n))
    case Rendered(s) => Some(s)
  }

  /** NULL is nothing, text and bytes are themselves, and a number is a numeral for it. */
  lemma MeaningOf(v: Value)
    ensures Meaning(v).None? <==> v.Null?
    ensures v.Text? || v.Bytes? || v.Rendered? ==> Meaning(v) == Some(v.s)
    ensures v.Boolean? ==> Meaning(v) == Some(if v.b then "t" else "f")
    ensures v.Integer? && v.n >= 0 ==>
              var d := Meaning(v).value; (forall i :: 0 <= i < |d| ==> IsDigit(d[i])) && ValueOf(d) == v.n
    ensures v.Integer? && v.n < 0 ==>
              var d := Meaning(v).value;
              d != "" && d[0] == '-' && (forall i :: 1 <= i < |d| ==> IsDigit(d[i])) && ValueOf(d[1..]) == -v.n
  {
    if v.Integer? {
      ItoaValue(if v.n < 0 then -v.n else v.n);
    }
  }

  lemma UnescapePlainFirst(c: char, rest: string)
    requires c != '\\'
    ensures Unescape([c] + rest) == [c] + Unescape(rest)
  {
    assert ([c] + rest)[1..] == rest;
  }

  /** A backslash with one of the letters that stand for a character of their own. */
  lemma UnescapeLetter(c: char, rest: string)
    requires c == '\\' || c == 't' || c == 'n' || c == 'r'
    ensures Unescape(['\\', c] + rest)
         == [if c == 't' then '\t' else if c == 'n' then '\n' else if c == 'r' then '\r' else c] + Unescape(rest)
  {
    var raw := ['\\', c] + rest;
    assert raw[2..] == rest && raw[1] == c && raw[1..][0] == c;
    assert Digits(raw[1..], 8, 3) == 0;
  }

  lemma UnescapeFirst(c: char, rest: string)
    ensures Unescape(EscapeChar(c) + rest) == [c] + Unescape(rest)
  {
    match c
    case '\\' => UnescapeLetter('\\', rest);
    case '\t' => UnescapeLetter('t', rest);
    case '\n' => UnescapeLetter('n', rest);
    case '\r' => UnescapeLetter('r', rest);
    case _ => UnescapePlainFirst(c, rest);
  }

  lemma {:induction false} UnescapeInverts(s: string)
    ensures Unescape(EscapeEach(s)) == s
  {
    if s != "" {
      UnescapeInverts(s[1..]);
      UnescapeFirst(s[0], EscapeEach(s[1..]));
    }
  }

  lemma {:induction false} UnescapePlain(s: string)
    requires Plain(s)
    ensures Unescape(s) == s
  {
    if s != "" {
      UnescapePlain(s[1..]);
    }
  }

  lemma SignedPlain(n: int)
    ensures Plain(Signed(n)) && Signed(n) != "\\N"
  {
    assert Signed(n)[0] == '-' || IsDigit(Signed(n)[0]);
  }

  /** A text never encodes to the null marker, nor starts like the end marker. */
  predicate GoodStart(f: string) {
    f == "" || f[0] != '\\' || (|f| >= 2 && f[1] != '.')
  }

  lemma EscapedStart(s: string)
    ensures GoodStart(EscapeEach(s)) && EscapeEach(s) != "\\N"
  {
  }

  /** The field of a value decodes to the value. */
  lemma FieldRoundTrip(v: Value)
    requires Printable(v)
    ensures DecodeField(FormatPostgresValue(v)) == Meaning(v)
    ensures GoodStart(FormatPostgresValue(v))
  {
    match v
    case Null =>
    case Text(s) => EscapeIsPerCharacter(s); UnescapeInverts(s); EscapedStart(s);
    case Bytes(s) => EscapeIsPerCharacter(s); UnescapeInverts(s); EscapedStart(s);
    case Boolean(b) => UnescapePlain(FormatPostgresValue(v));
    case Integer(n) => SignedPlain(n); UnescapePlain(Signed(n));
    case Rendered(s) => UnescapePlain(s);
  }

  /** No raw tab, line feed or carriage return is left in an escaped text. */
  lemma {:induction false} EscapedHasNoControls(s: string, c: char)
    requires c == '\t' || c == '\n' || c == '\r'
    ensures c !in Escape(s)
  {
    EscapeIsPerCharacter(s);
    if s != "" {
      EscapedHasNoControls(s[1..], c);
      EscapeIsPerCharacter(s[1..]);
    }
  }

  // Where fields and rows end.

  /** Text that runs past its own end when searched for stop: no raw stop, no dangling escape. */
  predicate Sealed(e: string, stop: char) {
    e == "" ||
      (e[0] != stop && if e[0] == '\\' then |e| >= 2 && Sealed(e[2..], stop) else Sealed(e[1..], stop))
  }

  lemma {:induction false} SealedAppend(a: string, b: string, stop: char)
    requires Sealed(a, stop) && Sealed(b, stop)
    ensures Sealed(a + b, stop)
  {
    if a == "" {
      assert a + b == b;
    } else if a[0] == '\\' {
      SealedAppend(a[2..], b, stop);
      assert (a + b)[2..] == a[2..] + b;
    } else {
      SealedAppend(a[1..], b, stop);
      assert (a + b)[1..] == a[1..] + b;
    }
  }

  lemma {:induction false} SpanPast(e: string, rest: string, stop: char)
    requires Sealed(e, stop) && (rest == "" || rest[0] == stop)
    ensures SpanTo(e + rest, stop) == |e|
  {
    if e == "" {
      assert e + rest == rest;
    } else if e[0] == '\\' {
      SpanPast(e[2..], rest, stop);
      assert (e + rest)[2..] == e[2..] + rest;
    } else {
      SpanPast(e[1..], rest, stop);
      assert (e + rest)[1..] == e[1..] + rest;
    }
  }

  lemma {:induction false} PlainSealed(s: string, stop: char)
    requires Plain(s) && Special(stop)
    ensures Sealed(s, stop)
  {
    if s != "" {
      PlainSealed(s[1..], stop);
    }
  }

  lemma {:induction false} EscapedSealed(s: string, stop: char)
    requires stop == '\t' || stop == '\n'
    ensures Sealed(EscapeEach(s), stop)
  {
    if s != "" {
      EscapedSealed(s[1..], stop);
      var e := EscapeChar(s[0]);
      assert Special(s[0]) ==> e[2..] == "";
      assert !Special(s[0]) ==> e[1..] == "";
      SealedAppend(e, EscapeEach(s[1..]), stop);
    }
  }

  lemma FieldSealed(v: Value, stop: char)
    requires Printable(v) && (stop == '\t' || stop == '\n')
    ensures Sealed(FormatPostgresValue(v), stop)
  {
    match v
    case Null => assert "\\N"[2..] == "";
    case Text(s) => EscapeIsPerCharacter(s); EscapedSealed(s, stop);
    case Bytes(s) => EscapeIsPerCharacter(s); EscapedSealed(s, stop);
    case Boolean(b) => PlainSealed(FormatPostgresValue(v), stop);
    case Integer(n) => SignedPlain(n); PlainSealed(Signed(n), stop);
    case Rendered(s) => PlainSealed(s, stop);
  }

  // Rows.

  lemma {:induction false} FieldsOfJoin(fs: seq<string>)
    requires fs != [] && forall i :: 0 <= i < |fs| ==> Sealed(fs[i], '\t')
    ensures Fields(Join(fs)) == fs
  {
    if |fs| == 1 {
      SpanPast(fs[0], "", '\t');
      assert fs[0] + "" == fs[0];
    } else {
      var rest := "\t" + Join(fs[1..]);
      SpanPast(fs[0], rest, '\t');
      FieldsOfJoin(fs[1..]);
      assert Join(fs) == fs[0] + rest;
      assert Join(fs)[..|fs[0]|] == fs[0] && Join(fs)[|fs[0]| + 1..] == Join(fs[1..]);
    }
  }

  /** Splitting an encoded row on tabs and decoding its fields recovers exactly its columns. */
  lemma RowRoundTrip(row: seq<Value>)
    requires row != [] && AllPrintable(row)
    ensures |DecodeLine(EncodeRow(row))| == |row|
    ensures forall i :: 0 <= i < |row| ==> DecodeLine(EncodeRow(row))[i] == Meaning(row[i])
  {
    var fs := Formats(row);
    forall i | 0 <= i < |row| ensures Sealed(fs[i], '\t') && DecodeField(fs[i]) == Meaning(row[i]) {
      FieldSealed(row[i], '\t');
      FieldRoundTrip(row[i]);
    }
    FieldsOfJoin(fs);
  }

  lemma {:induction false} JoinSealed(fs: seq<string>)
    requires forall i :: 0 <= i < |fs| ==> Sealed(fs[i], '\n')
    ensures Sealed(Join(fs), '\n')
  {
    if |fs| > 1 {
      JoinSealed(fs[1..]);
      assert "\t"[1..] == "" && Sealed("\t", '\n');
      SealedAppend(fs[0], "\t", '\n');
      SealedAppend(fs[0] + "\t", Join(fs[1..]), '\n');
    }
  }

  lemma JoinStart(fs: seq<string>)
    requires forall i :: 0 <= i < |fs| ==> GoodStart(fs[i])
    ensures GoodStart(Join(fs))
  {
    if |fs| > 1 {
      assert GoodStart(fs[0]);
      assert Join(fs) == fs[0] + "\t" + Join(fs[1..]);
    }
  }

  lemma RowLine(row: seq<Value>)
    requires AllPrintable(row)
    ensures Sealed(EncodeRow(row), '\n') && EncodeRow(row) != "\\."
  {
    var fs := Formats(row);
    forall i | 0 <= i < |row| ensures Sealed(fs[i], '\n') && GoodStart(fs[i]) {
      FieldSealed(row[i], '\n');
      FieldRoundTrip(row[i]);
    }
    JoinSealed(fs);
    JoinStart(fs);
  }

  function RowMeaning(row: seq<Value>): seq<Option<string>> {
    seq(|row|, i requires 0 <= i < |row| => Meaning(row[i]))
  }

  function RowsMeaning(rows: seq<seq<Value>>): seq<seq<Option<string>>> {
    seq(|rows|, i requires 0 <= i < |rows| => RowMeaning(rows[i]))
  }

  lemma EndOnly()
    ensures DecodeRows("\\.\n") == Some([])
  {
    var text := "\\.\n";
    assert "\\."[2..] == "" && Sealed("\\.", '\n');
    SpanPast("\\.", "\n", '\n');
    assert text == "\\." + "\n" && text[..2] == "\\.";
  }

  lemma LineOff(line: string, rest: string)
    ensures var text := line + "\n" + rest;
            text == line + ("\n" + rest) && text[..|line|] == line && text[|line| + 1..] == rest
  {
    assert line + "\n" + rest == line + ("\n" + rest);
  }

  lemma DecodeFirst(line: string, rest: string)
    requires Sealed(line, '\n') && line != "\\."
    ensures var others := DecodeRows(rest);
            DecodeRows(line + "\n" + rest) == if others.Some? then Some([DecodeLine(line)] + others.value) else None
  {
    SpanPast(line, "\n" + rest, '\n');
    LineOff(line, rest);
  }

  lemma FirstRowMeaning(rows: seq<seq<Value>>)
    requires rows != [] && rows[0] != [] && AllPrintable(rows[0])
    ensures RowsMeaning(rows) == [DecodeLine(EncodeRow(rows[0]))] + RowsMeaning(rows[1..])
  {
    RowRoundTrip(rows[0]);
    assert DecodeLine(EncodeRow(rows[0])) == RowMeaning(rows[0]);
  }

  /** Reading the whole block back, up to the end marker, gives the exported rows. */
  lemma {:induction false} RowsRoundTrip(rows: seq<seq<Value>>)
    requires forall i :: 0 <= i < |rows| ==> rows[i] != [] && AllPrintable(rows[i])
    ensures DecodeRows(EncodeRows(rows)) == Some(RowsMeaning(rows))
  {
    if rows == [] {
      EndOnly();
      assert RowsMeaning(rows) == [];
    } else {
      RowLine(rows[0]);
      DecodeFirst(EncodeRow(rows[0]), EncodeRows(rows[1..]));
      RowsRoundTrip(rows[1..]);
      FirstRowMeaning(rows);
    }
  }

  // The exporter's loop over columns and rows.

  /** The cell written for a column: NULL when the row lacks it, and the stored integer flag of
      detected_spam.added as a boolean. */
  function Cell(table: string, row: map<string, Value>, column: string): Value {
    if column !in row then Null
    else if table == "detected_spam" && column == "added" && row[column].Integer? then Boolean(row[column].n != 0)
    else row[column]
  }

  /** Every column but the one that the database generates. */
  function Stored(): string -> bool {
    (c: string) => c != "message_hash"
  }

  function CopyColumns(table: string, columns: seq<string>): seq<string> {
    if table == "samples" then Filter(Stored(), columns) else columns
  }

  function Cells(table: string, row: map<string, Value>, columns: seq<string>): seq<Value> {
    seq(|columns|, i requires 0 <= i < |columns| => Cell(table, row, columns[i]))
  }

  function AllCells(table: string, rows: seq<map<string, Value>>, columns: seq<string>): seq<seq<Value>> {
    seq(|rows|, i requires 0 <= i < |rows| => Cells(table, rows[i], columns))
  }

  /** What is read back for a column: nothing for a missing or NULL one, a boolean for the stored
      integer flag of detected_spam.added, and what is stored otherwise. */
  lemma CellMeans(table: string, row: map<string, Value>, column: string)
    ensures Meaning(Cell(table, row, column)).None? <==> column !in row || row[column].Null?
    ensures column in row && row[column].Integer? && table == "detected_spam" && column == "added" ==>
              Meaning(Cell(table, row, column)) == Some(if row[column].n == 0 then "f" else "t")
    ensures column in row && !(row[column].Integer? && table == "detected_spam" && column == "added") ==>
              Cell(table, row, column) == row[column]
  {
  }

  /** Only the generated column of samples is left out; the others keep their order. */
  lemma ColumnsMean(table: string, columns: seq<string>, i: nat)
    requires i < |columns| && columns[i] != "message_hash"
    ensures table != "samples" ==> CopyColumns(table, columns) == columns
    ensures table == "samples" ==> "message_hash" !in CopyColumns(table, columns)
    ensures table == "samples" ==>
              var behind := |set j | i < j < |columns| && columns[j] != "message_hash"|;
              && |CopyColumns(table, columns)| == |set j | 0 <= j < |columns| && columns[j] != "message_hash"|
              && behind < |CopyColumns(table, columns)|
              && CopyColumns(table, columns)[|CopyColumns(table, columns)| - 1 - behind] == columns[i]
  {
    FilterMember(Stored(), columns, "message_hash");
    FilterSize(Stored(), columns);
    assert Places(Stored(), columns) == set j | 0 <= j < |columns| && columns[j] != "message_hash";
    FilterPlace(Stored(), columns, i);
    assert LaterPlaces(Stored(), columns, i) == set j | i < j < |columns| && columns[j] != "message_hash";
  }

  predicate RowPrintable(row: map<string, Value>) {
    forall c :: c in row ==> Printable(row[c])
  }

  lemma EncodeRowsSnoc(rows: seq<seq<Value>>, i: nat, done: string)
    requires i < |rows| && done + EncodeRows(rows[i..]) == EncodeRows(rows)
    ensures done + EncodeRow(rows[i]) + "\n" + EncodeRows(rows[i + 1..]) == EncodeRows(rows)
  {
    var line, rest := EncodeRow(rows[i]), EncodeRows(rows[i + 1..]);
    assert rows[i..][0] == rows[i] && rows[i..][1..] == rows[i + 1..];
    Reassociate(done, line + "\n", rest);
    Reassociate(done, line, "\n");
  }

  method FormatCells(table: string, row: map<string, Value>, columns: seq<string>) returns (values: seq<string>)
    ensures values == Formats(Cells(table, row, columns))
    ensures forall j :: 0 <= j < |columns| ==>
              values[j] == if columns[j] !in row then "\\N"
                           else if table == "detected_spam" && columns[j] == "added" && row[columns[j]].Integer?
                                then (if row[columns[j]].n == 0 then "f" else "t")
                           else FormatPostgresValue(row[columns[j]])
  {
    values := [];
    for i := 0 to |columns|
      invariant |values| == i
      invariant forall j :: 0 <= j < i ==> values[j] == FormatPostgresValue(Cell(table, row, columns[j]))
    {
      var column := columns[i];
      if column !in row {
        values := values + ["\\N"];
        continue;
      }
      var value := row[column];
      if table == "detected_spam" && column == "added" && value.Integer? {
        values := values + [if value.n == 0 then "f" else "t"];
        continue;
      }
      values := values + [FormatPostgresValue(value)];
    }
  }

  /** The data block of a table, after its COPY header; nothing for an empty table. */
  method ExportTableData(table: string, columns: seq<string>, rows: seq<map<string, Value>>) returns (out: string)
    ensures out == if rows == [] then "" else EncodeRows(AllCells(table, rows, CopyColumns(table, columns)))
    ensures rows != [] && CopyColumns(table, columns) != []
            && (forall i :: 0 <= i < |rows| ==> RowPrintable(rows[i])) ==>
              DecodeRows(out) == Some(RowsMeaning(AllCells(table, rows, CopyColumns(table, columns))))
  {
    if |rows| == 0 {
      return "";
    }
    var copyColumns := CopyColumns(table, columns);
    ghost var cells := AllCells(table, rows, copyColumns);
    out := "";
    var i := 0;
    while i < |rows|
      invariant 0 <= i <= |rows|
      invariant out + EncodeRows(cells[i..]) == EncodeRows(cells)
    {
      var values := FormatCells(table, rows[i], copyColumns);
      EncodeRowsSnoc(cells, i, out);
      out := out + Join(values) + "\n";
      i := i + 1;
    }
    out := out + "\\.\n";
    if copyColumns != [] && forall i :: 0 <= i < |rows| ==> RowPrintable(rows[i]) {
      forall i | 0 <= i < |rows| ensures cells[i] != [] && AllPrintable(cells[i]) {
        assert RowPrintable(rows[i]);
      }
      RowsRoundTrip(cells);
    }
  }

  // The backup of a PostgreSQL database writes rows the same way, but spells booleans out.

  function Spelled(v: Value): Value {
    if v.Boolean? then Rendered(if v.b then "true" else "false") else v
  }

  function BackupCells(row: map<string, Value>, columns: seq<string>): seq<Value> {
    seq(|columns|, i requires 0 <= i < |columns| => if columns[i] in row then Spelled(row[columns[i]]) else Null)
  }

  /** What is read back: nothing for a missing column, booleans in full, and what is stored otherwise. */
  lemma BackupMeans(row: map<string, Value>, columns: seq<string>, i: nat)
    requires i < |columns|
    ensures RowMeaning(BackupCells(row, columns))[i]
         == if columns[i] !in row then None
            else if row[columns[i]].Boolean? then Some(if row[columns[i]].b then "true" else "false")
            else Meaning(row[columns[i]])
  {
  }

  lemma SpelledPrintable(v: Value)
    requires Printable(v)
    ensures Printable(Spelled(v))
  {
    if v.Boolean? {
      assert Plain("rue") && Plain("true") && Plain("alse") && Plain("false");
    }
  }

  /** One line of the backup; without its line feed it decodes to the cells written. */
  method WritePostgresRow(row: map<string, Value>, columns: seq<string>) returns (line: string)
    ensures line == EncodeRow(BackupCells(row, columns)) + "\n"
    ensures columns != [] && RowPrintable(row) ==>
              DecodeLine(line[..|line| - 1]) == RowMeaning(BackupCells(row, columns))
  {
    var values: seq<string> := [];
    ghost var cells := BackupCells(row, columns);
    for i := 0 to |columns|
      invariant |values| == i
      invariant forall j :: 0 <= j < i ==> values[j] == FormatPostgresValue(cells[j])
    {
      if columns[i] !in row {
        values := values + ["\\N"];
      } else {
        values := values + [FormatPostgresValue(Spelled(row[columns[i]]))];
      }
    }
    assert values == Formats(cells);
    line := Join(values) + "\n";
    if columns != [] && RowPrintable(row) {
      forall i | 0 <= i < |cells| ensures Printable(cells[i]) {
        if columns[i] in row {
          SpelledPrintable(row[columns[i]]);
        }
      }
      RowRoundTrip(cells);
    }
  }
}
