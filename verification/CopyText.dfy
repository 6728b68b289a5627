/** The PostgreSQL COPY text format: how rows are written, and a decoder for what was written
    that follows the section Text Format under File Formats of the PostgreSQL COPY reference. */
module CopyText {
  import opened Sequences
  import opened Decimal

  // Writing.

  /** Rendered is a value the program prints as it is: a number or a formatted time. */
  datatype Value = Null | Text(s: string) | Bytes(s: string) | Boolean(b: bool) | Integer(n: int) | Rendered(s: string)

  /** strings.ReplaceAll for a pattern of one character. */
  function ReplaceAll(s: string, c: char, by_: string): string {
    if s == "" then ""
    else (if s[0] == c then by_ else [s[0]]) + ReplaceAll(s[1..], c, by_)
  }

  function Escape(s: string): string {
    ReplaceAll(ReplaceAll(ReplaceAll(ReplaceAll(s, '\\', "\\\\"), '\t', "\\t"), '\n', "\\n"), '\r', "\\r")
  }

  function FormatPostgresValue(v: Value): string {
    match v
    case Null => "\\N"
    case Text(s) => Escape(s)
    case Bytes(s) => Escape(s)
    case Boolean(b) => if b then "t" else "f"
    case Integer(n) => Signed(n)
    case Rendered(s) => s
  }

  function Join(fields: seq<string>): string {
    if fields == [] then ""
    else if |fields| == 1 then fields[0]
    else fields[0] + "\t" + Join(fields[1..])
  }

  function Formats(row: seq<Value>): (fs: seq<string>)
    ensures |fs| == |row| && forall i :: 0 <= i < |fs| ==> fs[i] == FormatPostgresValue(row[i])
  {
    seq(|row|, i requires 0 <= i < |row| => FormatPostgresValue(row[i]))
  }

  function EncodeRow(row: seq<Value>): string {
    Join(Formats(row))
  }

  function EncodeRows(rows: seq<seq<Value>>): string {
    if rows == [] then "\\.\n" else EncodeRow(rows[0]) + "\n" + EncodeRows(rows[1..])
  }

  // Escaping is one substitution per character.

  function EscapeChar(c: char): string {
    match c
    case '\\' => "\\\\"
    case '\t' => "\\t"
    case '\n' => "\\n"
    case '\r' => "\\r"
    case _ => [c]
  }

  function EscapeEach(s: string): string {
    if s == "" then "" else EscapeChar(s[0]) + EscapeEach(s[1..])
  }

  lemma {:induction false} ReplaceAppend(a: string, b: string, c: char, r: string)
    ensures ReplaceAll(a + b, c, r) == ReplaceAll(a, c, r) + ReplaceAll(b, c, r)
  {
    if a == "" {
      assert a + b == b;
    } else {
      ReplaceAppend(a[1..], b, c, r);
      assert (a + b)[1..] == a[1..] + b;
      Reassociate(if a[0] == c then r else [a[0]], ReplaceAll(a[1..], c, r), ReplaceAll(b, c, r));
    }
  }

  lemma EscapeAppend(a: string, b: string)
    ensures Escape(a + b) == Escape(a) + Escape(b)
  {
    var f, g := ReplaceAll(a, '\\', "\\\\"), ReplaceAll(b, '\\', "\\\\");
    ReplaceAppend(a, b, '\\', "\\\\");
    var f2, g2 := ReplaceAll(f, '\t', "\\t"), ReplaceAll(g, '\t', "\\t");
    ReplaceAppend(f, g, '\t', "\\t");
    ReplaceAppend(f2, g2, '\n', "\\n");
    ReplaceAppend(ReplaceAll(f2, '\n', "\\n"), ReplaceAll(g2, '\n', "\\n"), '\r', "\\r");
  }

  lemma ReplaceOne(x: char, c: char, r: string)
    ensures ReplaceAll([x], c, r) == if x == c then r else [x]
  {
    assert [x][1..] == "";
  }

  lemma ReplaceTwo(x: char, y: char, c: char, r: string)
    requires x != c && y != c
    ensures ReplaceAll([x, y], c, r) == [x, y]
  {
    assert [x, y][1..] == [y];
    ReplaceOne(y, c, r);
  }

  lemma EscapeOne(x: char)
    ensures Escape([x]) == EscapeChar(x)
  {
    ReplaceOne(x, '\\', "\\\\");
    if x == '\\' {
      ReplaceTwo('\\', '\\', '\t', "\\t");
      ReplaceTwo('\\', '\\', '\n', "\\n");
      ReplaceTwo('\\', '\\', '\r', "\\r");
    } else {
      ReplaceOne(x, '\t', "\\t");
      if x == '\t' {
        ReplaceTwo('\\', 't', '\n', "\\n");
        ReplaceTwo('\\', 't', '\r', "\\r");
      } else {
        ReplaceOne(x, '\n', "\\n");
        if x == '\n' {
          ReplaceTwo('\\', 'n', '\r', "\\r");
        } else {
          ReplaceOne(x, '\r', "\\r");
        }
      }
    }
  }

  /** The four successive replacements never touch each other's output. */
  lemma {:induction false} EscapeIsPerCharacter(s: string)
    ensures Escape(s) == EscapeEach(s)
  {
    if s != "" {
      EscapeIsPerCharacter(s[1..]);
      EscapeAppend([s[0]], s[1..]);
      EscapeOne(s[0]);
      assert s == [s[0]] + s[1..];
    }
  }

  // Reading.

  /** How far text runs before an unescaped stop character. */
  function SpanTo(text: string, stop: char): (n: nat)
    ensures n <= |text|
  {
    if text == "" || text[0] == stop then 0
    else if text[0] == '\\' && |text| >= 2 then 2 + SpanTo(text[2..], stop)
    else 1 + SpanTo(text[1..], stop)
  }

  function Fields(line: string): seq<string>
    decreases |line|
  {
    var n := SpanTo(line, '\t');
    if n < |line| then [line[..n]] + Fields(line[n + 1..]) else [line]
  }

  function Hex(c: char): int {
    if '0' <= c <= '9' then c as int - '0' as int
    else if 'a' <= c <= 'f' then c as int - 'a' as int + 10
    else if 'A' <= c <= 'F' then c as int - 'A' as int + 10
    else -1
  }

  /** The digits of base 8 or 16, at most `most` of them, at the start of s. */
  function Digits(s: string, base: int, most: nat): (n: nat)
    ensures n <= most && n <= |s|
  {
    if most == 0 || s == "" || !(0 <= Hex(s[0]) < base) then 0 else 1 + Digits(s[1..], base, most - 1)
  }

  function Number(s: string, base: int): int {
    if s == "" then 0 else base * Number(s[..|s| - 1], base) + Hex(s[|s| - 1])
  }

  function Byte(n: int): char {
    (n % 256) as char
  }

  /** The text of a field: backslash sequences stand for special characters, codes in octal or
      hexadecimal, or the character itself. */
  function Unescape(raw: string): string
    decreases |raw|
  {
    if raw == "" then ""
    else if raw[0] != '\\' then [raw[0]] + Unescape(raw[1..])
    else if |raw| == 1 then ""
    else
      var c, rest := raw[1], raw[2..];
      var octal, hexadecimal := Digits(raw[1..], 8, 3), Digits(rest, 16, 2);
      if octal > 0 then [Byte(Number(raw[1..][..octal], 8))] + Unescape(raw[1..][octal..])
      else if c == 'x' && hexadecimal > 0 then [Byte(Number(rest[..hexadecimal], 16))] + Unescape(rest[hexadecimal..])
      else [match c
            case 'b' => '\U{8}'
            case 'f' => '\U{C}'
            case 'n' => '\n'
            case 'r' => '\r'
            case 't' => '\t'
            case 'v' => '\U{B}'
            case _ => c] + Unescape(rest)
  }

  /** A field is NULL only when it is literally the null marker. */
  function DecodeField(raw: string): Option<string> {
    if raw == "\\N" then None else Some(Unescape(raw))
  }

  function DecodeLine(line: string): (row: seq<Option<string>>) {
    var raw := Fields(line);
    seq(|raw|, i requires 0 <= i < |raw| => DecodeField(raw[i]))
  }

  /** The rows up to the end-of-data marker; None when it is missing. */
  function DecodeRows(text: string): Option<seq<seq<Option<string>>>>
    decreases |text|
  {
    var n := SpanTo(text, '\n');
    if n >= |text| then None
    else if text[..n] == "\\." then Some([])
    else
      var rest := DecodeRows(text[n + 1..]);
      if rest.None? then None else Some([DecodeLine(text[..n])] + rest.value)
  }
}
