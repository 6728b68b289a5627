/** Samples as a byte stream: how stored messages are written out one per line, read back in
    chunks, and split into lines again. Characters stand for bytes. */
module SampleStream {
  import opened Sequences

  /** bufio.MaxScanTokenSize: a line that fills the scanner's buffer stops the scan. */
  const MAX_LINE: nat := 65536

  // Lines.

  predicate IsTrimmed(c: char) {
    c == ' ' || c == '\n' || c == '\r' || c == '\t'
  }

  function TrimLeft(s: string): string {
    if s != "" && IsTrimmed(s[0]) then TrimLeft(s[1..]) else s
  }

  function TrimRight(s: string): string {
    if s != "" && IsTrimmed(s[|s| - 1]) then TrimRight(s[..|s| - 1]) else s
  }

  function Trim(s: string): string {
    TrimRight(TrimLeft(s))
  }

  /** The element a line yields: none when it is blank. */
  function Yield(line: string): seq<string> {
    if Trim(line) == "" then [] else [Trim(line)]
  }

  function LineLength(text: string): (n: nat)
    ensures n <= |text|
    ensures n < |text| ==> text[n] == '\n'
    ensures forall i :: 0 <= i < n ==> text[i] != '\n'
  {
    if text == "" || text[0] == '\n' then 0 else 1 + LineLength(text[1..])
  }

  /** What remains after the first line and its line feed. */
  function AfterLine(text: string): string {
    var n := LineLength(text);
    if n < |text| then text[n + 1..] else ""
  }

  /** The elements readerIterator yields from a reader's bytes. */
  function Elements(text: string): seq<string>
    decreases |text|
  {
    if text == "" then []
    else
      var n := LineLength(text);
      if n >= MAX_LINE then []
      else Yield(text[..n]) + Elements(AfterLine(text))
  }

  predicate NoLongLine(text: string)
    decreases |text|
  {
    text == "" || (LineLength(text) < MAX_LINE && NoLongLine(AfterLine(text)))
  }

  lemma Slices(a: string, b: string, n: nat)
    requires n <= |a|
    ensures (a + "\n" + b)[..n] == a[..n]
    ensures n < |a| ==> (a + "\n" + b)[n + 1..] == a[n + 1..] + "\n" + b
    ensures n == |a| ==> (a + "\n" + b)[n + 1..] == b
  {
  }

  lemma FirstLineLength(a: string, b: string)
    ensures LineLength(a + "\n" + b) == LineLength(a)
  {
    LineLengthIs(a + "\n" + b, LineLength(a));
  }

  lemma AfterLineAt(text: string, n: nat)
    requires LineLength(text) == n < |text|
    ensures AfterLine(text) == text[n + 1..]
  {
  }

  lemma AfterFirstLine(a: string, b: string)
    ensures AfterLine(a + "\n" + b) == if LineLength(a) < |a| then AfterLine(a) + "\n" + b else b
  {
    var n := LineLength(a);
    FirstLineLength(a, b);
    AfterLineAt(a + "\n" + b, n);
    Slices(a, b, n);
    if n < |a| {
      AfterLineAt(a, n);
    }
  }

  lemma LineLengthIs(text: string, n: nat)
    requires n <= |text| && forall i :: 0 <= i < n ==> text[i] != '\n'
    requires n == |text| || text[n] == '\n'
    ensures LineLength(text) == n
  {
  }

  /** Scanning a message, its line feed and more is scanning the message and then the rest,
      unless the message has a line too long to scan. */
  lemma {:induction false} ElementsAppend(a: string, b: string)
    ensures Elements(a + "\n" + b) == Elements(a) + if NoLongLine(a) then Elements(b) else []
    decreases |a|
  {
    var t := a + "\n" + b;
    var n := LineLength(a);
    FirstLineLength(a, b);
    AfterFirstLine(a, b);
    Slices(a, b, n);
    if n == |a| {
      LastLine(a);
      assert a[..n] == a;
    } else if n < MAX_LINE {
      ElementsAppend(AfterLine(a), b);
      var more := if NoLongLine(a) then Elements(b) else [];
      assert Elements(t) == Yield(a[..n]) + (Elements(AfterLine(a)) + more);
      Reassociate(Yield(a[..n]), Elements(AfterLine(a)), more);
    }
  }

  lemma LastLine(a: string)
    requires LineLength(a) == |a|
    ensures Elements(a) == if |a| >= MAX_LINE then [] else Yield(a)
    ensures NoLongLine(a) <==> |a| < MAX_LINE
  {
    assert a[..|a|] == a;
    assert Yield("") == [];
  }

  // The rows of a store as one stream.

  function Stream(rows: seq<string>): string {
    if rows == [] then "" else rows[0] + "\n" + Stream(rows[1..])
  }

  function AllElements(rows: seq<string>): seq<string> {
    if rows == [] then [] else Elements(rows[0]) + AllElements(rows[1..])
  }

  /** The rows up to and including the first with an overlong line. */
  function Scanned(rows: seq<string>): (n: nat)
    ensures n <= |rows|
  {
    if rows == [] then 0 else if NoLongLine(rows[0]) then 1 + Scanned(rows[1..]) else 1
  }

  lemma AllElementsTake(rows: seq<string>, n: nat)
    requires 0 < n <= |rows|
    ensures AllElements(rows[..n]) == Elements(rows[0]) + AllElements(rows[1..][..n - 1])
  {
    assert rows[..n][0] == rows[0] && rows[..n][1..] == rows[1..][..n - 1];
  }

  /** A scan yields the elements of the rows it reaches. */
  lemma {:induction false} StreamElements(rows: seq<string>)
    ensures Elements(Stream(rows)) == AllElements(rows[..Scanned(rows)])
  {
    if rows != [] {
      StreamElements(rows[1..]);
      ElementsAppend(rows[0], Stream(rows[1..]));
      AllElementsTake(rows, Scanned(rows));
    }
  }

  lemma {:induction false} AllElementsSplit(rows: seq<string>, n: nat)
    requires n <= |rows|
    ensures AllElements(rows) == AllElements(rows[..n]) + AllElements(rows[n..])
  {
    if n > 0 {
      AllElementsSplit(rows[1..], n - 1);
      AllElementsTake(rows, n);
    } else {
      assert rows[0..] == rows;
    }
  }

  /** Loading loses nothing exactly when no row after the first overlong one has an element. */
  lemma StreamComplete(rows: seq<string>)
    ensures Elements(Stream(rows)) == AllElements(rows) <==> AllElements(rows[Scanned(rows)..]) == []
  {
    StreamElements(rows);
    AllElementsSplit(rows, Scanned(rows));
  }

  lemma {:induction false} ScannedAll(rows: seq<string>)
    requires forall i :: 0 <= i < |rows| ==> NoLongLine(rows[i])
    ensures Scanned(rows) == |rows| && Elements(Stream(rows)) == AllElements(rows)
  {
    if rows != [] {
      ScannedAll(rows[1..]);
    }
    StreamElements(rows);
    assert rows[..|rows|] == rows;
  }

  // Reading in chunks.

  datatype ReadResult = Chunk(n: nat) | EndOfFile | Closed

  /** A reader over database rows that serves a message in pieces when the caller's buffer is
      smaller than the message. */
  class SampleReader {
    var rows: seq<string>
    var buffer: string
    var current: string
    var closed: bool

    constructor (rows: seq<string>)
      ensures Rest() == Stream(rows) && !closed
    {
      this.rows, buffer, current, closed := rows, "", "", false;
    }

    /** The bytes that this reader has yet to deliver. */
    ghost function Rest(): string
      reads this
    {
      buffer + Stream(rows)
    }

    method Read(p: array<char>) returns (r: ReadResult)
      modifies this, p
      ensures closed == old(closed)
      ensures old(closed) ==> r == Closed && Rest() == old(Rest()) && p[..] == old(p[..])
      ensures !old(closed) ==> (r.EndOfFile? <==> old(Rest()) == "") && r != Closed
      ensures r.EndOfFile? ==> Rest() == "" && p[..] == old(p[..])
      ensures r.Chunk? ==> r.n <= p.Length && old(Rest()) == p[..r.n] + Rest()
      ensures r.Chunk? ==> p[r.n..] == old(p[r.n..]) && (p.Length > 0 ==> r.n > 0)
    {
      if closed {
        return Closed;
      }
      if |buffer| == 0 {
        if |rows| == 0 {
          return EndOfFile;
        }
        current := rows[0];
        rows := rows[1..];
        buffer := current + "\n";
      }
      ghost var rest := Rest();
      assert rest == old(Rest());
      var n := if p.Length < |buffer| then p.Length else |buffer|;
      forall i | 0 <= i < n {
        p[i] := buffer[i];
      }
      assert p[..n] == buffer[..n] && buffer == buffer[..n] + buffer[n..];
      Reassociate(buffer[..n], buffer[n..], Stream(rows));
      buffer := buffer[n..];
      assert rest == p[..n] + Rest();
      r := Chunk(n);
    }

    method Close()
      modifies this
      ensures closed && rows == [] && buffer == old(buffer)
    {
      closed := true;
      rows := [];
    }

    /** A consumer that reads with buffers of any sizes gets a prefix of the stream, and all of
        it once an end of file was reported. */
    method Drain(sizes: seq<nat>) returns (text: string, ended: bool)
      requires !closed
      modifies this
      ensures old(Rest()) == text + Rest()
      ensures ended ==> text == old(Rest())
      ensures |text| < |sizes| && (forall i :: 0 <= i < |sizes| ==> sizes[i] > 0) ==> ended
    {
      text, ended := "", false;
      var i := 0;
      while i < |sizes| && !ended
        invariant 0 <= i <= |sizes| && !closed
        invariant old(Rest()) == text + Rest()
        invariant ended ==> Rest() == ""
        decreases |sizes| - i, !ended
        invariant !ended && (forall j :: 0 <= j < |sizes| ==> sizes[j] > 0) ==> |text| >= i
      {
        var p := new char[sizes[i]];
        var r := Read(p);
        if r.EndOfFile? {
          ended := true;
        } else {
          text := text + p[..r.n];
          i := i + 1;
        }
      }
    }

    /** A consumer that reads until the end gets the whole stream, whatever its buffers. */
    method ReadAll(sizes: nat -> nat) returns (text: string)
      requires !closed && forall i :: sizes(i) > 0
      modifies this
      ensures text == old(Rest()) && Rest() == "" && !closed
    {
      text := "";
      var i, ended := 0, false;
      while !ended
        invariant !closed && old(Rest()) == text + Rest()
        invariant ended ==> Rest() == ""
        decreases |Rest()|, !ended
      {
        var p := new char[sizes(i)];
        var r := Read(p);
        if r.EndOfFile? {
          ended := true;
        } else {
          text := text + p[..r.n];
          i := i + 1;
        }
      }
    }
  }
}
