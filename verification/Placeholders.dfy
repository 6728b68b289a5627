/** Rewriting `?` placeholders to numbered ones for PostgreSQL. */
module Placeholders {
  import opened Decimal
  import opened Sequences

  /** A query after binding: its characters, and arguments by their number. */
  datatype Piece = Literal(c: char) | Argument(number: nat)

  // The rewriting.

  /** The rewritten query, when `next` is the next placeholder number. */
  function Numbered(q: string, quoted: bool, next: nat): string {
    if q == "" then ""
    else if q[0] == '\'' then [q[0]] + Numbered(q[1..], !quoted, next)
    else if q[0] == '?' && !quoted then "$" + Itoa(next) + Numbered(q[1..], quoted, next + 1)
    else [q[0]] + Numbered(q[1..], quoted, next)
  }

  datatype DbType = Unknown | Sqlite | Postgres

  /** What one character is rewritten to, and what it makes of the state. */
  function Written(c: char, quoted: bool, next: nat): string {
    if c == '?' && !quoted then "$" + Itoa(next) else [c]
  }

  function Toggled(c: char, quoted: bool): bool {
    if c == '\'' then !quoted else quoted
  }

  function Bumped(c: char, quoted: bool, next: nat): nat {
    if c == '?' && !quoted then next + 1 else next
  }

  lemma NumberedStep(q: string, quoted: bool, next: nat, i: nat, done: string)
    requires i < |q|
    ensures done + Numbered(q[i..], quoted, next)
         == (done + Written(q[i], quoted, next))
            + Numbered(q[i + 1..], Toggled(q[i], quoted), Bumped(q[i], quoted, next))
  {
    var rest := Numbered(q[i + 1..], Toggled(q[i], quoted), Bumped(q[i], quoted, next));
    assert q[i..][0] == q[i] && q[i..][1..] == q[i + 1..];
    assert Numbered(q[i..], quoted, next) == Written(q[i], quoted, next) + rest;
    Reassociate(done, Written(q[i], quoted, next), rest);
  }

  method Adopt(db: DbType, q: string) returns (result: string)
    ensures result == if db.Postgres? then Numbered(q, false, 1) else q
  {
    if db != Postgres {
      return q;
    }
    var count: nat := 1;
    var inQuotes := false;
    result := "";
    var i := 0;
    while i < |q|
      invariant 0 <= i <= |q|
      invariant result + Numbered(q[i..], inQuotes, count) == Numbered(q, false, 1)
    {
      NumberedStep(q, inQuotes, count, i, result);
      match q[i] {
        case '\'' =>
          inQuotes := !inQuotes;
          result := result + [q[i]];
        case '?' =>
          if inQuotes {
            result := result + [q[i]];
          } else {
            result := result + ("$" + Itoa(count));
            count := count + 1;
          }
        case _ =>
          result := result + [q[i]];
      }
      i := i + 1;
    }
  }

  // Lexing.

  /** Where in a query a lexer stands: in code, with the identifier being read and whether a dollar
      sign stands before it, or inside something whose characters are not code. */
  datatype Mode =
    | Code(word: string, dollar: bool)
    | Quote(end: char)
    | Backslashes(escaped: bool)
    | DollarQuote(close: string, seen: string)
    | LineComment
    | BlockComment(depth: nat, last: char)

  const START := Code("", false)

  predicate StartsWord(c: char) {
    'a' <= c <= 'z' || 'A' <= c <= 'Z' || c == '_' || c >= '\U{80}'
  }

  function EndsWith(s: string, end: string): bool {
    |end| <= |s| && s[|s| - |end|..] == end
  }

  /** One more character of a block comment; PostgreSQL nests them. */
  function InComment(depth: nat, last: char, c: char, nests: bool): Mode {
    if last == '*' && c == '/' then (if depth <= 1 then START else BlockComment(depth - 1, ' '))
    else if last == '/' && c == '*' && (depth == 0 || nests) then BlockComment(depth + 1, ' ')
    else BlockComment(depth, c)
  }

  /** SQLite's lexer, when `ahead` is the character behind c: single and double quotes, backticks
      and brackets, and both kinds of comments. */
  function NextSqlite(m: Mode, c: char, ahead: char): Mode {
    match m
    case Code(_, _) =>
      if c == '\'' || c == '"' || c == '`' then Quote(c)
      else if c == '[' then Quote(']')
      else if c == '-' && ahead == '-' then LineComment
      else if c == '/' && ahead == '*' then BlockComment(0, c)
      else START
    case Quote(end) => if c == end then START else m
    case LineComment => if c == '\n' then START else m
    case BlockComment(depth, last) => InComment(depth, last, c, false)
    case _ => m
  }

  /** PostgreSQL's lexer (sections 4.1.1 and 4.1.2 of its manual): single and double quotes, strings
      with backslashes behind an E, dollar-quoted strings, and comments. A digit or dollar sign
      continues an identifier and does not start one. */
  function NextPostgres(m: Mode, c: char, ahead: char): Mode {
    match m
    case Code(word, dollar) =>
      if c == '\'' && (word == "e" || word == "E") then Backslashes(false)
      else if c == '\'' || c == '"' then Quote(c)
      else if c == '-' && ahead == '-' then LineComment
      else if c == '/' && ahead == '*' then BlockComment(0, c)
      else if c == '$' && dollar then DollarQuote("$" + word + "$", "")
      else if c == '$' && word == "" then Code("", true)
      else if StartsWord(c) || (word != "" && (IsDigit(c) || c == '$')) then Code(word + [c], dollar)
      else START
    case Quote(end) => if c == end then START else m
    case Backslashes(escaped) =>
      if escaped then Backslashes(false)
      else if c == '\\' || (c == '\'' && ahead == '\'') then Backslashes(true)
      else if c == '\'' then START
      else m
    case DollarQuote(close, seen) =>
      if EndsWith(seen + [c], close) then START else DollarQuote(close, seen + [c])
    case LineComment => if c == '\n' || c == '\r' then START else m
    case BlockComment(depth, last) => InComment(depth, last, c, true)
  }

  function Front(q: string): char {
    if q == "" then '\0' else q[0]
  }

  // Binding.

  /** The source binds by position: each `?` in code is the next argument. */
  function ByPosition(q: string, m: Mode, next: nat): seq<Piece> {
    if q == "" then []
    else if q[0] == '?' && m.Code? then [Argument(next)] + ByPosition(q[1..], START, next + 1)
    else [Literal(q[0])] + ByPosition(q[1..], NextSqlite(m, q[0], Front(q[1..])), next)
  }

  function DigitsAt(q: string): (n: nat)
    ensures n <= |q| && (forall i :: 0 <= i < n ==> IsDigit(q[i])) && (n < |q| ==> !IsDigit(q[n]))
  {
    if q == "" || !IsDigit(q[0]) then 0 else 1 + DigitsAt(q[1..])
  }

  /** PostgreSQL binds by number: in code, and not inside an identifier, a dollar sign and digits
      name an argument. */
  function ByNumber(q: string, m: Mode): seq<Piece>
    decreases |q|
  {
    if q == "" then []
    else
      var n := DigitsAt(q[1..]);
      if q[0] == '$' && m == START && n > 0 then [Argument(ValueOf(q[1..][..n]))] + ByNumber(q[1..][n..], START)
      else [Literal(q[0])] + ByNumber(q[1..], NextPostgres(m, q[0], Front(q[1..])))
  }

  /** The scan `quoted` of the rewriting and the two lexers agree where it matters:
      - at a placeholder SQLite is in code exactly when the rewriting takes it for code, and there
        PostgreSQL is in code too and not inside an identifier;
      - where PostgreSQL is so, no placeholder and no dollar sign stands directly before a digit. */
  predicate Clean(q: string, quoted: bool, s: Mode, p: Mode) {
    q == "" ||
      (if q[0] == '?' && s.Code? then
         !quoted && p == START && DigitsAt(q[1..]) == 0 && Clean(q[1..], quoted, START, START)
       else
         && (q[0] == '?' ==> quoted)
         && (q[0] == '$' && p == START ==> DigitsAt(q[1..]) == 0)
         && Clean(q[1..], Toggled(q[0], quoted), NextSqlite(s, q[0], Front(q[1..])),
                  NextPostgres(p, q[0], Front(q[1..]))))
  }

  // The rewritten query.

  lemma DigitsOfJoin(d: string, rest: string)
    requires forall i :: 0 <= i < |d| ==> IsDigit(d[i])
    ensures DigitsAt(d + rest) == |d| + DigitsAt(rest)
  {
    if d == "" {
      assert d + rest == rest;
    } else {
      DigitsOfJoin(d[1..], rest);
      assert (d + rest)[1..] == d[1..] + rest;
    }
  }

  /** The rewriting keeps a digit at the front and puts none there, and the lexer cannot tell the
      fronts apart. */
  lemma FrontKept(q: string, quoted: bool, next: nat)
    ensures DigitsAt(Numbered(q, quoted, next)) == 0 <==> DigitsAt(q) == 0
    ensures forall m, c :: NextPostgres(m, c, Front(Numbered(q, quoted, next))) == NextPostgres(m, c, Front(q))
  {
  }

  lemma BindNumber(t: string)
    requires DigitsAt(t) > 0
    ensures ByNumber("$" + t, START) == [Argument(ValueOf(t[..DigitsAt(t)]))] + ByNumber(t[DigitsAt(t)..], START)
  {
    var q := "$" + t;
    assert q[0] == '$' && q[1..] == t;
  }

  lemma BindDigits(d: string, rest: string)
    requires d != "" && forall i :: 0 <= i < |d| ==> IsDigit(d[i])
    ensures var t, n := d + rest, |d| + DigitsAt(rest);
            DigitsAt(t) == n && ByNumber("$" + t, START) == [Argument(ValueOf(t[..n]))] + ByNumber(t[n..], START)
  {
    DigitsOfJoin(d, rest);
    BindNumber(d + rest);
  }

  lemma BindExactly(next: nat, rest: string)
    requires DigitsAt(rest) == 0
    ensures ByNumber("$" + (Itoa(next) + rest), START) == [Argument(next)] + ByNumber(rest, START)
  {
    var t := Itoa(next) + rest;
    BindDigits(Itoa(next), rest);
    assert t[..|Itoa(next)|] == Itoa(next) && t[|Itoa(next)|..] == rest;
    ItoaValue(next);
  }

  /** A character other than a dollar sign, or one that starts no number here, stands for itself. */
  lemma BindCharacter(c: char, t: string, m: Mode)
    requires c == '$' && m == START ==> DigitsAt(t) == 0
    ensures ByNumber([c] + t, m) == [Literal(c)] + ByNumber(t, NextPostgres(m, c, Front(t)))
  {
    assert ([c] + t)[1..] == t;
  }

  lemma CharacterKept(q: string, quoted: bool, next: nat)
    requires q != "" && (q[0] == '?' ==> quoted)
    ensures Numbered(q, quoted, next) == [q[0]] + Numbered(q[1..], Toggled(q[0], quoted), next)
  {
  }

  lemma PlaceholderNumbered(q: string, next: nat)
    requires q != "" && q[0] == '?'
    ensures Numbered(q, false, next) == "$" + (Itoa(next) + Numbered(q[1..], false, next + 1))
  {
    Reassociate("$", Itoa(next), Numbered(q[1..], false, next + 1));
  }

  /** Binding by number in the rewritten query is binding by position in the source exactly when
      the query is clean. */
  lemma {:induction false} BindingPreservedIff(q: string, quoted: bool, s: Mode, p: Mode, next: nat)
    requires next >= 1
    ensures ByNumber(Numbered(q, quoted, next), p) == ByPosition(q, s, next) <==> Clean(q, quoted, s, p)
  {
    if q == "" {
    } else if q[0] == '?' && s.Code? {
      PlaceholderInCode(q, quoted, s, p, next);
      if !quoted && p == START && DigitsAt(q[1..]) == 0 {
        BindingPreservedIff(q[1..], quoted, START, START, next + 1);
      }
    } else if q[0] == '?' && !quoted {
      PlaceholderInText(q, s, p, next);
    } else {
      CharacterBound(q, quoted, s, p, next);
      BindingPreservedIff(q[1..], Toggled(q[0], quoted), NextSqlite(s, q[0], Front(q[1..])),
                          NextPostgres(p, q[0], Front(q[1..])), next);
    }
  }

  lemma PlaceholderInCode(q: string, quoted: bool, s: Mode, p: Mode, next: nat)
    requires next >= 1 && q != "" && q[0] == '?' && s.Code?
    ensures ByNumber(Numbered(q, quoted, next), p) == ByPosition(q, s, next)
       <==> !quoted && p == START && DigitsAt(q[1..]) == 0
            && ByNumber(Numbered(q[1..], quoted, next + 1), START) == ByPosition(q[1..], START, next + 1)
  {
    assert ByPosition(q, s, next)[0] == Argument(next);
    if quoted {
      CharacterKept(q, quoted, next);
      BindCharacter('?', Numbered(q[1..], quoted, next), p);
    } else {
      var tail := Numbered(q[1..], quoted, next + 1);
      PlaceholderNumbered(q, next);
      FrontKept(q[1..], quoted, next + 1);
      if p != START {
        BindCharacter('$', Itoa(next) + tail, p);
      } else if DigitsAt(q[1..]) == 0 {
        BindExactly(next, tail);
        ConsEqual(Argument(next), ByNumber(tail, START), ByPosition(q[1..], START, next + 1));
      } else {
        PlaceholderSwallowsDigit(q, s, next);
      }
    }
  }

  /** Numbering what is no placeholder changes the text of the query. */
  lemma PlaceholderInText(q: string, s: Mode, p: Mode, next: nat)
    requires q != "" && q[0] == '?' && !s.Code?
    ensures ByNumber(Numbered(q, false, next), p) != ByPosition(q, s, next)
  {
    var t := Itoa(next) + Numbered(q[1..], false, next + 1);
    PlaceholderNumbered(q, next);
    assert ByNumber("$" + t, p)[0] != Literal('?') by {
      assert ("$" + t)[0] == '$';
    }
    assert ByPosition(q, s, next)[0] == Literal('?');
  }

  lemma CharacterBound(q: string, quoted: bool, s: Mode, p: Mode, next: nat)
    requires q != "" && (q[0] == '?' ==> !s.Code? && quoted)
    ensures ByNumber(Numbered(q, quoted, next), p) == ByPosition(q, s, next)
       <==> (q[0] == '$' && p == START ==> DigitsAt(q[1..]) == 0)
            && ByNumber(Numbered(q[1..], Toggled(q[0], quoted), next), NextPostgres(p, q[0], Front(q[1..])))
               == ByPosition(q[1..], NextSqlite(s, q[0], Front(q[1..])), next)
  {
    var tail := Numbered(q[1..], Toggled(q[0], quoted), next);
    CharacterKept(q, quoted, next);
    FrontKept(q[1..], Toggled(q[0], quoted), next);
    if q[0] == '$' && p == START && DigitsAt(q[1..]) > 0 {
      BindNumber(tail);
      assert ByPosition(q, s, next)[0].Literal?;
    } else {
      BindCharacter(q[0], tail, p);
      ConsEqual(Literal(q[0]), ByNumber(tail, NextPostgres(p, q[0], Front(q[1..]))),
                ByPosition(q[1..], NextSqlite(s, q[0], Front(q[1..])), next));
    }
  }

  lemma ConsEqual(p: Piece, a: seq<Piece>, b: seq<Piece>)
    ensures [p] + a == [p] + b <==> a == b
  {
    assert ([p] + a)[1..] == a && ([p] + b)[1..] == b;
  }

  /** Queries that are not clean, from the first character on: a placeholder before a digit, or
      behind an identifier; a numbered argument; a question mark in a quoted identifier; and a
      placeholder behind a comment with an apostrophe, which the rewriting takes for a quote. */
  lemma FailingQueries()
    ensures forall q :: q in {"?1", "T?", "$1", "\"?\"", "--'\n?"} ==> !Clean(q, false, START, START)
    ensures Numbered("--'\n?", false, 1) == "--'\n?" && Numbered("T?", false, 1) == "T$1"
  {
    assert "?1"[1..] == "1" && "$1"[1..] == "1" && DigitsAt("1") > 0;
    assert "T?"[1..] == "?" && "\"?\""[1..] == "?\"";
    assert "--'\n?"[1..] == "-'\n?" && "-'\n?"[1..] == "'\n?" && "'\n?"[1..] == "\n?" && "\n?"[1..] == "?";
    assert Numbered("?", true, 1) == "?" && "?"[1..] == "";
    assert Itoa(1) == "1" && Numbered("?", false, 1) == "$1";
  }

  /** A placeholder directly before a digit becomes another argument number. */
  lemma PlaceholderSwallowsDigit(q: string, s: Mode, next: nat)
    requires q != "" && q[0] == '?' && s.Code? && DigitsAt(q[1..]) > 0 && next >= 1
    ensures ByNumber(Numbered(q, false, next), START) != ByPosition(q, s, next)
  {
    var tail := Numbered(q[1..], false, next + 1);
    FrontKept(q[1..], false, next + 1);
    PlaceholderNumbered(q, next);
    var number := NumberSwallowed(next, tail);
    assert ByNumber(Numbered(q, false, next), START)[0] == Argument(number);
    assert ByPosition(q, s, next)[0] == Argument(next);
  }

  lemma NumberSwallowed(next: nat, tail: string) returns (number: nat)
    requires next >= 1 && DigitsAt(tail) > 0
    ensures number > next && ByNumber("$" + (Itoa(next) + tail), START) != []
    ensures ByNumber("$" + (Itoa(next) + tail), START)[0] == Argument(number)
  {
    var d, e := Itoa(next), tail[..DigitsAt(tail)];
    number := ValueOf(d + e);
    FrontOf(d, tail, |e|);
    BindDigits(d, tail);
    LargerNumber(next, e);
  }

  lemma LargerNumber(next: nat, e: string)
    requires next >= 1 && e != "" && forall i :: 0 <= i < |e| ==> IsDigit(e[i])
    ensures ValueOf(Itoa(next) + e) > next
  {
    LongerNumeral(Itoa(next), e);
    ItoaValue(next);
  }

  lemma FrontOf(d: string, tail: string, n: nat)
    requires n <= |tail|
    ensures (d + tail)[..|d| + n] == d + tail[..n]
  {
  }

  lemma {:induction false} LongerNumeral(d: string, e: string)
    requires forall i :: 0 <= i < |d| ==> IsDigit(d[i])
    requires e != "" && forall i :: 0 <= i < |e| ==> IsDigit(e[i])
    ensures ValueOf(d + e) >= 10 * ValueOf(d)
  {
    var front, last := e[..|e| - 1], e[|e| - 1];
    assert d + e == (d + front) + [last];
    NumeralSnoc(d + front, last);
    if front != "" {
      LongerNumeral(d, front);
    } else {
      assert d + front == d;
    }
  }

  lemma NumeralSnoc(d: string, c: char)
    requires IsDigit(c) && forall i :: 0 <= i < |d| ==> IsDigit(d[i])
    ensures ValueOf(d + [c]) == 10 * ValueOf(d) + DigitValue(c)
  {
    assert (d + [c])[..|d|] == d;
  }

  // Numbers and quoted text, for every query.

  function Arguments(ps: seq<Piece>): seq<nat> {
    if ps == [] then []
    else (match ps[0] case Argument(n) => [n] case Literal(_) => []) + Arguments(ps[1..])
  }

  predicate RunsOn(ns: seq<nat>, next: nat) {
    forall i :: 0 <= i < |ns| ==> ns[i] == next + i
  }

  /** Where the query is clean, the numbers that the rewritten query names run up from the first
      without a gap, whatever their width. */
  lemma {:induction false} NumbersRunOn(q: string, quoted: bool, s: Mode, p: Mode, next: nat)
    requires next >= 1 && Clean(q, quoted, s, p)
    ensures RunsOn(Arguments(ByNumber(Numbered(q, quoted, next), p)), next)
  {
    BindingPreservedIff(q, quoted, s, p, next);
    PositionsRunOn(q, s, next);
  }

  lemma {:induction false} PositionsRunOn(q: string, m: Mode, next: nat)
    ensures RunsOn(Arguments(ByPosition(q, m, next)), next)
  {
    if q != "" {
      var ps := ByPosition(q, m, next);
      if q[0] == '?' && m.Code? {
        PositionsRunOn(q[1..], START, next + 1);
        var ns, inner := Arguments(ps), Arguments(ByPosition(q[1..], START, next + 1));
        assert ps[1..] == ByPosition(q[1..], START, next + 1) && ns == [next] + inner;
        forall i | 0 <= i < |ns| ensures ns[i] == next + i {
          if i > 0 {
            assert inner[i - 1] == next + 1 + (i - 1);
          }
        }
      } else {
        var after := NextSqlite(m, q[0], Front(q[1..]));
        PositionsRunOn(q[1..], after, next);
        assert ps[1..] == ByPosition(q[1..], after, next);
      }
    }
  }

  /** The text inside what the rewriting takes for quotes, quotes included. */
  function QuotedText(q: string, quoted: bool): string {
    if q == "" then ""
    else if q[0] == '\'' then [q[0]] + QuotedText(q[1..], !quoted)
    else (if quoted then [q[0]] else "") + QuotedText(q[1..], quoted)
  }

  /** Quoted text survives the rewriting, in any query. */
  lemma {:induction false} QuotedTextUnchanged(q: string, quoted: bool, next: nat)
    ensures QuotedText(Numbered(q, quoted, next), quoted) == QuotedText(q, quoted)
  {
    if q != "" {
      var t := Numbered(q, quoted, next);
      if q[0] == '\'' {
        QuotedTextUnchanged(q[1..], !quoted, next);
        assert t[1..] == Numbered(q[1..], !quoted, next);
      } else if q[0] == '?' && !quoted {
        QuotedTextUnchanged(q[1..], quoted, next + 1);
        NoQuotes("$" + Itoa(next), Numbered(q[1..], quoted, next + 1));
      } else {
        QuotedTextUnchanged(q[1..], quoted, next);
        assert t[1..] == Numbered(q[1..], quoted, next);
      }
    }
  }

  lemma {:induction false} NoQuotes(s: string, rest: string)
    requires '\'' !in s
    ensures QuotedText(s + rest, false) == QuotedText(rest, false)
  {
    if s == "" {
      assert s + rest == rest;
    } else {
      NoQuotes(s[1..], rest);
      assert (s + rest)[1..] == s[1..] + rest;
    }
  }
}
