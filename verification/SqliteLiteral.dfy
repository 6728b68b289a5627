/** SQLite literals with doubled quotes, and the lexer rule that reads them. */
module SqliteLiteral {
  import opened Sequences
  import opened Decimal
  import opened CopyText

  function FormatSqliteValue(v: Value): string {
    match v
    case Null => "NULL"
    case Integer(n) => Signed(n)
    case Text(s) => "'" + ReplaceAll(s, '\'', "''") + "'"
    case Bytes(s) => "'" + ReplaceAll(s, '\'', "''") + "'"
    case Boolean(b) => "'" + (if b then "true" else "false") + "'"
    case Rendered(s) => "'" + s + "'"
  }

  /** Reads a literal after its opening quote: two quotes are one, a single one closes. Gives
      the text and what follows the closing quote; None when it is never closed. */
  function Lex(text: string): Option<(string, string)> {
    if text == "" then None
    else if text[0] != '\'' then
      var r := Lex(text[1..]);
      if r.None? then None else Some(([text[0]] + r.value.0, r.value.1))
    else if |text| >= 2 && text[1] == '\'' then
      var r := Lex(text[2..]);
      if r.None? then None else Some((['\''] + r.value.0, r.value.1))
    else Some(("", text[1..]))
  }

  lemma LexPlain(c: char, tail: string, s: string, rest: string)
    requires c != '\'' && Lex(tail) == Some((s, rest))
    ensures Lex([c] + tail) == Some(([c] + s, rest))
  {
    assert ([c] + tail)[1..] == tail;
  }

  lemma LexQuote(tail: string, s: string, rest: string)
    requires Lex(tail) == Some((s, rest))
    ensures Lex("''" + tail) == Some(("'" + s, rest))
  {
    assert ("''" + tail)[2..] == tail;
  }

  lemma LexEnd(rest: string)
    requires rest == "" || rest[0] != '\''
    ensures Lex("'" + rest) == Some(("", rest))
  {
    assert ("'" + rest)[1..] == rest;
  }

  lemma {:induction false} LexDoubled(s: string, rest: string)
    requires rest == "" || rest[0] != '\''
    ensures Lex(ReplaceAll(s, '\'', "''") + ("'" + rest)) == Some((s, rest))
  {
    if s == "" {
      LexEnd(rest);
      assert ReplaceAll(s, '\'', "''") + ("'" + rest) == "'" + rest;
    } else {
      var c, others := s[0], ReplaceAll(s[1..], '\'', "''");
      LexDoubled(s[1..], rest);
      Reassociate(if c == '\'' then "''" else [c], others, "'" + rest);
      if c == '\'' {
        LexQuote(others + ("'" + rest), s[1..], rest);
      } else {
        LexPlain(c, others + ("'" + rest), s[1..], rest);
      }
      assert [c] + s[1..] == s;
    }
  }

  /** Wherever the literal stands, unless a quote follows it directly, the lexer reads back the
      original text and stops right after it. */
  lemma LiteralRoundTrip(v: Value, rest: string)
    requires v.Text? || v.Bytes?
    requires rest == "" || rest[0] != '\''
    ensures FormatSqliteValue(v)[0] == '\'' && Lex(FormatSqliteValue(v)[1..] + rest) == Some((v.s, rest))
  {
    LexDoubled(v.s, rest);
    var body := ReplaceAll(v.s, '\'', "''");
    Unquoted(body, rest);
  }

  /** Booleans are written in full. */
  lemma BooleanLiteral(b: bool, rest: string)
    requires rest == "" || rest[0] != '\''
    ensures FormatSqliteValue(Boolean(b))[0] == '\''
    ensures Lex(FormatSqliteValue(Boolean(b))[1..] + rest) == Some((if b then "true" else "false", rest))
  {
    var s := if b then "true" else "false";
    LiteralRoundTrip(Text(s), rest);
    NoQuotes(s);
  }

  lemma {:induction false} NoQuotes(s: string)
    requires '\'' !in s
    ensures ReplaceAll(s, '\'', "''") == s
  {
    if s != "" {
      NoQuotes(s[1..]);
    }
  }

  lemma Unquoted(body: string, rest: string)
    ensures ("'" + body + "'")[1..] + rest == body + ("'" + rest)
  {
    Reassociate("'", body, "'");
    assert ("'" + (body + "'"))[1..] == body + "'";
    Reassociate(body, "'", rest);
  }
}
