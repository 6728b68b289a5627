/** The similarity samples against those that a reload takes from the store: an update adds one for
    the whole message, a reload one for each line, and a removal takes none away. */
module SampleSimilarity {
  import opened SampleStream
  import opened SampleStore
  import opened SampleSync
  import opened ClassifierTables

  type TokenCounts = map<Token, int>

  /** The similarity samples after an update or a removal. */
  function SimilarAfter(tok: Tokenizer, st: State, similar: seq<TokenCounts>, ev: Event): seq<TokenCounts> {
    match ev
    case Update(m, kind, dbOk) =>
      if kind.Spam? && Updated(tok, st, m, kind, dbOk).1 then similar + [tok(m)] else similar
    case Remove(_, _, _) => similar
  }

  /** They are, up to their order, those of the stored spam. */
  ghost predicate SimilarInSync(tok: Tokenizer, rows: Rows, similar: seq<TokenCounts>) {
    multiset(similar) == StoreSamples(tok, rows)
  }

  // Steps.

  /** The message has one element, which has the tokens of the whole message. */
  predicate OneSample(tok: Tokenizer, message: string) {
    |Elements(message)| == 1 && tok(Elements(message)[0]) == tok(message)
  }

  predicate StoredAsSpam(rows: Rows, message: string) {
    message in rows && rows[message].kind.Spam?
  }

  /** Spam is added only as one sample, and where none is stored; stored spam that has an element
      is neither removed nor turned into ham. Calls that fail do no harm. */
  predicate Keeps(tok: Tokenizer, rows: Rows, ev: Event) {
    match ev
    case Update(m, Spam, dbOk) => m == "" || !dbOk || (!StoredAsSpam(rows, m) && OneSample(tok, m))
    case Update(m, Ham, dbOk) => m == "" || !dbOk || !StoredAsSpam(rows, m) || Elements(m) == []
    case Remove(m, _, dbOk) => !dbOk || !StoredAsSpam(rows, m) || Elements(m) == []
  }

  /** The samples that the row of the message stands for. */
  ghost function Share(tok: Tokenizer, rows: Rows, message: string): multiset<TokenCounts> {
    if StoredAsSpam(rows, message) then multiset(SamplesOf(tok, Elements(message))) else multiset{}
  }

  lemma ShareTaken(tok: Tokenizer, rows: Rows, message: string)
    ensures StoreSamples(tok, rows) == StoreSamples(tok, rows - {message}) + Share(tok, rows, message)
    ensures |Share(tok, rows, message)| == if StoredAsSpam(rows, message) then |Elements(message)| else 0
  {
    if message in rows {
      GatheredTake(SamplesIn(tok), rows, message);
    } else {
      assert rows - {message} == rows;
    }
  }

  lemma UpdatedSamples(tok: Tokenizer, rows: Rows, message: string, kind: Kind)
    ensures StoreSamples(tok, rows[message := Sample(kind, User)])
         == StoreSamples(tok, rows - {message})
            + if kind.Spam? then multiset(SamplesOf(tok, Elements(message))) else multiset{}
  {
    GatheredPut(SamplesIn(tok), rows, message, Sample(kind, User));
  }

  lemma SameRest<T>(rest: multiset<T>, a: multiset<T>, b: multiset<T>)
    ensures rest + a == rest + b <==> a == b
  {
    if rest + a == rest + b {
      forall x ensures a[x] == b[x] {
        assert (rest + a)[x] == (rest + b)[x];
      }
    }
  }

  /** The multisets to compare when the message is added as spam. */
  lemma AddedSpamIff(tok: Tokenizer, rows: Rows, message: string)
    ensures Share(tok, rows, message) + multiset{tok(message)} == multiset(SamplesOf(tok, Elements(message)))
       <==> !StoredAsSpam(rows, message) && OneSample(tok, message)
  {
    var samples := SamplesOf(tok, Elements(message));
    ShareTaken(tok, rows, message);
    if Share(tok, rows, message) + multiset{tok(message)} == multiset(samples) {
      assert |Share(tok, rows, message) + multiset{tok(message)}| == |Share(tok, rows, message)| + 1;
      assert |multiset(samples)| == |samples|;
      assert samples == [samples[0]] && samples[0] in multiset{tok(message)};
    } else if OneSample(tok, message) {
      assert samples == [tok(message)];
    }
  }

  lemma UpdateSpamIff(tok: Tokenizer, rows: Rows, similar: seq<TokenCounts>, message: string)
    requires SimilarInSync(tok, rows, similar)
    ensures SimilarInSync(tok, rows[message := Sample(Spam, User)], similar + [tok(message)])
       <==> !StoredAsSpam(rows, message) && OneSample(tok, message)
  {
    var rest := StoreSamples(tok, rows - {message});
    ShareTaken(tok, rows, message);
    UpdatedSamples(tok, rows, message, Spam);
    assert multiset(similar + [tok(message)]) == rest + (Share(tok, rows, message) + multiset{tok(message)});
    SameRest(rest, Share(tok, rows, message) + multiset{tok(message)}, multiset(SamplesOf(tok, Elements(message))));
    AddedSpamIff(tok, rows, message);
  }

  /** The row of the message goes, or is ham from now on. */
  lemma LostSpamIff(tok: Tokenizer, rows: Rows, similar: seq<TokenCounts>, message: string)
    requires SimilarInSync(tok, rows, similar)
    ensures SimilarInSync(tok, rows - {message}, similar) <==> !StoredAsSpam(rows, message) || Elements(message) == []
    ensures SimilarInSync(tok, rows[message := Sample(Ham, User)], similar)
       <==> SimilarInSync(tok, rows - {message}, similar)
  {
    var rest := StoreSamples(tok, rows - {message});
    ShareTaken(tok, rows, message);
    UpdatedSamples(tok, rows, message, Ham);
    SameRest(rest, Share(tok, rows, message), multiset{});
    assert rest + multiset{} == rest;
    assert Share(tok, rows, message) == multiset{} <==> |Share(tok, rows, message)| == 0;
  }

  /** A step keeps the similarity samples in sync with the stored spam exactly under that
      condition. */
  lemma StepSimilarIff(tok: Tokenizer, st: State, similar: seq<TokenCounts>, ev: Event)
    requires SimilarInSync(tok, st.rows, similar) && Step(tok, st, ev).Some?
    ensures SimilarInSync(tok, Step(tok, st, ev).value.rows, SimilarAfter(tok, st, similar, ev))
       <==> Keeps(tok, st.rows, ev)
  {
    match ev
    case Update(m, kind, dbOk) =>
      if kind.Spam? {
        UpdateSpamIff(tok, st.rows, similar, m);
      } else {
        LostSpamIff(tok, st.rows, similar, m);
      }
    case Remove(m, _, dbOk) => LostSpamIff(tok, st.rows, similar, m);
  }

  // Runs.

  function SimilarRun(tok: Tokenizer, st: State, similar: seq<TokenCounts>, evs: seq<Event>): seq<TokenCounts>
    requires Run(tok, st, evs).Some?
    decreases |evs|
  {
    if evs == [] then similar
    else SimilarRun(tok, Step(tok, st, evs[0]).value, SimilarAfter(tok, st, similar, evs[0]), evs[1..])
  }

  /** Every step of the run meets the condition. */
  predicate KeepsThroughout(tok: Tokenizer, st: State, evs: seq<Event>)
    requires Run(tok, st, evs).Some?
    decreases |evs|
  {
    evs == [] || (Keeps(tok, st.rows, evs[0]) && KeepsThroughout(tok, Step(tok, st, evs[0]).value, evs[1..]))
  }

  /** They are in sync before the run and after each of its steps. */
  ghost predicate SimilarThroughout(tok: Tokenizer, st: State, similar: seq<TokenCounts>, evs: seq<Event>)
    requires Run(tok, st, evs).Some?
    decreases |evs|
  {
    && SimilarInSync(tok, st.rows, similar)
    && (evs == [] ||
          SimilarThroughout(tok, Step(tok, st, evs[0]).value, SimilarAfter(tok, st, similar, evs[0]), evs[1..]))
  }

  /** Over every run they stay in sync exactly when every step meets the condition. */
  lemma {:induction false} RunSimilarIff(tok: Tokenizer, st: State, similar: seq<TokenCounts>, evs: seq<Event>)
    requires SimilarInSync(tok, st.rows, similar) && Run(tok, st, evs).Some?
    ensures SimilarThroughout(tok, st, similar, evs) <==> KeepsThroughout(tok, st, evs)
    ensures KeepsThroughout(tok, st, evs) ==>
              SimilarInSync(tok, Run(tok, st, evs).value.rows, SimilarRun(tok, st, similar, evs))
    decreases |evs|
  {
    if evs != [] {
      var next, after := Step(tok, st, evs[0]).value, SimilarAfter(tok, st, similar, evs[0]);
      StepSimilarIff(tok, st, similar, evs[0]);
      if SimilarInSync(tok, next.rows, after) {
        RunSimilarIff(tok, next, after, evs[1..]);
      }
    }
  }

  // Reloading.

  /** Similarity samples in sync with the store are those a reload takes from its spam readers,
      exactly when neither of these loses an element behind an overlong line. */
  lemma SimilarReloadIff(tok: Tokenizer, rows: Rows, similar: seq<TokenCounts>,
                         sp: seq<string>, su: seq<string>, hp: seq<string>, hu: seq<string>)
    requires SimilarInSync(tok, rows, similar) && NoneAny(rows) && ListedAs(rows, sp, su, hp, hu)
    ensures multiset(similar) == multiset(SamplesOf(tok, StreamsElements([Stream(sp), Stream(su)])))
       <==> Lossless(sp) && Lossless(su)
  {
    BothOrigins(rows, sp, su, Spam);
    BothOrigins(rows, hp, hu, Ham);
    AllListedSamples(tok, rows, sp + su, hp + hu);
    AllElementsAppend(sp, su);
    TwoStreams(sp, su);
    StreamLoss(sp);
    StreamLoss(su);
    var loaded := SamplesOf(tok, StreamsElements([Stream(sp), Stream(su)]));
    var stored := SamplesOf(tok, AllElements(sp) + AllElements(su));
    assert |multiset(loaded)| == |loaded| && |multiset(stored)| == |stored|;
  }

  /** After any run whose steps meet the condition, that says when a reload changes nothing. */
  lemma RunSimilarReloadIff(tok: Tokenizer, st: State, similar: seq<TokenCounts>, evs: seq<Event>,
                            sp: seq<string>, su: seq<string>, hp: seq<string>, hu: seq<string>)
    requires SimilarInSync(tok, st.rows, similar) && NoneAny(st.rows)
    requires Run(tok, st, evs).Some? && KeepsThroughout(tok, st, evs)
    requires ListedAs(Run(tok, st, evs).value.rows, sp, su, hp, hu)
    ensures multiset(SimilarRun(tok, st, similar, evs))
            == multiset(SamplesOf(tok, StreamsElements([Stream(sp), Stream(su)])))
       <==> Lossless(sp) && Lossless(su)
  {
    RunSimilarIff(tok, st, similar, evs);
    RunOrigins(tok, st, evs);
    SimilarReloadIff(tok, Run(tok, st, evs).value.rows, SimilarRun(tok, st, similar, evs), sp, su, hp, hu);
  }

  // Messages that make one sample.

  /** The tokens do not depend on white space around the text, as for words between spaces. */
  ghost predicate IgnoresMargins(tok: Tokenizer) {
    forall s :: tok(s) == tok(Trim(s))
  }

  predicate Blank(s: string) {
    forall i :: 0 <= i < |s| ==> IsTrimmed(s[i])
  }

  lemma {:induction false} TrimLeftBefore(a: string, s: string)
    requires Blank(a)
    ensures TrimLeft(a + s) == TrimLeft(s)
  {
    if a == "" {
      assert a + s == s;
    } else {
      assert (a + s)[1..] == a[1..] + s;
      TrimLeftBefore(a[1..], s);
    }
  }

  lemma {:induction false} TrimRightBehind(s: string, b: string)
    requires Blank(b)
    ensures TrimRight(s + b) == TrimRight(s)
  {
    if b == "" {
      assert s + b == s;
    } else {
      assert (s + b)[..|s + b| - 1] == s + b[..|b| - 1];
      TrimRightBehind(s, b[..|b| - 1]);
    }
  }

  lemma {:induction false} TrimLeftBehind(s: string, b: string)
    ensures TrimLeft(s + b) == if Blank(s) then TrimLeft(b) else TrimLeft(s) + b
  {
    if s == "" {
      assert s + b == b;
    } else if IsTrimmed(s[0]) {
      assert (s + b)[1..] == s[1..] + b;
      TrimLeftBehind(s[1..], b);
      assert Blank(s) <==> Blank(s[1..]);
    }
  }

  lemma TrimBlank(s: string)
    ensures Trim(s) == "" <==> Blank(s)
  {
    if Blank(s) {
      TrimLeftBefore(s, "");
      assert s + "" == s;
    } else {
      TrimLeftStops(s);
      TrimRightStops(TrimLeft(s));
    }
  }

  lemma {:induction false} TrimLeftStops(s: string)
    requires !Blank(s)
    ensures TrimLeft(s) != "" && !Blank(TrimLeft(s))
  {
    if IsTrimmed(s[0]) {
      TrimLeftStops(s[1..]);
    }
  }

  lemma {:induction false} TrimRightStops(s: string)
    requires !Blank(s)
    ensures TrimRight(s) != ""
  {
    if IsTrimmed(s[|s| - 1]) {
      TrimRightStops(s[..|s| - 1]);
    }
  }

  lemma TrimBehind(s: string, b: string)
    requires Blank(b)
    ensures Trim(s + b) == Trim(s)
  {
    TrimLeftBehind(s, b);
    if Blank(s) {
      TrimLeftBefore(s, "");
      assert s + "" == s;
      TrimLeftBefore(b, "");
      assert b + "" == b;
    } else {
      TrimRightBehind(TrimLeft(s), b);
    }
  }

  /** Trimming takes white space off both ends, all of it and nothing else. */
  lemma TrimMeans(s: string) returns (left: string, right: string)
    ensures s == left + Trim(s) + right && Blank(left) && Blank(right)
    ensures Trim(s) != "" ==> !IsTrimmed(Trim(s)[0]) && !IsTrimmed(Trim(s)[|Trim(s)| - 1])
  {
    left := TrimmedLeft(s);
    right := TrimmedRight(TrimLeft(s));
    assert s == left + (Trim(s) + right) == left + Trim(s) + right;
    if Trim(s) != "" {
      assert TrimLeft(s)[0] == Trim(s)[0];
    }
  }

  lemma {:induction false} TrimmedLeft(s: string) returns (left: string)
    ensures s == left + TrimLeft(s) && Blank(left) && (TrimLeft(s) != "" ==> !IsTrimmed(TrimLeft(s)[0]))
  {
    left := "";
    if s != "" && IsTrimmed(s[0]) {
      left := TrimmedLeft(s[1..]);
      left := [s[0]] + left;
    }
  }

  lemma {:induction false} TrimmedRight(s: string) returns (right: string)
    ensures s == TrimRight(s) + right && Blank(right)
    ensures TrimRight(s) != "" ==> !IsTrimmed(TrimRight(s)[|TrimRight(s)| - 1])
  {
    right := "";
    if s != "" && IsTrimmed(s[|s| - 1]) {
      right := TrimmedRight(s[..|s| - 1]);
      right := right + [s[|s| - 1]];
    }
  }

  /** A text of one line yields that line without its margins, unless it is blank or too long. */
  lemma OneLineYields(line: string)
    requires '\n' !in line
    ensures Elements(line) == if |line| >= 65536 || Blank(line) then [] else [Trim(line)]
  {
    LineLengthIs(line, |line|);
    LastLine(line);
    TrimBlank(line);
  }

  lemma FirstLine(text: string)
    requires text != "" && NoLongLine(text)
    ensures Elements(text) == Yield(text[..LineLength(text)]) + Elements(AfterLine(text)) && NoLongLine(AfterLine(text))
  {
  }

  lemma LineAndRest(text: string, n: nat)
    requires n == LineLength(text)
    ensures text == text[..n] + (if n < |text| then "\n" + AfterLine(text) else "")
  {
    if n < |text| {
      AfterLineAt(text, n);
      SplitAt(text, n);
    }
  }

  lemma SplitAt(text: string, n: nat)
    requires n < |text| && text[n] == '\n'
    ensures text == text[..n] + ("\n" + text[n + 1..])
  {
  }

  lemma BlankLines(line: string, rest: string)
    requires Blank(line) && Blank(rest)
    ensures Blank(line + ("\n" + rest)) && Blank(line + "")
  {
  }

  lemma {:induction false} NoElementBlank(text: string)
    requires NoLongLine(text) && Elements(text) == []
    ensures Blank(text)
    decreases |text|
  {
    if text != "" {
      var n := LineLength(text);
      FirstLine(text);
      LineAndRest(text, n);
      TrimBlank(text[..n]);
      NoElementBlank(AfterLine(text));
      BlankLines(text[..n], AfterLine(text));
    }
  }

  lemma TrimLines(line: string, rest: string)
    ensures Blank(line) ==> Trim(line + ("\n" + rest)) == Trim(rest)
    ensures Blank(rest) ==> Trim(line + ("\n" + rest)) == Trim(line)
  {
    if Blank(line) {
      assert line + ("\n" + rest) == (line + "\n") + rest;
      TrimLeftBefore(line + "\n", rest);
    }
    if Blank(rest) {
      TrimBehind(line, "\n" + rest);
    }
  }

  /** The first line is the only element, or the others hold it. */
  lemma OneOfTwo(line: string, more: seq<string>)
    requires |Yield(line) + more| == 1
    ensures if Blank(line) then Yield(line) + more == more else more == [] && Yield(line) == [Trim(line)]
  {
    TrimBlank(line);
  }

  /** A message's only element is the message without its margins. */
  lemma {:induction false} OnlyElement(text: string)
    requires NoLongLine(text) && |Elements(text)| == 1
    ensures Elements(text) == [Trim(text)]
    decreases |text|
  {
    var n := LineLength(text);
    var line, rest := text[..n], AfterLine(text);
    FirstLine(text);
    LineAndRest(text, n);
    OneOfTwo(line, Elements(rest));
    TrimLines(line, rest);
    if Blank(line) {
      OnlyElement(rest);
    } else {
      NoElementBlank(rest);
      assert n == |text| ==> text == line;
    }
  }

  /** So spam that is new keeps them in sync exactly when one of its lines is not blank: a message
      of several such lines is one sample until the next reload and several afterwards. */
  lemma OneLineIff(tok: Tokenizer, message: string)
    requires IgnoresMargins(tok) && NoLongLine(message)
    ensures OneSample(tok, message) <==> |Elements(message)| == 1
  {
    if |Elements(message)| == 1 {
      OnlyElement(message);
      assert tok(message) == tok(Trim(message));
    }
  }

  lemma DriftsFromEmpty(tok: Tokenizer, message: string)
    requires |Elements(message)| != 1
    ensures SimilarInSync(tok, map[], []) && !SimilarInSync(tok, map[message := Sample(Spam, User)], [tok(message)])
  {
    UpdateSpamIff(tok, map[], [], message);
    assert [] + [tok(message)] == [tok(message)];
  }

  /** A message of two lines does so from an empty store on. */
  lemma TwoLinesDrift(tok: Tokenizer)
    ensures var m := "hello" + "\n" + "hello";
            SimilarInSync(tok, map[], []) && !SimilarInSync(tok, map[m := Sample(Spam, User)], [tok(m)])
  {
    HelloYieldsItself();
    ElementsAppend("hello", "hello");
    DriftsFromEmpty(tok, "hello" + "\n" + "hello");
  }
}
