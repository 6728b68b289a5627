/** Updating the classifier sample by sample against reloading it from the store. */
module SampleSync {
  import opened Sequences
  import opened SampleStream
  import opened SampleStore
  import opened ClassifierTables
  import opened ClassifierMeaning
  import opened ClassifierUnlearning
  import opened ClassifierLaws

  datatype State = State(tables: Tables, rows: Rows)

  /** dbOk says whether the storage call succeeds. */
  datatype Event = Update(message: string, kind: Kind, dbOk: bool) | Remove(message: string, kind: Kind, dbOk: bool)

  function Updated(tok: Tokenizer, st: State, message: string, kind: Kind, dbOk: bool): (State, bool) {
    if message == "" || !dbOk then (st, false)
    else (State(Learn(st.tables, MessageDocs(tok, kind, message)), st.rows[message := Sample(kind, User)]), true)
  }

  /** Unlearns first; when the storage then refuses, learns the documents again. None when
      unlearning fails, which keeps the rows but not the tables. */
  function Removed(tok: Tokenizer, st: State, message: string, kind: Kind, dbOk: bool): Option<(State, bool)> {
    var docs := MessageDocs(tok, kind, message);
    var unlearned := Unlearn(st.tables, docs);
    if unlearned.None? then None
    else if message in st.rows && dbOk then Some((State(unlearned.value, st.rows - {message}), true))
    else Some((State(Learn(unlearned.value, docs), st.rows), false))
  }

  /** The classifier has learned exactly the stored samples. */
  ghost predicate InSync(tok: Tokenizer, st: State) {
    Describes(st.tables, StoreDocs(tok, st.rows))
  }

  // Updates.

  lemma UpdateDocs(tok: Tokenizer, rows: Rows, message: string, kind: Kind)
    ensures StoreDocs(tok, rows[message := Sample(kind, User)])
         == StoreDocs(tok, rows - {message}) + multiset(MessageDocs(tok, kind, message))
  {
    GatheredPut(DocsIn(tok), rows, message, Sample(kind, User));
  }

  /** An update keeps store and classifier in sync exactly when it replaces no documents: the
      message is new, or the row it replaces stood for none. */
  lemma UpdateInSyncIff(tok: Tokenizer, st: State, message: string, kind: Kind)
    requires InSync(tok, st) && message != ""
    ensures InSync(tok, Updated(tok, st, message, kind, true).0)
       <==> message !in st.rows || MessageDocs(tok, st.rows[message].kind, message) == []
  {
    var docs := MessageDocs(tok, kind, message);
    LearnDescribes(st.tables, StoreDocs(tok, st.rows), docs);
    UpdateDocs(tok, st.rows, message, kind);
    UpdatedIs(tok, st, message, kind);
    PutInSyncIff(tok, st.rows, Learn(st.tables, docs), message, docs);
  }

  lemma UpdatedIs(tok: Tokenizer, st: State, message: string, kind: Kind)
    requires message != ""
    ensures InSync(tok, Updated(tok, st, message, kind, true).0)
       <==> Describes(Learn(st.tables, MessageDocs(tok, kind, message)),
                      StoreDocs(tok, st.rows[message := Sample(kind, User)]))
  {
  }

  lemma PutInSyncIff(tok: Tokenizer, rows: Rows, T: Tables, message: string, docs: seq<Document>)
    requires Describes(T, StoreDocs(tok, rows) + multiset(docs))
    ensures Describes(T, StoreDocs(tok, rows - {message}) + multiset(docs))
       <==> message !in rows || MessageDocs(tok, rows[message].kind, message) == []
  {
    if message in rows {
      StoreDocsTake(tok, rows, message);
      var was := MessageDocs(tok, rows[message].kind, message);
      Overcounted(T, StoreDocs(tok, rows - {message}), multiset(docs), was);
    } else {
      assert rows - {message} == rows;
    }
  }

  /** Tables that describe replaced documents too describe no multiset without them. */
  lemma Overcounted(T: Tables, others: multiset<Document>, added: multiset<Document>, was: seq<Document>)
    requires Describes(T, multiset(was) + others + added)
    ensures Describes(T, others + added) <==> was == []
  {
    if was == [] {
      assert multiset(was) + others + added == others + added;
    } else {
      assert |multiset(was) + others + added| == |was| + |others + added|;
    }
  }

  // Removals.

  /** Removing a stored sample of the same kind succeeds, and puts everything back when the
      storage fails: all counts, and all priors if they were fresh. */
  lemma RemoveInSync(tok: Tokenizer, st: State, message: string, dbOk: bool)
    requires InSync(tok, st) && message in st.rows
    ensures var r := Removed(tok, st, message, st.rows[message].kind, dbOk);
            && r.Some? && r.value.1 == dbOk && InSync(tok, r.value.0)
            && (!dbOk ==> r.value.0.rows == st.rows && SameCounts(st.tables, r.value.0.tables))
            && (!dbOk ==> (r.value.0.tables.priors == st.tables.priors <==> Fresh(st.tables)))
  {
    var S, docs := StoreDocs(tok, st.rows), MessageDocs(tok, st.rows[message].kind, message);
    StoreDocsTake(tok, st.rows, message);
    UnlearnDescribes(st.tables, S, docs);
    assert S - multiset(docs) == StoreDocs(tok, st.rows - {message});
    UnlearnThenLearn(st.tables, S, docs);
  }

  // Runs.

  function Step(tok: Tokenizer, st: State, ev: Event): Option<State> {
    match ev
    case Update(m, k, dbOk) => Some(Updated(tok, st, m, k, dbOk).0)
    case Remove(m, k, dbOk) =>
      var r := Removed(tok, st, m, k, dbOk);
      if r.None? then None else Some(r.value.0)
  }

  /** Adds messages that are not stored, removes stored ones of the same kind. */
  predicate Proper(rows: Rows, ev: Event) {
    match ev
    case Update(m, _, _) => m !in rows
    case Remove(m, k, _) => m in rows && rows[m].kind == k
  }

  function Run(tok: Tokenizer, st: State, evs: seq<Event>): Option<State>
    decreases |evs|
  {
    if evs == [] then Some(st)
    else
      var next := Step(tok, st, evs[0]);
      if next.None? then None else Run(tok, next.value, evs[1..])
  }

  predicate ProperRun(tok: Tokenizer, st: State, evs: seq<Event>)
    decreases |evs|
  {
    evs == [] ||
      (Proper(st.rows, evs[0])
       && (Step(tok, st, evs[0]).Some? ==> ProperRun(tok, Step(tok, st, evs[0]).value, evs[1..])))
  }

  lemma {:induction false} RunInSync(tok: Tokenizer, st: State, evs: seq<Event>)
    requires InSync(tok, st) && ProperRun(tok, st, evs)
    ensures Run(tok, st, evs).Some? && InSync(tok, Run(tok, st, evs).value)
    decreases |evs|
  {
    if evs != [] {
      match evs[0] {
        case Update(m, k, dbOk) =>
          if m != "" && dbOk {
            UpdateInSyncIff(tok, st, m, k);
          }
        case Remove(m, k, dbOk) => RemoveInSync(tok, st, m, dbOk);
      }
      RunInSync(tok, Step(tok, st, evs[0]).value, evs[1..]);
    }
  }

  // Reloading.

  /** What LoadSamples learns from the bytes of its spam and ham readers. */
  function StreamsElements(streams: seq<string>): seq<string> {
    if streams == [] then [] else StreamsElements(streams[..|streams| - 1]) + Elements(streams[|streams| - 1])
  }

  function LoadedDocs(tok: Tokenizer, spam: seq<string>, ham: seq<string>): seq<Document> {
    DocumentsOf(tok, "spam", StreamsElements(spam)) + DocumentsOf(tok, "ham", StreamsElements(ham))
  }

  lemma {:induction false} AllElementsAppend(a: seq<string>, b: seq<string>)
    ensures AllElements(a + b) == AllElements(a) + AllElements(b)
  {
    if a == [] {
      assert a + b == b;
    } else {
      AllElementsAppend(a[1..], b);
      assert (a + b)[1..] == a[1..] + b && (a + b)[0] == a[0];
    }
  }

  lemma TwoStreams(preset: seq<string>, user: seq<string>)
    ensures StreamsElements([Stream(preset), Stream(user)]) == Elements(Stream(preset)) + Elements(Stream(user))
  {
    var streams := [Stream(preset), Stream(user)];
    assert streams[..1] == [Stream(preset)] && streams[..1][..0] == [];
    assert StreamsElements(streams[..1]) == Elements(Stream(preset));
  }

  /** Nothing of value stands behind the first overlong line of a reader's rows. */
  predicate Lossless(order: seq<string>) {
    AllElements(order[Scanned(order)..]) == []
  }

  /** A reader's stream yields fewer elements than its rows hold, or just those. */
  lemma StreamLoss(order: seq<string>)
    ensures |Elements(Stream(order))| == |AllElements(order)| - |AllElements(order[Scanned(order)..])|
    ensures Lossless(order) ==> Elements(Stream(order)) == AllElements(order)
  {
    StreamElements(order);
    AllElementsSplit(order, Scanned(order));
  }

  /** The four readers of a reload: presets and user samples of each kind. */
  ghost predicate ListedAs(rows: Rows, sp: seq<string>, su: seq<string>, hp: seq<string>, hu: seq<string>) {
    && Lists(sp, rows, Spam, Preset) && Lists(su, rows, Spam, User)
    && Lists(hp, rows, Ham, Preset) && Lists(hu, rows, Ham, User)
  }

  function Reloaded(tok: Tokenizer, sp: seq<string>, su: seq<string>, hp: seq<string>, hu: seq<string>): seq<Document> {
    LoadedDocs(tok, [Stream(sp), Stream(su)], [Stream(hp), Stream(hu)])
  }

  predicate NoneAny(rows: Rows) {
    forall m :: m in rows ==> rows[m].origin != Any
  }

  lemma ListedStore(tok: Tokenizer, rows: Rows, sp: seq<string>, su: seq<string>, hp: seq<string>, hu: seq<string>)
    requires NoneAny(rows) && ListedAs(rows, sp, su, hp, hu)
    ensures StoreDocs(tok, rows) == multiset(DocumentsOf(tok, "spam", AllElements(sp) + AllElements(su)))
                                  + multiset(DocumentsOf(tok, "ham", AllElements(hp) + AllElements(hu)))
  {
    BothOrigins(rows, sp, su, Spam);
    BothOrigins(rows, hp, hu, Ham);
    AllElementsAppend(sp, su);
    AllElementsAppend(hp, hu);
    AllListedDocs(tok, rows, sp + su, hp + hu);
  }

  /** Read in whatever order, the store loads as exactly its documents when no reader loses any;
      otherwise fewer documents are loaded. */
  lemma LoadedIsStoreIff(tok: Tokenizer, rows: Rows, sp: seq<string>, su: seq<string>, hp: seq<string>, hu: seq<string>)
    requires NoneAny(rows) && ListedAs(rows, sp, su, hp, hu)
    ensures Lossless(sp) && Lossless(su) && Lossless(hp) && Lossless(hu) ==>
              multiset(Reloaded(tok, sp, su, hp, hu)) == StoreDocs(tok, rows)
    ensures !(Lossless(sp) && Lossless(su) && Lossless(hp) && Lossless(hu)) ==>
              |Reloaded(tok, sp, su, hp, hu)| < |StoreDocs(tok, rows)|
  {
    ListedStore(tok, rows, sp, su, hp, hu);
    TwoStreams(sp, su);
    TwoStreams(hp, hu);
    StreamLoss(sp);
    StreamLoss(su);
    StreamLoss(hp);
    StreamLoss(hu);
    var spam := DocumentsOf(tok, "spam", AllElements(sp) + AllElements(su));
    var ham := DocumentsOf(tok, "ham", AllElements(hp) + AllElements(hu));
    assert |multiset(spam) + multiset(ham)| == |spam| + |ham|;
  }

  /** Tables that describe the store agree with those a reload builds exactly when no reader
      loses documents behind an overlong line. */
  lemma ReloadIff(tok: Tokenizer, st: State, sp: seq<string>, su: seq<string>, hp: seq<string>, hu: seq<string>)
    requires InSync(tok, st) && NoneAny(st.rows) && ListedAs(st.rows, sp, su, hp, hu)
    ensures SameCounts(st.tables, Learn(EMPTY_TABLES, Reloaded(tok, sp, su, hp, hu)))
       <==> Lossless(sp) && Lossless(su) && Lossless(hp) && Lossless(hu)
  {
    var docs := Reloaded(tok, sp, su, hp, hu);
    LoadedIsStoreIff(tok, st.rows, sp, su, hp, hu);
    EmptyDescribes();
    LearnDescribes(EMPTY_TABLES, multiset{}, docs);
    assert multiset{} + multiset(docs) == multiset(docs);
    assert Learn(EMPTY_TABLES, docs).total == |docs|;
    if Lossless(sp) && Lossless(su) && Lossless(hp) && Lossless(hu) {
      CountsDetermined(st.tables, Learn(EMPTY_TABLES, docs), multiset(docs));
    }
  }

  lemma {:induction false} RunOrigins(tok: Tokenizer, st: State, evs: seq<Event>)
    requires NoneAny(st.rows) && Run(tok, st, evs).Some?
    ensures NoneAny(Run(tok, st, evs).value.rows)
    decreases |evs|
  {
    if evs != [] {
      RunOrigins(tok, Step(tok, st, evs[0]).value, evs[1..]);
    }
  }

  /** After any proper run the counts are those a reload would build from the store, exactly when
      no reader loses documents behind an overlong line. */
  lemma IncrementalEqualsReloadIff(tok: Tokenizer, st: State, evs: seq<Event>,
                                   sp: seq<string>, su: seq<string>, hp: seq<string>, hu: seq<string>)
    requires InSync(tok, st) && NoneAny(st.rows) && ProperRun(tok, st, evs)
    requires Run(tok, st, evs).Some? ==> ListedAs(Run(tok, st, evs).value.rows, sp, su, hp, hu)
    ensures Run(tok, st, evs).Some?
    ensures SameCounts(Run(tok, st, evs).value.tables, Learn(EMPTY_TABLES, Reloaded(tok, sp, su, hp, hu)))
       <==> Lossless(sp) && Lossless(su) && Lossless(hp) && Lossless(hu)
  {
    RunInSync(tok, st, evs);
    RunOrigins(tok, st, evs);
    ReloadIff(tok, Run(tok, st, evs).value, sp, su, hp, hu);
  }

  /** In particular always when no stored message has an overlong line. */
  lemma ShortLinesLoseNothing(rows: Rows, order: seq<string>, kind: Kind, origin: Origin)
    requires Lists(order, rows, kind, origin) && forall m :: m in rows ==> NoLongLine(m)
    ensures Lossless(order)
  {
    forall i | 0 <= i < |order| ensures NoLongLine(order[i]) {
      assert order[i] in order;
    }
    ScannedAll(order);
    assert order[|order|..] == [];
  }

  // A store that does not reload.

  /** A line that fills the scanner's buffer. */
  function Overlong(): (line: string)
    ensures |line| == MAX_LINE && forall i :: 0 <= i < |line| ==> line[i] == 'x'
  {
    seq(MAX_LINE, _ => 'x')
  }

  lemma OverlongYieldsNothing()
    ensures Elements(Overlong()) == [] && !NoLongLine(Overlong())
  {
    LineLengthIs(Overlong(), MAX_LINE);
    LastLine(Overlong());
  }

  lemma HelloYieldsItself()
    ensures Elements("hello") == ["hello"] && NoLongLine("hello")
  {
    LineLengthIs("hello", 5);
    LastLine("hello");
    assert TrimLeft("hello") == "hello" && TrimRight("hello") == "hello";
  }

  /** Rows behind an overlong one are lost exactly when they hold an element. */
  lemma LosslessBehindOverlong(rest: seq<string>)
    ensures Lossless([Overlong()] + rest) <==> AllElements(rest) == []
  {
    OverlongYieldsNothing();
    assert ([Overlong()] + rest)[1..] == rest;
  }

  /** Two samples put the store where a reload does not give the tables of the classifier. */
  lemma ReloadLosesSample(tok: Tokenizer)
    ensures var evs := [Update(Overlong(), Spam, true), Update("hello", Spam, true)];
            var st, order := State(EMPTY_TABLES, map[]), [Overlong(), "hello"];
            && ProperRun(tok, st, evs) && Run(tok, st, evs).Some?
            && ListedAs(Run(tok, st, evs).value.rows, [], order, [], []) && !Lossless(order)
            && !SameCounts(Run(tok, st, evs).value.tables, Learn(EMPTY_TABLES, Reloaded(tok, [], order, [], [])))
  {
    var order := [Overlong(), "hello"];
    assert |Overlong()| != |"hello"|;
    TwoUpdates(tok, Overlong(), "hello");
    EmptyDescribes();
    OrderLossy();
    var evs := [Update(Overlong(), Spam, true), Update("hello", Spam, true)];
    IncrementalEqualsReloadIff(tok, State(EMPTY_TABLES, map[]), evs, [], order, [], []);
  }

  lemma TwoUpdates(tok: Tokenizer, m: string, n: string)
    requires m != n && m != "" && n != ""
    ensures var evs, st := [Update(m, Spam, true), Update(n, Spam, true)], State(EMPTY_TABLES, map[]);
            && ProperRun(tok, st, evs) && Run(tok, st, evs).Some?
            && ListedAs(Run(tok, st, evs).value.rows, [], [m, n], [], [])
  {
    var st := State(EMPTY_TABLES, map[]);
    var st1 := Updated(tok, st, m, Spam, true).0;
    var st2 := Updated(tok, st1, n, Spam, true).0;
    TwoSteps(tok, st, Update(m, Spam, true), Update(n, Spam, true), st1, st2);
    TwoRowsListed(m, n, st2.rows);
  }

  lemma TwoRowsListed(m: string, n: string, rows: Rows)
    requires m != n && rows == map[m := Sample(Spam, User), n := Sample(Spam, User)]
    ensures ListedAs(rows, [], [m, n], [], [])
  {
  }

  lemma OrderLossy()
    ensures !Lossless([Overlong(), "hello"])
  {
    HelloYieldsItself();
    LosslessBehindOverlong(["hello"]);
    assert [Overlong(), "hello"] == [Overlong()] + ["hello"];
    assert AllElements(["hello"]) == ["hello"];
  }

  lemma TwoSteps(tok: Tokenizer, st: State, first: Event, second: Event, st1: State, st2: State)
    requires Proper(st.rows, first) && Step(tok, st, first) == Some(st1)
    requires Proper(st1.rows, second) && Step(tok, st1, second) == Some(st2)
    ensures ProperRun(tok, st, [first, second]) && Run(tok, st, [first, second]) == Some(st2)
  {
    assert [first, second][1..] == [second] && [second][1..] == [];
    assert Run(tok, st1, [second]) == Run(tok, st2, []);
  }
}
