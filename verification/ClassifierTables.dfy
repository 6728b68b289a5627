/** The classifier's tables as values, what learning and unlearning make of them, and what they
    say about the documents learned so far. */
module ClassifierTables {
  import opened Sequences
  import opened Sums

  type Class = string
  type Token = string

  /** A document as the tables see it; duplicates and order of its tokens are immaterial. */
  datatype Document = Document(cls: Class, tokens: set<Token>)

  /** A prior probability is kept as the quotient whose logarithm the program stores. */
  datatype Prior = Prior(docs: int, total: int)

  datatype Tables = Tables(
    results: map<Token, map<Class, int>>,
    docs: map<Class, int>,
    freq: map<Class, int>,
    priors: map<Class, Prior>,
    total: int)

  const EMPTY_TABLES := Tables(map[], map[], map[], map[], 0)

  /** Reading a Go map: zero when the key is absent. */
  function Get<K>(m: map<K, int>, k: K): int {
    if k in m then m[k] else 0
  }

  function Row(results: map<Token, map<Class, int>>, t: Token): map<Class, int> {
    if t in results then results[t] else map[]
  }

  function Count(results: map<Token, map<Class, int>>, t: Token, c: Class): int {
    Get(Row(results, t), c)
  }

  function TokenSet(d: Document): set<Token> {
    d.tokens
  }

  function Bump<K>(m: map<K, int>, k: K, n: int): map<K, int> {
    m[k := Get(m, k) + n]
  }

  // Learning.

  function LearnTokens(results: map<Token, map<Class, int>>, ts: set<Token>, c: Class): map<Token, map<Class, int>> {
    map t | t in results.Keys + ts :: if t in ts then Bump(Row(results, t), c, 1) else results[t]
  }

  function LearnDoc(T: Tables, d: Document): Tables {
    var ts := TokenSet(d);
    T.(docs := Bump(T.docs, d.cls, 1),
       freq := if ts == {} then T.freq else Bump(T.freq, d.cls, |ts|),
       results := LearnTokens(T.results, ts, d.cls))
  }

  function LearnDocs(T: Tables, docs: seq<Document>): Tables {
    if docs == [] then T else LearnDoc(LearnDocs(T, docs[..|docs| - 1]), docs[|docs| - 1])
  }

  function RefreshPriors(T: Tables): Tables {
    T.(priors := T.priors + map c | c in T.docs :: Prior(T.docs[c], T.total))
  }

  function Learn(T: Tables, docs: seq<Document>): Tables {
    RefreshPriors(LearnDocs(T.(total := T.total + |docs|), docs))
  }

  // Unlearning.

  function Lower(m: map<Class, int>, c: Class): map<Class, int> {
    if Get(m, c) == 1 then m - {c} else Bump(m, c, -1)
  }

  function UnlearnTokens(results: map<Token, map<Class, int>>, ts: set<Token>, c: Class): map<Token, map<Class, int>> {
    map t | t in results && !(t in ts && Lower(results[t], c).Keys == {}) ::
      if t in ts then Lower(results[t], c) else results[t]
  }

  /** The guards of the loop body: a document and every token of the class left to take away. */
  predicate CanUnlearn(T: Tables, d: Document) {
    Get(T.docs, d.cls) > 0 && TokensAvailable(T.results, T.freq, TokenSet(d), d.cls)
  }

  predicate TokensAvailable(results: map<Token, map<Class, int>>, freq: map<Class, int>, ts: set<Token>, c: Class) {
    && (forall t :: t in ts ==> Count(results, t, c) > 0)
    && (ts == {} || Get(freq, c) >= |ts|)
  }

  /** Forgets a class without documents; otherwise refreshes the prior of this class only. */
  function SettleClass(T: Tables, c: Class): Tables {
    if Get(T.docs, c) == 0 then T.(docs := T.docs - {c}, freq := T.freq - {c}, priors := T.priors - {c})
    else T.(priors := T.priors[c := Prior(Get(T.docs, c), T.total)])
  }

  function UnlearnDoc(T: Tables, d: Document): Tables {
    var c, ts := d.cls, TokenSet(d);
    SettleClass(T.(docs := Bump(T.docs, c, -1),
                   results := UnlearnTokens(T.results, ts, c),
                   freq := if ts == {} then T.freq else Bump(T.freq, c, -|ts|)), c)
  }

  function UnlearnDocs(T: Tables, docs: seq<Document>): Option<Tables> {
    if docs == [] then Some(T)
    else
      var front := UnlearnDocs(T, docs[..|docs| - 1]);
      if front.Some? && CanUnlearn(front.value, docs[|docs| - 1])
      then Some(UnlearnDoc(front.value, docs[|docs| - 1])) else None
  }

  /** None is an error return. */
  function Unlearn(T: Tables, docs: seq<Document>): Option<Tables> {
    if |docs| > T.total then None else UnlearnDocs(T.(total := T.total - |docs|), docs)
  }

  /** The frequency table when n tokens of the class were taken and the next is missing. */
  function Stopping(freq: map<Class, int>, c: Class, n: nat): map<Class, int> {
    var gone := n + if Get(freq, c) <= n then 0 else 1;
    if gone == 0 then freq else Bump(freq, c, -(gone as int))
  }

  /** What a document that cannot be unlearned makes of V. Nothing, when its class has no documents
      left; otherwise one document of the class is gone, and so are the tokens that came before
      the missing one, which may have cost the class its share of the frequency already. */
  ghost predicate Stopped(V: Tables, U: Tables, d: Document, taken: set<Token>) {
    var c := d.cls;
    if Get(V.docs, c) <= 0 then U == V
    else
      && taken < TokenSet(d) && TokensAvailable(V.results, V.freq, taken, c)
      && U == V.(docs := Bump(V.docs, c, -1), results := UnlearnTokens(V.results, taken, c), freq := U.freq)
      && U.freq == Stopping(V.freq, c, |taken|)
  }

  /** What a failing call leaves: T itself when there were too few documents altogether. */
  ghost predicate StoppedAt(T: Tables, docs: seq<Document>, U: Tables, k: nat, taken: set<Token>) {
    if |docs| > T.total then U == T
    else
      && k < |docs|
      && var V := UnlearnDocs(T.(total := T.total - |docs|), docs[..k]);
         V.Some? && !CanUnlearn(V.value, docs[k]) && Stopped(V.value, U, docs[k], taken)
  }

  // What the tables mean.

  function OfClass(c: Class): Document -> nat {
    (d: Document) => if d.cls == c then 1 else 0
  }

  function OfToken(t: Token, c: Class): Document -> nat {
    (d: Document) => if d.cls == c && t in d.tokens then 1 else 0
  }

  /** How many documents of class c there are, and how many of those contain token t. */
  ghost function DocCount(D: multiset<Document>, c: Class): nat {
    Total(D, OfClass(c))
  }

  ghost function TokenCount(D: multiset<Document>, t: Token, c: Class): nat {
    Total(D, OfToken(t, c))
  }

  function CountsOf(results: map<Token, map<Class, int>>, c: Class): Token -> int {
    (t: Token) => Count(results, t, c)
  }

  /** The occurrences of class c over the whole vocabulary. */
  ghost function Occurrences(results: map<Token, map<Class, int>>, c: Class): int {
    Sum(results.Keys, CountsOf(results, c))
  }

  /** No zero entries, no empty rows. */
  ghost predicate RowOk(row: map<Class, int>) {
    row.Keys != {} && forall c :: c in row ==> row[c] > 0
  }

  ghost predicate NoZeros(results: map<Token, map<Class, int>>) {
    forall t :: t in results ==> RowOk(results[t])
  }

  ghost predicate Positive(docs: map<Class, int>) {
    forall c :: c in docs ==> docs[c] > 0
  }

  ghost predicate FreqAt(docs: map<Class, int>, freq: map<Class, int>, results: map<Token, map<Class, int>>, c: Class) {
    FreqFits(docs, freq, Occurrences(results, c), c)
  }

  /** The frequency entry of class c stands at n, or is missing like the class. */
  ghost predicate FreqFits(docs: map<Class, int>, freq: map<Class, int>, n: int, c: Class) {
    if c in docs then Get(freq, c) == n else c !in freq
  }

  ghost predicate FreqIsSum(docs: map<Class, int>, freq: map<Class, int>, results: map<Token, map<Class, int>>) {
    forall c :: FreqAt(docs, freq, results, c)
  }

  ghost predicate PriorsKeyed(docs: map<Class, int>, priors: map<Class, Prior>, total: int) {
    && priors.Keys == docs.Keys
    && (forall c :: c in docs ==> priors[c].docs == docs[c] && priors[c].total >= total)
  }

  ghost predicate DocsCounted(docs: map<Class, int>, D: multiset<Document>) {
    forall c :: Get(docs, c) == DocCount(D, c)
  }

  ghost predicate TokensCounted(results: map<Token, map<Class, int>>, D: multiset<Document>) {
    forall t, c :: Count(results, t, c) == TokenCount(D, t, c)
  }

  /** No stale entries anywhere, and the derived tables agree with the counted ones. */
  ghost predicate Consistent(T: Tables) {
    && NoZeros(T.results) && Positive(T.docs)
    && FreqIsSum(T.docs, T.freq, T.results)
    && PriorsKeyed(T.docs, T.priors, T.total)
  }

  /** The tables describe exactly the documents D. */
  ghost predicate Describes(T: Tables, D: multiset<Document>) {
    && Consistent(T)
    && T.total == |D| && DocsCounted(T.docs, D) && TokensCounted(T.results, D)
  }

  /** Every prior was computed with the current number of documents. */
  ghost predicate Fresh(T: Tables) {
    forall c :: c in T.docs ==> c in T.priors && T.priors[c] == Prior(T.docs[c], T.total)
  }
}
