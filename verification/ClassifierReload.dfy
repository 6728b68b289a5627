/** When a classifier that learned and unlearned its way to a set of documents answers like one
    that learned them afresh. */
module ClassifierReload {
  import opened Sequences
  import opened Sums
  import opened ClassifierTables
  import opened ClassifierMeaning
  import opened ClassifierUnlearning
  import opened ClassifierLaws
  import opened Decision

  // Frequency entries.

  /** No frequency entry has come down to zero. */
  ghost predicate NoZeroEntry(T: Tables) {
    forall c :: c in T.freq ==> T.freq[c] != 0
  }

  ghost predicate PositiveEntries(freq: map<Class, int>) {
    forall c :: c in freq ==> freq[c] > 0
  }

  lemma {:induction false} LearnDocsEntries(T: Tables, docs: seq<Document>)
    requires PositiveEntries(T.freq)
    ensures PositiveEntries(LearnDocs(T, docs).freq)
  {
    if docs != [] {
      LearnDocsEntries(T, docs[..|docs| - 1]);
    }
  }

  /** After any run the tables are those of learning the remaining documents afresh exactly when
      every prior is fresh and no frequency entry is zero. Then every message gets the same
      weights and the same verdict. */
  lemma RunDecidesAsReloadIff(ops: seq<Op>, docs: seq<Document>)
    requires Remaining(multiset{}, ops) == Some(multiset(docs))
    ensures RunOps(EMPTY_TABLES, ops).Some?
    ensures var T := RunOps(EMPTY_TABLES, ops).value;
            T == Learn(EMPTY_TABLES, docs) <==> Fresh(T) && NoZeroEntry(T)
  {
    EmptyDescribes();
    RunDescribes(EMPTY_TABLES, multiset{}, ops);
    LearnDescribes(EMPTY_TABLES, multiset{}, docs);
    assert multiset{} + multiset(docs) == multiset(docs);
    var T, U := RunOps(EMPTY_TABLES, ops).value, Learn(EMPTY_TABLES, docs);
    CountsDetermined(T, U, multiset(docs));
    LearnDocsEntries(EMPTY_TABLES.(total := |docs|), docs);
    if Fresh(T) && NoZeroEntry(T) {
      forall c ensures c in T.freq <==> c in U.freq {
        assert Get(T.freq, c) == Get(U.freq, c);
      }
      EqualTables(T, U, multiset(docs));
    }
  }

  /** Unlearning drops the frequency entries of classes left without documents, and no others. */
  lemma {:induction false} UnlearnDocsFreqKeys(T: Tables, docs: seq<Document>)
    requires T.freq.Keys <= T.docs.Keys && UnlearnDocs(T, docs).Some?
    ensures UnlearnDocs(T, docs).value.freq.Keys == T.freq.Keys * UnlearnDocs(T, docs).value.docs.Keys
    ensures UnlearnDocs(T, docs).value.docs.Keys <= T.docs.Keys
  {
    if docs != [] {
      UnlearnDocsFreqKeys(T, docs[..|docs| - 1]);
      UnlearnDocFreqKeys(UnlearnDocs(T, docs[..|docs| - 1]).value, docs[|docs| - 1]);
    }
  }

  lemma UnlearnDocFreqKeys(T: Tables, d: Document)
    requires T.freq.Keys <= T.docs.Keys && CanUnlearn(T, d)
    ensures UnlearnDoc(T, d).freq.Keys == T.freq.Keys * UnlearnDoc(T, d).docs.Keys
    ensures UnlearnDoc(T, d).docs.Keys <= T.docs.Keys
  {
  }

  lemma FreqKeysInDocs(T: Tables)
    requires Consistent(T)
    ensures T.freq.Keys <= T.docs.Keys
  {
    forall c | c in T.freq ensures c in T.docs {
      assert FreqAt(T.docs, T.freq, T.results, c);
    }
  }

  /** Learning and unlearning leaves a frequency entry, of value zero, for each class that has
      documents but had no tokens before and that the documents brought tokens to. So it restores
      the frequency table exactly when there is no such class. */
  lemma FrequencyRestoredIff(T: Tables, D: multiset<Document>, docs: seq<Document>)
    requires Describes(T, D)
    ensures var U := Unlearn(Learn(T, docs), docs);
            && U.Some? && SameCounts(T, U.value)
            && U.value.freq.Keys == T.freq.Keys + TokenClasses(docs) * T.docs.Keys
            && (U.value.freq == T.freq <==> TokenClasses(docs) * T.docs.Keys <= T.freq.Keys)
  {
    LearnThenUnlearn(T, D, docs);
    var U := Unlearn(Learn(T, docs), docs).value;
    KeysLeft(T, D, docs);
    if TokenClasses(docs) * T.docs.Keys <= T.freq.Keys {
      MapFromValues(U.freq, T.freq);
    }
  }

  lemma KeysLeft(T: Tables, D: multiset<Document>, docs: seq<Document>)
    requires Describes(T, D) && Unlearn(Learn(T, docs), docs).Some?
    requires Unlearn(Learn(T, docs), docs).value.docs == T.docs
    ensures Unlearn(Learn(T, docs), docs).value.freq.Keys == T.freq.Keys + TokenClasses(docs) * T.docs.Keys
  {
    var L := Learn(T, docs);
    LearnDescribes(T, D, docs);
    FreqKeysInDocs(T);
    FreqKeysInDocs(L);
    LearnFreqKeys(T, docs);
    UnlearnDocsFreqKeys(L.(total := L.total - |docs|), docs);
  }

  /** Learning and unlearning restores all tables exactly when besides the documents cover every
      class, so that every prior is refreshed. */
  lemma TablesRestoredIff(T: Tables, D: multiset<Document>, docs: seq<Document>)
    requires Describes(T, D) && Fresh(T) && docs != []
    ensures Unlearn(Learn(T, docs), docs) == Some(T)
       <==> TokenClasses(docs) * T.docs.Keys <= T.freq.Keys && T.docs.Keys <= ClassesOf(docs)
  {
    FrequencyRestoredIff(T, D, docs);
    PriorsAfterLearnThenUnlearn(T, D, docs);
  }

  /** Such an entry makes the program divide by zero exactly when the vocabulary is empty again. */
  lemma ZeroEntryDividesIff(T: Tables, D: multiset<Document>, docs: seq<Document>)
    requires Describes(T, D) && T.total > 0
    ensures var U := Unlearn(Learn(T, docs), docs);
            U.Some? && (Divisible(U.value) <==>
                          T.results.Keys != {} || T.freq.Keys + TokenClasses(docs) * T.docs.Keys == {})
  {
    FrequencyRestoredIff(T, D, docs);
    LearnThenUnlearn(T, D, docs);
    DivisibleIff(Unlearn(Learn(T, docs), docs).value);
  }

  // What a zero entry does to a weight.

  /** p divided by v, n times. */
  function Shrunk(p: real, n: nat, v: int): real {
    if n == 0 then p else Times(Shrunk(p, n - 1, v), Ratio(1, v))
  }

  lemma {:induction false} ProductShrinks(p: real, ts: set<Token>, f: Token -> real, v: int)
    requires forall t :: t in ts ==> f(t) == Ratio(1, v)
    ensures Product(p, ts, f) == Shrunk(p, |ts|, v)
    decreases |ts|
  {
    if ts != {} {
      var t :| t in ts;
      ProductShrinks(p, ts - {t}, f, v);
      ProductAdd(p, ts - {t}, t, f);
      assert ts - {t} + {t} == ts;
    }
  }

  lemma TimesRatio(p: real, v: int)
    requires p > 0.0 && v > 0
    ensures 0.0 < Times(p, Ratio(1, v)) <= p
    ensures Times(p, Ratio(1, v)) == p <==> v == 1
  {
    var q := Ratio(1, v);
    assert q * v as real == 1.0;
    if v > 1 {
      assert 0.0 < q < 1.0;
      assert p * (1.0 - q) > 0.0;
    }
  }

  lemma {:induction false} ShrunkLess(p: real, n: nat, v: int)
    requires p > 0.0 && v > 0
    ensures 0.0 < Shrunk(p, n, v) <= p
    ensures Shrunk(p, n, v) == p <==> n == 0 || v == 1
  {
    if n > 0 {
      ShrunkLess(p, n - 1, v);
      TimesRatio(Shrunk(p, n - 1, v), v);
    }
  }

  lemma NoTokenOfClass(T: Tables, t: Token, c: Class)
    requires Consistent(T) && c in T.docs && Get(T.freq, c) == 0
    ensures Count(T.results, t, c) == 0
  {
    assert FreqAt(T.docs, T.freq, T.results, c);
    OccurrencesNonNegative(T.results, c);
  }

  lemma ZeroEntryFactor(U: Tables, c: Class, t: Token)
    requires Get(U.freq, c) == 0 && Count(U.results, t, c) == 0
    ensures FactorOf(U, c)(t) == Ratio(1, |U.results|)
  {
  }

  /** With a zero entry each distinct token of a message divides the weight of the class by the
      size of the vocabulary; without the entry the class keeps its prior. */
  lemma ZeroEntryWeight(T: Tables, ts: set<Token>, c: Class)
    requires Consistent(T) && c in T.priors && c !in T.freq
    ensures Weight(T, ts, c) == PriorOf(T, c)
    ensures Weight(T.(freq := T.freq[c := 0]), ts, c) == Shrunk(PriorOf(T, c), |ts|, |T.results|)
  {
    var U := T.(freq := T.freq[c := 0]);
    forall t | t in ts ensures FactorOf(U, c)(t) == Ratio(1, |T.results|) {
      NoTokenOfClass(T, t, c);
      ZeroEntryFactor(U, c, t);
    }
    ProductShrinks(PriorOf(U, c), ts, FactorOf(U, c), |T.results|);
  }

  /** So the entry lowers the weight of its class, unless the message has no tokens or the
      vocabulary has just one. */
  lemma ZeroEntryMattersIff(T: Tables, ts: set<Token>, c: Class)
    requires Consistent(T) && c in T.priors && c !in T.freq && T.results.Keys != {} && T.total > 0
    ensures var U := T.(freq := T.freq[c := 0]);
            && 0.0 < Weight(U, ts, c) <= Weight(T, ts, c)
            && (Weight(U, ts, c) == Weight(T, ts, c) <==> ts == {} || |T.results| == 1)
  {
    ZeroEntryWeight(T, ts, c);
    assert |T.results.Keys| > 0;
    PriorPositiveAlone(T, c);
    ShrunkLess(PriorOf(T, c), |ts|, |T.results|);
  }

  lemma PriorPositiveAlone(T: Tables, c: Class)
    requires c in T.priors && T.priors[c].docs > 0 && T.priors[c].total > 0
    ensures PriorOf(T, c) > 0.0
  {
  }
}
