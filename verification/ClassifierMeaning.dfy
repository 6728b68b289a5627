/** Learning and unlearning keep the tables a faithful summary of the documents learned. */
module ClassifierMeaning {
  import opened Sums
  import opened ClassifierTables

  type Results = map<Token, map<Class, int>>

  // One document: its tokens, then the rest.

  lemma LearnedCount(r: Results, ts: set<Token>, c: Class, t: Token, x: Class)
    ensures Count(LearnTokens(r, ts, c), t, x) == Count(r, t, x) + if x == c && t in ts then 1 else 0
  {
  }

  lemma CountPositive(r: Results, t: Token, c: Class)
    requires NoZeros(r)
    ensures Count(r, t, c) >= 0
    ensures Count(r, t, c) > 0 <==> t in r && c in r[t]
  {
    if t in r {
      assert RowOk(r[t]);
    }
  }

  lemma OccurrencesAdded(r: Results, r': Results, added: set<Token>, c: Class)
    requires r.Keys <= r'.Keys && added <= r'.Keys
    requires forall t :: t in r'.Keys ==> Count(r', t, c) == Count(r, t, c) + if t in added then 1 else 0
    ensures Occurrences(r', c) == Occurrences(r, c) + |added|
  {
    SumWiden(r.Keys, r'.Keys, CountsOf(r, c));
    SumShift(r'.Keys, CountsOf(r', c), CountsOf(r, c), added);
    assert r'.Keys * added == added;
  }

  lemma LearnedOccurrences(r: Results, ts: set<Token>, c: Class, x: Class)
    ensures Occurrences(LearnTokens(r, ts, c), x) == Occurrences(r, x) + if x == c then |ts| else 0
  {
    var r' := LearnTokens(r, ts, c);
    var added := if x == c then ts else {};
    forall t | t in r'.Keys ensures Count(r', t, x) == Count(r, t, x) + if t in added then 1 else 0 {
      LearnedCount(r, ts, c, t, x);
    }
    OccurrencesAdded(r, r', added, x);
  }

  lemma LearnedNoZeros(r: Results, ts: set<Token>, c: Class)
    requires NoZeros(r)
    ensures NoZeros(LearnTokens(r, ts, c))
  {
    var r' := LearnTokens(r, ts, c);
    forall t | t in r' ensures RowOk(r'[t]) {
      assert t in r ==> RowOk(r[t]);
      if t in ts {
        assert c in r'[t];
      }
    }
  }

  /** Only classes with documents occur; learning may then start a class from nothing. */
  ghost predicate Classed(docs: map<Class, int>, r: Results) {
    forall t, c :: Count(r, t, c) > 0 ==> c in docs
  }

  ghost predicate Countable(T: Tables) {
    && NoZeros(T.results) && Positive(T.docs) && FreqIsSum(T.docs, T.freq, T.results)
    && Classed(T.docs, T.results)
  }

  lemma UnknownClass(T: Tables, c: Class)
    requires Countable(T) && c !in T.docs
    ensures Occurrences(T.results, c) == 0
  {
    forall t | t in T.results ensures Count(T.results, t, c) == 0 {
      CountPositive(T.results, t, c);
    }
    SumNonNegative(T.results.Keys, CountsOf(T.results, c));
  }

  lemma FreqGrows(docs: map<Class, int>, freq: map<Class, int>, n: int, c: Class, x: Class, k: nat)
    requires FreqFits(docs, freq, n, c) && (c !in docs ==> n == 0)
    ensures FreqFits(Bump(docs, x, 1), if k == 0 then freq else Bump(freq, x, k), n + if c == x then k else 0, c)
  {
  }

  lemma LearnDocFreq(T: Tables, d: Document, c: Class)
    requires Countable(T)
    ensures FreqAt(LearnDoc(T, d).docs, LearnDoc(T, d).freq, LearnDoc(T, d).results, c)
  {
    assert FreqAt(T.docs, T.freq, T.results, c);
    LearnedOccurrences(T.results, TokenSet(d), d.cls, c);
    if c !in T.docs {
      UnknownClass(T, c);
    }
    FreqGrows(T.docs, T.freq, Occurrences(T.results, c), c, d.cls, |TokenSet(d)|);
  }

  lemma LearnDocKeeps(T: Tables, d: Document)
    requires Countable(T)
    ensures Countable(LearnDoc(T, d))
  {
    forall c ensures FreqAt(LearnDoc(T, d).docs, LearnDoc(T, d).freq, LearnDoc(T, d).results, c) {
      LearnDocFreq(T, d, c);
    }
    LearnedNoZeros(T.results, TokenSet(d), d.cls);
    var T' := LearnDoc(T, d);
    forall t, c | Count(T'.results, t, c) > 0 ensures c in T'.docs {
      LearnedCount(T.results, TokenSet(d), d.cls, t, c);
    }
  }

  // A batch.

  lemma MultisetSnoc(docs: seq<Document>)
    requires docs != []
    ensures multiset(docs) == multiset(docs[..|docs| - 1]) + multiset{docs[|docs| - 1]}
  {
    assert docs == docs[..|docs| - 1] + [docs[|docs| - 1]];
  }

  lemma {:induction false} LearnDocsKeeps(T: Tables, docs: seq<Document>)
    requires Countable(T)
    ensures var T' := LearnDocs(T, docs);
            Countable(T') && T'.total == T.total && T'.priors == T.priors && T.docs.Keys <= T'.docs.Keys
  {
    if docs != [] {
      LearnDocsKeeps(T, docs[..|docs| - 1]);
      LearnDocKeeps(LearnDocs(T, docs[..|docs| - 1]), docs[|docs| - 1]);
    }
  }

  lemma {:induction false} LearnDocsCounts(T: Tables, docs: seq<Document>, c: Class)
    ensures Get(LearnDocs(T, docs).docs, c) == Get(T.docs, c) + DocCount(multiset(docs), c)
  {
    if docs != [] {
      LearnDocsCounts(T, docs[..|docs| - 1], c);
      MultisetSnoc(docs);
      TotalAdd(multiset(docs[..|docs| - 1]), docs[|docs| - 1], OfClass(c));
    }
  }

  lemma {:induction false} LearnDocsTokens(T: Tables, docs: seq<Document>, t: Token, c: Class)
    ensures Count(LearnDocs(T, docs).results, t, c) == Count(T.results, t, c) + TokenCount(multiset(docs), t, c)
  {
    if docs != [] {
      LearnDocsTokens(T, docs[..|docs| - 1], t, c);
      var d := docs[|docs| - 1];
      LearnedCount(LearnDocs(T, docs[..|docs| - 1]).results, TokenSet(d), d.cls, t, c);
      MultisetSnoc(docs);
      TotalAdd(multiset(docs[..|docs| - 1]), docs[|docs| - 1], OfToken(t, c));
    }
  }

  lemma TotalUnion(D: multiset<Document>, E: multiset<Document>, w: Document -> nat)
    ensures Total(D + E, w) == Total(D, w) + Total(E, w)
  {
    TotalSplit(D + E, E, w);
    assert D + E - E == D;
  }

  /** A token of a class is counted at most once per document of the class. */
  lemma {:induction false} TokenCountBound(D: multiset<Document>, t: Token, c: Class)
    ensures TokenCount(D, t, c) <= DocCount(D, c)
    decreases |D|
  {
    if D != multiset{} {
      var d :| d in D;
      TotalTake(D, d, OfToken(t, c));
      TotalTake(D, d, OfClass(c));
      TokenCountBound(D - multiset{d}, t, c);
    }
  }

  lemma DescribedCountable(T: Tables, D: multiset<Document>)
    requires Describes(T, D)
    ensures Countable(T)
  {
    forall t, c | Count(T.results, t, c) > 0 ensures c in T.docs {
      TokenCountBound(D, t, c);
      assert Get(T.docs, c) == DocCount(D, c);
    }
  }

  lemma LearnDocsCount(T: Tables, D: multiset<Document>, docs: seq<Document>)
    requires DocsCounted(T.docs, D) && TokensCounted(T.results, D)
    ensures DocsCounted(LearnDocs(T, docs).docs, D + multiset(docs))
    ensures TokensCounted(LearnDocs(T, docs).results, D + multiset(docs))
  {
    var T' := LearnDocs(T, docs);
    forall c ensures Get(T'.docs, c) == DocCount(D + multiset(docs), c) {
      LearnDocsCounts(T, docs, c);
      TotalUnion(D, multiset(docs), OfClass(c));
    }
    forall t, c ensures Count(T'.results, t, c) == TokenCount(D + multiset(docs), t, c) {
      LearnDocsTokens(T, docs, t, c);
      TotalUnion(D, multiset(docs), OfToken(t, c));
    }
  }

  lemma RefreshedPriors(T: Tables)
    requires T.priors.Keys <= T.docs.Keys
    ensures PriorsKeyed(T.docs, RefreshPriors(T).priors, T.total) && Fresh(RefreshPriors(T))
  {
  }

  /** Learning adds the documents, in whatever state the tables were. */
  lemma LearnDescribes(T: Tables, D: multiset<Document>, docs: seq<Document>)
    requires Describes(T, D)
    ensures Describes(Learn(T, docs), D + multiset(docs))
    ensures Fresh(Learn(T, docs))
  {
    DescribedCountable(T, D);
    var T0 := T.(total := T.total + |docs|);
    LearnDocsKeeps(T0, docs);
    LearnDocsCount(T0, D, docs);
    RefreshedPriors(LearnDocs(T0, docs));
  }

  lemma EmptyDescribes()
    ensures Describes(EMPTY_TABLES, multiset{}) && Fresh(EMPTY_TABLES)
  {
    forall c ensures FreqAt(map[], map[], map[], c) {
    }
  }
}
