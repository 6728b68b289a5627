/** Unlearning: when it succeeds, what it leaves, and how it undoes learning. */
module ClassifierUnlearning {
  import opened Sums
  import opened ClassifierTables
  import opened ClassifierMeaning

  // One document.

  ghost predicate HasTokens(r: Results, ts: set<Token>, c: Class) {
    forall t :: t in ts ==> Count(r, t, c) > 0
  }

  lemma UnlearnedCount(r: Results, ts: set<Token>, c: Class, t: Token, x: Class)
    requires NoZeros(r) && HasTokens(r, ts, c)
    ensures Count(UnlearnTokens(r, ts, c), t, x) == Count(r, t, x) - if x == c && t in ts then 1 else 0
  {
    assert t in ts ==> Count(r, t, c) > 0;
    if t in r {
      assert RowOk(r[t]);
      assert Lower(r[t], c).Keys >= r[t].Keys - {c};
    }
  }

  lemma UnlearnedNoZeros(r: Results, ts: set<Token>, c: Class)
    requires NoZeros(r) && HasTokens(r, ts, c)
    ensures NoZeros(UnlearnTokens(r, ts, c))
  {
    var r' := UnlearnTokens(r, ts, c);
    forall t | t in r' ensures RowOk(r'[t]) {
      assert RowOk(r[t]);
    }
  }

  lemma UnlearnedOccurrences(r: Results, ts: set<Token>, c: Class, x: Class)
    requires NoZeros(r) && HasTokens(r, ts, c)
    ensures Occurrences(r, x) == Occurrences(UnlearnTokens(r, ts, c), x) + if x == c then |ts| else 0
  {
    var r' := UnlearnTokens(r, ts, c);
    var removed := if x == c then ts else {};
    forall t | t in r.Keys ensures Count(r, t, x) == Count(r', t, x) + if t in removed then 1 else 0 {
      UnlearnedCount(r, ts, c, t, x);
    }
    OccurrencesAdded(r', r, removed, x);
  }

  lemma OccurrencesNonNegative(r: Results, c: Class)
    requires NoZeros(r)
    ensures Occurrences(r, c) >= 0
    ensures Occurrences(r, c) == 0 <==> forall t :: t in r ==> Count(r, t, c) == 0
  {
    var f := CountsOf(r, c);
    forall t | t in r.Keys ensures f(t) >= 0 {
      CountPositive(r, t, c);
    }
    SumNonNegative(r.Keys, f);
    assert (forall t :: t in r.Keys ==> f(t) == 0) <==> forall t :: t in r ==> Count(r, t, c) == 0;
  }

  /** In consistent tables the guard on the class's token total can never be the one to fail. */
  lemma GuardsAreCounts(T: Tables, d: Document)
    requires Consistent(T)
    ensures CanUnlearn(T, d) <==> Get(T.docs, d.cls) > 0 && HasTokens(T.results, TokenSet(d), d.cls)
  {
    var ts := TokenSet(d);
    if Get(T.docs, d.cls) > 0 && HasTokens(T.results, ts, d.cls) {
      UnlearnedOccurrences(T.results, ts, d.cls, d.cls);
      var r' := UnlearnTokens(T.results, ts, d.cls);
      UnlearnedNoZeros(T.results, ts, d.cls);
      OccurrencesNonNegative(r', d.cls);
      assert FreqAt(T.docs, T.freq, T.results, d.cls);
    }
  }

  function Without(m: map<Class, int>, x: Class, gone: bool): map<Class, int> {
    if gone then m - {x} else m
  }

  function Reduced(freq: map<Class, int>, x: Class, k: nat): map<Class, int> {
    if k == 0 then freq else Bump(freq, x, -(k as int))
  }

  lemma FreqShrinks(docs: map<Class, int>, freq: map<Class, int>, n: int, c: Class, x: Class, k: nat)
    requires FreqFits(docs, freq, n + if c == x then k else 0, c) && x in docs
    ensures FreqFits(Without(Bump(docs, x, -1), x, docs[x] == 1), Without(Reduced(freq, x, k), x, docs[x] == 1), n, c)
  {
  }

  lemma UnlearnDocParts(T: Tables, d: Document)
    requires d.cls in T.docs
    ensures UnlearnDoc(T, d).docs == Without(Bump(T.docs, d.cls, -1), d.cls, T.docs[d.cls] == 1)
    ensures UnlearnDoc(T, d).freq == Without(Reduced(T.freq, d.cls, |TokenSet(d)|), d.cls, T.docs[d.cls] == 1)
    ensures UnlearnDoc(T, d).results == UnlearnTokens(T.results, TokenSet(d), d.cls)
  {
  }

  lemma UnlearnDocFreq(T: Tables, d: Document, c: Class)
    requires Consistent(T) && CanUnlearn(T, d)
    ensures FreqAt(UnlearnDoc(T, d).docs, UnlearnDoc(T, d).freq, UnlearnDoc(T, d).results, c)
  {
    UnlearnDocParts(T, d);
    assert FreqAt(T.docs, T.freq, T.results, c);
    UnlearnedOccurrences(T.results, TokenSet(d), d.cls, c);
    FreqShrinks(T.docs, T.freq, Occurrences(UnlearnTokens(T.results, TokenSet(d), d.cls), c), c, d.cls, |TokenSet(d)|);
  }

  lemma UnlearnDocKeeps(T: Tables, d: Document)
    requires Consistent(T) && CanUnlearn(T, d)
    ensures Consistent(UnlearnDoc(T, d)) && UnlearnDoc(T, d).total == T.total
    ensures forall c :: Get(UnlearnDoc(T, d).docs, c) == Get(T.docs, c) - OfClass(c)(d)
  {
    forall c ensures FreqAt(UnlearnDoc(T, d).docs, UnlearnDoc(T, d).freq, UnlearnDoc(T, d).results, c) {
      UnlearnDocFreq(T, d, c);
    }
    UnlearnedNoZeros(T.results, TokenSet(d), d.cls);
  }

  // A batch.

  /** There are at least as many documents, and documents with each token, as in the batch. */
  ghost predicate Fits(T: Tables, B: multiset<Document>) {
    && (forall c :: DocCount(B, c) <= Get(T.docs, c))
    && (forall t, c :: TokenCount(B, t, c) <= Count(T.results, t, c))
  }

  /** T' is T with the documents B taken out of the counts. */
  ghost predicate TakenOut(T: Tables, T': Tables, B: multiset<Document>) {
    && T'.total == T.total
    && (forall c :: Get(T'.docs, c) == Get(T.docs, c) - DocCount(B, c))
    && (forall t, c :: Count(T'.results, t, c) == Count(T.results, t, c) - TokenCount(B, t, c))
  }

  lemma TakeOutOne(T: Tables, T1: Tables, B: multiset<Document>, d: Document)
    requires TakenOut(T, T1, B) && Consistent(T1) && CanUnlearn(T1, d)
    ensures TakenOut(T, UnlearnDoc(T1, d), B + multiset{d})
  {
    UnlearnDocKeeps(T1, d);
    var T2 := UnlearnDoc(T1, d);
    forall c ensures Get(T2.docs, c) == Get(T.docs, c) - DocCount(B + multiset{d}, c) {
      TotalAdd(B, d, OfClass(c));
    }
    forall t, c ensures Count(T2.results, t, c) == Count(T.results, t, c) - TokenCount(B + multiset{d}, t, c) {
      TotalAdd(B, d, OfToken(t, c));
      UnlearnedCount(T1.results, TokenSet(d), d.cls, t, c);
    }
  }

  lemma FitsLast(T: Tables, T1: Tables, B: multiset<Document>, d: Document)
    requires TakenOut(T, T1, B) && Consistent(T1) && Fits(T, B)
    ensures CanUnlearn(T1, d) <==> Fits(T, B + multiset{d})
  {
    GuardsAreCounts(T1, d);
    forall c ensures DocCount(B + multiset{d}, c) == DocCount(B, c) + OfClass(c)(d) {
      TotalAdd(B, d, OfClass(c));
    }
    forall t, c ensures TokenCount(B + multiset{d}, t, c) == TokenCount(B, t, c) + OfToken(t, c)(d) {
      TotalAdd(B, d, OfToken(t, c));
    }
    if Fits(T, B + multiset{d}) {
      forall t | t in TokenSet(d) ensures Count(T1.results, t, d.cls) > 0 {
        assert TokenCount(B + multiset{d}, t, d.cls) == TokenCount(B, t, d.cls) + 1;
      }
      assert DocCount(B + multiset{d}, d.cls) == DocCount(B, d.cls) + 1;
    }
  }

  lemma FitsFewer(T: Tables, B: multiset<Document>, d: Document)
    requires Fits(T, B + multiset{d})
    ensures Fits(T, B)
  {
    forall c ensures DocCount(B, c) <= Get(T.docs, c) {
      TotalAdd(B, d, OfClass(c));
      assert DocCount(B + multiset{d}, c) <= Get(T.docs, c);
    }
    forall t, c ensures TokenCount(B, t, c) <= Count(T.results, t, c) {
      TotalAdd(B, d, OfToken(t, c));
      assert TokenCount(B + multiset{d}, t, c) <= Count(T.results, t, c);
    }
  }

  /** A batch is unlearned exactly when its counts fit into those of the tables. */
  lemma {:induction false} UnlearnDocsExact(T: Tables, docs: seq<Document>)
    requires Consistent(T)
    ensures UnlearnDocs(T, docs).Some? <==> Fits(T, multiset(docs))
    ensures UnlearnDocs(T, docs).Some? ==>
              Consistent(UnlearnDocs(T, docs).value) && TakenOut(T, UnlearnDocs(T, docs).value, multiset(docs))
  {
    if docs == [] {
      EmptyFits(T);
    } else {
      var front, d := docs[..|docs| - 1], docs[|docs| - 1];
      MultisetSnoc(docs);
      UnlearnDocsExact(T, front);
      if UnlearnDocs(T, front).Some? {
        var T1 := UnlearnDocs(T, front).value;
        FitsLast(T, T1, multiset(front), d);
        if CanUnlearn(T1, d) {
          UnlearnDocKeeps(T1, d);
          TakeOutOne(T, T1, multiset(front), d);
        }
      } else if Fits(T, multiset(docs)) {
        FitsFewer(T, multiset(front), d);
      }
    }
  }

  lemma EmptyFits(T: Tables)
    requires Consistent(T)
    ensures Fits(T, multiset{}) && TakenOut(T, T, multiset{})
  {
    forall t, c ensures Count(T.results, t, c) >= 0 {
      CountPositive(T.results, t, c);
    }
  }

  lemma ConsistentWithLess(T: Tables, total: int)
    requires Consistent(T) && total <= T.total
    ensures Consistent(T.(total := total))
  {
  }

  /** Exactly when unlearn reports success. It never compares whole documents, so a batch that
      was not learned also passes when its counts fit. */
  lemma UnlearnSucceedsIff(T: Tables, docs: seq<Document>)
    requires Consistent(T)
    ensures Unlearn(T, docs).Some? <==> |docs| <= T.total && Fits(T, multiset(docs))
  {
    if |docs| <= T.total {
      ConsistentWithLess(T, T.total - |docs|);
      UnlearnDocsExact(T.(total := T.total - |docs|), docs);
      assert Fits(T.(total := T.total - |docs|), multiset(docs)) <==> Fits(T, multiset(docs));
    }
  }

  lemma LearnedFits(T: Tables, D: multiset<Document>, B: multiset<Document>)
    requires Describes(T, D) && B <= D
    ensures Fits(T, B)
  {
    forall c ensures DocCount(B, c) <= Get(T.docs, c) {
      TotalSplit(D, B, OfClass(c));
    }
    forall t, c ensures TokenCount(B, t, c) <= Count(T.results, t, c) {
      TotalSplit(D, B, OfToken(t, c));
    }
  }

  /** Unlearning learned documents never fails and leaves the tables of the others. */
  lemma UnlearnDescribes(T: Tables, D: multiset<Document>, docs: seq<Document>)
    requires Describes(T, D) && multiset(docs) <= D
    ensures Unlearn(T, docs).Some? && Describes(Unlearn(T, docs).value, D - multiset(docs))
  {
    var B := multiset(docs);
    SizeOfPart(D, B);
    var T0 := T.(total := T.total - |docs|);
    ConsistentWithLess(T, T0.total);
    LearnedFits(T, D, B);
    UnlearnDocsExact(T0, docs);
    assert Fits(T0, B);
    var T' := UnlearnDocs(T0, docs).value;
    forall c ensures Get(T'.docs, c) == DocCount(D - B, c) {
      TotalSplit(D, B, OfClass(c));
    }
    forall t, c ensures Count(T'.results, t, c) == TokenCount(D - B, t, c) {
      TotalSplit(D, B, OfToken(t, c));
    }
  }

  lemma SizeOfPart(D: multiset<Document>, B: multiset<Document>)
    requires B <= D
    ensures |D - B| == |D| - |B|
  {
    assert D == (D - B) + B;
  }
}
