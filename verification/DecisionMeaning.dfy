/** What classifying amounts to, said of the documents that were learned. */
module DecisionMeaning {
  import opened Sums
  import opened ClassifierTables
  import opened ClassifierMeaning
  import opened ClassifierUnlearning
  import opened ClassifierLaws
  import opened Decision

  lemma RatioTimes(n: int, d: int)
    requires d != 0
    ensures Ratio(n, d) * d as real == n as real
  {
  }

  lemma ClassKnown(T: Tables, D: multiset<Document>, c: Class)
    requires Describes(T, D)
    ensures c in T.docs <==> DocCount(D, c) > 0
    ensures c in T.priors <==> DocCount(D, c) > 0
    ensures |D| > 0 || DocCount(D, c) == 0
  {
    assert Get(T.docs, c) == DocCount(D, c);
    if |D| == 0 {
      assert D == multiset{};
    }
  }

  /** A fresh prior is the share that the class has of the documents. */
  lemma PriorMeans(T: Tables, D: multiset<Document>, c: Class)
    requires Describes(T, D) && Fresh(T) && DocCount(D, c) > 0
    ensures PriorOf(T, c) * |D| as real == DocCount(D, c) as real
  {
    ClassKnown(T, D, c);
    RatioTimes(DocCount(D, c), |D|);
  }

  /** The vocabulary is the set of tokens of the documents. */
  lemma VocabularyMeans(T: Tables, D: multiset<Document>, t: Token)
    requires Describes(T, D)
    ensures t in T.results <==> exists c :: TokenCount(D, t, c) > 0
  {
    if t in T.results {
      assert RowOk(T.results[t]);
      var c :| c in T.results[t];
      assert Count(T.results, t, c) == TokenCount(D, t, c);
    }
    if c :| TokenCount(D, t, c) > 0 {
      assert Count(T.results, t, c) == TokenCount(D, t, c);
    }
  }

  ghost function CountsIn(D: multiset<Document>, c: Class): Token -> int {
    (t: Token) => TokenCount(D, t, c)
  }

  function TokensOf(c: Class): Document -> nat {
    (d: Document) => if d.cls == c then |d.tokens| else 0
  }

  lemma {:induction false} SumOfCounts(vocabulary: set<Token>, D: multiset<Document>, c: Class)
    requires forall d :: d in D && d.cls == c ==> d.tokens <= vocabulary
    ensures Sum(vocabulary, CountsIn(D, c)) == Total(D, TokensOf(c))
    decreases |D|
  {
    if D == multiset{} {
      Sums.SumNonNegative(vocabulary, CountsIn(D, c));
    } else {
      var d :| d in D;
      var rest, own := D - multiset{d}, if d.cls == c then d.tokens else {};
      SumOfCounts(vocabulary, rest, c);
      TotalTake(D, d, TokensOf(c));
      forall t ensures CountsIn(D, c)(t) == CountsIn(rest, c)(t) + if t in own then 1 else 0 {
        TotalTake(D, d, OfToken(t, c));
      }
      SumShift(vocabulary, CountsIn(D, c), CountsIn(rest, c), own);
      assert vocabulary * own == own;
    }
  }

  lemma HeldToken(D: multiset<Document>, d: Document, t: Token)
    requires d in D && t in d.tokens
    ensures TokenCount(D, t, d.cls) > 0
  {
    TotalTake(D, d, OfToken(t, d.cls));
  }

  /** The token frequency of a class is the number of tokens in its documents. */
  lemma FrequencyMeans(T: Tables, D: multiset<Document>, c: Class)
    requires Describes(T, D)
    ensures Get(T.freq, c) == Total(D, TokensOf(c))
  {
    forall d | d in D && d.cls == c ensures d.tokens <= T.results.Keys {
      forall t | t in d.tokens ensures t in T.results.Keys {
        HeldToken(D, d, t);
        VocabularyMeans(T, D, t);
      }
    }
    SumOfCounts(T.results.Keys, D, c);
    SumSame(T.results.Keys, CountsOf(T.results, c), CountsIn(D, c));
    assert FreqAt(T.docs, T.freq, T.results, c);
    if c !in T.docs {
      DescribedCountable(T, D);
      OccurrencesNonNegative(T.results, c);
      assert forall t :: t in T.results ==> Count(T.results, t, c) >= 0;
    }
  }

  /** The factor of a token: one more than the documents of the class that hold it, over the tokens
      of the class and the vocabulary. */
  lemma FactorMeans(T: Tables, D: multiset<Document>, c: Class, t: Token, n: int, d: int)
    requires Describes(T, D) && n == TokenCount(D, t, c) + 1 && d == Get(T.freq, c) + |T.results| && d != 0
    ensures FactorOf(T, c)(t) * d as real == n as real
  {
    CountIs(T, D, t, c);
    FactorTimes(T, c, t, n, d);
  }

  lemma CountIs(T: Tables, D: multiset<Document>, t: Token, c: Class)
    requires Describes(T, D)
    ensures Count(T.results, t, c) == TokenCount(D, t, c)
  {
  }

  lemma FactorTimes(T: Tables, c: Class, t: Token, n: int, d: int)
    requires n == Count(T.results, t, c) + 1 && d == Get(T.freq, c) + |T.results| && d != 0
    ensures FactorOf(T, c)(t) * d as real == n as real
  {
    FactorIs(T, c, t, n, d);
    RatioTimes(n, d);
  }

  lemma ProductNone(start: real, f: Token -> real)
    ensures Product(start, {}, f) == start
  {
  }

  lemma WeightIsPrior(T: Tables, c: Class)
    ensures Weight(T, {}, c) == PriorOf(T, c)
  {
    ProductNone(PriorOf(T, c), FactorOf(T, c));
  }

  lemma WeightTimes(T: Tables, ts: set<Token>, c: Class, t: Token)
    requires t !in ts && c in T.freq
    ensures Weight(T, ts + {t}, c) == Times(Weight(T, ts, c), FactorOf(T, c)(t))
  {
    ProductAdd(PriorOf(T, c), ts, t, FactorOf(T, c));
  }

  lemma ScaleBoth(before: real, factor: real, after: real, n: real, d: real)
    requires after == Times(before, factor) && factor * d == n
    ensures after * d == before * n
  {
    assert before * factor * d == before * (factor * d);
  }

  /** Without tokens the weight of a class is its share of the documents. */
  lemma WeightOfNothing(T: Tables, D: multiset<Document>, c: Class)
    requires Describes(T, D) && Fresh(T) && DocCount(D, c) > 0
    ensures Weight(T, {}, c) * |D| as real == DocCount(D, c) as real
  {
    WeightIsPrior(T, c);
    PriorMeans(T, D, c);
  }

  lemma WeightRatio(T: Tables, ts: set<Token>, c: Class, t: Token, n: int, d: int)
    requires t !in ts && c in T.freq
    requires n == Count(T.results, t, c) + 1 && d == Get(T.freq, c) + |T.results|
    ensures Weight(T, ts + {t}, c) == Times(Weight(T, ts, c), Ratio(n, d))
  {
    FactorIs(T, c, t, n, d);
    WeightTimes(T, ts, c, t);
  }

  lemma RatioScales(before: real, after: real, n: int, d: int)
    requires after == Times(before, Ratio(n, d)) && d != 0
    ensures after * d as real == before * n as real
  {
    RatioTimes(n, d);
    ScaleBoth(before, Ratio(n, d), after, n as real, d as real);
  }

  /** Each token multiplies the weight by its factor; a class without a frequency entry is left with
      its share of the documents. */
  lemma WeightMeans(T: Tables, D: multiset<Document>, ts: set<Token>, c: Class, t: Token, before: real, after: real,
                    n: int, d: int)
    requires Describes(T, D) && t !in ts && before == Weight(T, ts, c) && after == Weight(T, ts + {t}, c)
    requires n == TokenCount(D, t, c) + 1 && d == Get(T.freq, c) + |T.results|
    ensures c !in T.freq ==> before == Weight(T, {}, c)
    ensures c in T.freq && d != 0 ==> after * d as real == before * n as real
  {
    CountIs(T, D, t, c);
    if c in T.freq && d != 0 {
      WeightRatio(T, ts, c, t, n, d);
      RatioScales(before, after, n, d);
    }
  }

  // Messages without tokens.

  /** The class has more documents than any other. */
  ghost predicate MostDocuments(D: multiset<Document>, c: Class) {
    DocCount(D, c) > 0 && forall d :: d != c ==> DocCount(D, d) < DocCount(D, c)
  }

  lemma RatioCompares(x: int, y: int, n: int)
    requires n > 0
    ensures Ratio(x, n) < Ratio(y, n) <==> x < y
    ensures Ratio(x, n) > 0.0 <==> x > 0
  {
    DivideKeepsOrder(x as real, y as real, n as real);
    DivideKeepsOrder(0.0, x as real, n as real);
  }

  lemma PriorRatio(T: Tables, D: multiset<Document>, c: Class)
    requires Describes(T, D) && Fresh(T) && DocCount(D, c) > 0
    ensures Weight(T, {}, c) == Ratio(DocCount(D, c), |D|)
  {
    WeightIsPrior(T, c);
    ClassKnown(T, D, c);
  }

  /** Each weight is the class's number of documents over a common number. */
  ghost predicate Parts(w: map<Class, real>, D: multiset<Document>, n: int) {
    forall c :: PartOf(w, D, n, c)
  }

  ghost predicate PartOf(w: map<Class, real>, D: multiset<Document>, n: int, c: Class) {
    && (c in w <==> DocCount(D, c) > 0)
    && (c in w ==> w[c] == Ratio(DocCount(D, c), n))
  }

  lemma PartsHeaviest(w: map<Class, real>, D: multiset<Document>, n: int, c: Class)
    requires Parts(w, D, n) && n > 0
    ensures Heaviest(w, c) <==> MostDocuments(D, c)
    ensures c in w ==> w[c] > 0.0
  {
    assert PartOf(w, D, n, c);
    RatioCompares(DocCount(D, c), DocCount(D, c), n);
    forall d | c in w && d != c ensures (d in w ==> w[d] < w[c]) <==> DocCount(D, d) < DocCount(D, c) {
      assert PartOf(w, D, n, d);
      RatioCompares(DocCount(D, d), DocCount(D, c), n);
    }
  }

  lemma PriorParts(T: Tables, D: multiset<Document>)
    requires Describes(T, D) && Fresh(T)
    ensures Parts(Weights(T, {}), D, |D|)
  {
    var w := Weights(T, {});
    forall c ensures PartOf(w, D, |D|, c) {
      ClassKnown(T, D, c);
      if DocCount(D, c) > 0 {
        PriorRatio(T, D, c);
      }
    }
  }

  lemma PriorWeights(T: Tables, D: multiset<Document>)
    requires Describes(T, D) && Fresh(T) && |D| > 0
    ensures NonNegative(Weights(T, {})) && forall c :: Heaviest(Weights(T, {}), c) <==> MostDocuments(D, c)
    ensures Unbounded(T, {}) == {} && Weights(T, {}) != map[] && !Even(Weights(T, {}), {})
  {
    var w := Weights(T, {});
    PriorParts(T, D);
    forall c ensures (Heaviest(w, c) <==> MostDocuments(D, c)) && (c in w ==> w[c] > 0.0) {
      PartsHeaviest(w, D, |D|, c);
    }
    SomeClass(D);
    var c :| DocCount(D, c) > 0;
    assert PartOf(w, D, |D|, c);
  }

  lemma SomeClass(D: multiset<Document>)
    requires |D| > 0
    ensures exists c :: DocCount(D, c) > 0
  {
    var d :| d in D;
    ClassOccurs(D, d);
  }

  /** A message without tokens goes to the class with the most documents, if there is one. */
  lemma NothingToGoBy(T: Tables, D: multiset<Document>, best: Class, prob: real, certain: bool)
    requires Describes(T, D) && Fresh(T) && |D| > 0
    requires Decides(Weights(T, {}), Unbounded(T, {}), best, prob, certain)
    ensures certain <==> exists c :: MostDocuments(D, c)
    ensures certain ==> MostDocuments(D, best)
  {
    PriorWeights(T, D);
    MostFromWeights(D, Weights(T, {}), best, prob, certain);
  }

  lemma MostFromWeights(D: multiset<Document>, w: map<Class, real>, best: Class, prob: real, certain: bool)
    requires NonNegative(w) && w != map[] && !Even(w, {}) && Decides(w, {}, best, prob, certain)
    requires forall c :: Heaviest(w, c) <==> MostDocuments(D, c)
    ensures certain <==> exists c :: MostDocuments(D, c)
    ensures certain ==> MostDocuments(D, best)
  {
    DecisionMeans(w, {}, best, prob, certain);
    if c :| MostDocuments(D, c) {
      assert Heaviest(w, c);
    }
    if c :| Heaviest(w, c) {
      assert MostDocuments(D, c);
    }
  }

  // The spam verdict.

  lemma SharesExist(w: map<Class, real>, unbounded: set<Class>) returns (p: map<Class, real>)
    requires NonNegative(w)
    ensures Shares(p, w, unbounded)
  {
    if w == map[] {
      p := map[];
    } else if Even(w, unbounded) {
      p := map c | c in w :: 1.0 / |w| as real;
    } else {
      var c :| c in w && w[c] != 0.0;
      Decision.SumNonNegative(w.Keys, w, c);
      p := map c | c in w :: w[c] / TotalOf(w);
    }
  }

  /** Spam, exactly when its weight is above that of every other class and its share of all weights
      reaches the minimum; with even chances, when there is no other class. */
  lemma SpamMeans(w: map<Class, real>, unbounded: set<Class>, minProbability: real)
    requires NonNegative(w)
    ensures IsSpamBy(w, unbounded, minProbability)
       <==> && "spam" in w
            && if unbounded != {} || forall c :: c in w ==> w[c] == 0.0
               then w.Keys == {"spam"} && (minProbability == 0.0 || 100.0 >= minProbability)
               else (forall c :: c in w && c != "spam" ==> w[c] < w["spam"])
                    && TotalOf(w) > 0.0
                    && (minProbability == 0.0 || w["spam"] / TotalOf(w) * 100.0 >= minProbability)
  {
    var p := SharesExist(w, unbounded);
    if "spam" in w {
      if Even(w, unbounded) {
        SpamAlone(p, w, unbounded, minProbability);
      } else {
        SpamHeaviest(p, w, unbounded, minProbability);
      }
    }
  }

  lemma SpamAlone(p: map<Class, real>, w: map<Class, real>, unbounded: set<Class>, minProbability: real)
    requires NonNegative(w) && "spam" in w && Even(w, unbounded) && Shares(p, w, unbounded)
    ensures IsSpamBy(w, unbounded, minProbability)
       <==> w.Keys == {"spam"} && (minProbability == 0.0 || 100.0 >= minProbability)
  {
    if w.Keys == {"spam"} {
      assert |w| == |w.Keys| == 1;
      assert p["spam"] == 1.0 && Heaviest(p, "spam");
      assert Answers(p, "spam", 100.0, true);
      assert Decides(w, unbounded, SPAM, 100.0, true);
    }
    if prob :| Decides(w, unbounded, SPAM, prob, true) && (minProbability == 0.0 || prob >= minProbability) {
      DecisionMeans(w, unbounded, SPAM, prob, true);
      assert |w| == |w.Keys| == 1;
    }
  }

  lemma SpamHeaviest(p: map<Class, real>, w: map<Class, real>, unbounded: set<Class>, minProbability: real)
    requires NonNegative(w) && "spam" in w && !Even(w, unbounded) && Shares(p, w, unbounded)
    ensures IsSpamBy(w, unbounded, minProbability)
       <==> Heaviest(w, "spam") && TotalOf(w) > 0.0
            && (minProbability == 0.0 || w["spam"] / TotalOf(w) * 100.0 >= minProbability)
  {
    ProportionalIsDistribution(p, w);
    if Heaviest(w, "spam") {
      assert Heaviest(p, "spam");
      assert Answers(p, "spam", p["spam"] * 100.0, true);
      assert Decides(w, unbounded, SPAM, p["spam"] * 100.0, true);
    }
    if prob :| Decides(w, unbounded, SPAM, prob, true) && (minProbability == 0.0 || prob >= minProbability) {
      DecisionMeans(w, unbounded, SPAM, prob, true);
    }
  }
}
