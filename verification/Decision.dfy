/** Classifying a message. Logarithms are kept in product form: a posterior is a weight, minus
    infinity is weight zero, and the softmax of the logarithms normalises the weights. */
module Decision {
  import opened Sums
  import opened ClassifierTables
  import opened ClassifierMeaning
  import opened ClassifierUnlearning

  const SPAM: Class := "spam"

  function ValueIn(m: map<Class, real>): Class -> real {
    (c: Class) => if c in m then m[c] else 0.0
  }

  ghost function TotalOf(w: map<Class, real>): real {
    RealSum(w.Keys, ValueIn(w))
  }

  ghost predicate NonNegative(w: map<Class, real>) {
    forall c :: c in w ==> w[c] >= 0.0
  }

  /** Class c is heavier than every other class of w. */
  ghost predicate Heaviest(w: map<Class, real>, c: Class) {
    c in w && forall d :: d in w && d != c ==> w[d] < w[c]
  }

  // Arithmetic of the normalisation.

  lemma DivideKeepsOrder(a: real, b: real, s: real)
    requires s > 0.0
    ensures a / s < b / s <==> a < b
    ensures 0.0 / s == 0.0 && s / s == 1.0
  {
    assert (a / s) * s == a && (b / s) * s == b;
  }

  lemma DivideTwice(w: real, m: real, s: real)
    requires m > 0.0 && s > 0.0
    ensures s / m > 0.0 && (w / m) / (s / m) == w / s
  {
    DivideKeepsOrder(0.0, s, m);
    var q := w / s;
    assert q * s == w;
    assert q * (s / m) == w / m;
  }

  lemma AddQuotients(a: real, b: real, m: real)
    requires m > 0.0
    ensures a / m + b / m == (a + b) / m
  {
  }

  lemma {:induction false} SumNonNegative(s: set<Class>, w: map<Class, real>, c: Class)
    requires NonNegative(w) && s <= w.Keys
    ensures RealSum(s, ValueIn(w)) >= 0.0
    ensures c in s ==> RealSum(s, ValueIn(w)) >= w[c]
    decreases |s|
  {
    if s != {} {
      var d := if c in s then c else var x :| x in s; x;
      RealSumTake(s, d, ValueIn(w));
      SumNonNegative(s - {d}, w, c);
    }
  }

  lemma {:induction false} SumOfQuotients(s: set<Class>, p: map<Class, real>, w: map<Class, real>, total: real)
    requires total > 0.0 && s <= p.Keys && s <= w.Keys
    requires forall c :: c in s ==> p[c] == w[c] / total
    ensures RealSum(s, ValueIn(p)) == RealSum(s, ValueIn(w)) / total
    decreases |s|
  {
    if s != {} {
      var c :| c in s;
      SumOfQuotients(s - {c}, p, w, total);
      RealSumTake(s, c, ValueIn(p));
      RealSumTake(s, c, ValueIn(w));
      AddQuotients(w[c], RealSum(s - {c}, ValueIn(w)), total);
    }
  }

  /** p spreads probability over the classes in proportion to the weights w. */
  ghost predicate Proportional(p: map<Class, real>, w: map<Class, real>) {
    && p.Keys == w.Keys && TotalOf(w) > 0.0
    && forall c :: c in w ==> p[c] == w[c] / TotalOf(w)
  }

  ghost predicate Uniform(p: map<Class, real>, w: map<Class, real>) {
    p.Keys == w.Keys && forall c :: c in w ==> p[c] == 1.0 / |w| as real
  }

  /** Normalised weights are probabilities, and they keep the heaviest class. */
  lemma ProportionalIsDistribution(p: map<Class, real>, w: map<Class, real>)
    requires Proportional(p, w) && NonNegative(w)
    ensures TotalOf(p) == 1.0 && NonNegative(p)
    ensures forall c :: Heaviest(p, c) <==> Heaviest(w, c)
  {
    var total := TotalOf(w);
    SumOfQuotients(w.Keys, p, w, total);
    DivideKeepsOrder(0.0, total, total);
    forall c | c in p ensures p[c] >= 0.0 {
      DivideKeepsOrder(w[c], 0.0, total);
    }
    forall c, d | c in w && d in w ensures p[d] < p[c] <==> w[d] < w[c] {
      DivideKeepsOrder(w[d], w[c], total);
    }
  }

  // Softmax.

  method MaxWeight(w: map<Class, real>) returns (m: real)
    requires NonNegative(w)
    ensures m >= 0.0 && forall c :: c in w ==> w[c] <= m
    ensures m > 0.0 ==> exists c :: c in w && w[c] == m
  {
    m := 0.0;
    var left := w.Keys;
    while left != {}
      invariant left <= w.Keys && m >= 0.0
      invariant forall c :: c in w && c !in left ==> w[c] <= m
      invariant m > 0.0 ==> exists c :: c in w && w[c] == m
    {
      var c :| c in left;
      if w[c] > m {
        m := w[c];
      }
      left := left - {c};
    }
  }

  /** The scaled weights and their sum, accumulated in any order. */
  method Scale(w: map<Class, real>, m: real) returns (exps: map<Class, real>, sum: real)
    requires m > 0.0
    ensures exps.Keys == w.Keys && forall c :: c in w ==> exps[c] == w[c] / m
    ensures sum == TotalOf(exps)
  {
    exps, sum := map[], 0.0;
    var left := w.Keys;
    while left != {}
      invariant left <= w.Keys && exps.Keys == w.Keys - left
      invariant forall c :: c in exps ==> exps[c] == w[c] / m
      invariant sum == TotalOf(exps)
    {
      var c :| c in left;
      AddedTotal(exps, c, w[c] / m);
      exps := exps[c := w[c] / m];
      sum := sum + exps[c];
      left := left - {c};
    }
  }

  lemma {:induction false} SameTotal(s: set<Class>, v: map<Class, real>, w: map<Class, real>)
    requires forall c :: c in s ==> ValueIn(v)(c) == ValueIn(w)(c)
    ensures RealSum(s, ValueIn(v)) == RealSum(s, ValueIn(w))
    decreases |s|
  {
    if s != {} {
      var c :| c in s;
      SameTotal(s - {c}, v, w);
      RealSumTake(s, c, ValueIn(v));
      RealSumTake(s, c, ValueIn(w));
    }
  }

  lemma AddedTotal(w: map<Class, real>, c: Class, x: real)
    requires c !in w
    ensures TotalOf(w[c := x]) == TotalOf(w) + x
  {
    var w' := w[c := x];
    RealSumTake(w'.Keys, c, ValueIn(w'));
    assert w'.Keys - {c} == w.Keys;
    SameTotal(w.Keys, w, w');
  }

  method Divide(w: map<Class, real>, divisor: real) returns (p: map<Class, real>)
    requires divisor > 0.0
    ensures p.Keys == w.Keys && forall c :: c in w ==> p[c] == w[c] / divisor
  {
    p := map c | c in w :: w[c] / divisor;
  }

  /** Weight over total weight for every class, or all alike when every weight is zero. The
      largest scaled weight is one, so their sum is never zero. */
  method Softmax(w: map<Class, real>) returns (p: map<Class, real>)
    requires NonNegative(w)
    ensures w == map[] ==> p == map[]
    ensures w != map[] && (forall c :: c in w ==> w[c] == 0.0) ==> Uniform(p, w)
    ensures (exists c :: c in w && w[c] > 0.0) ==> Proportional(p, w)
  {
    if |w| == 0 {
      return map[];
    }
    var m := MaxWeight(w);
    if m == 0.0 {
      p := map c | c in w :: 1.0 / |w| as real;
      return;
    }
    ghost var top :| top in w && w[top] == m;
    var exps, sum := Scale(w, m);
    SumOfQuotients(w.Keys, exps, w, m);
    SumNonNegative(w.Keys, w, top);
    ghost var total := TotalOf(w);
    DivideTwice(m, m, total);
    p := Divide(exps, sum);
    forall c | c in w ensures p[c] == w[c] / total {
      DivideTwice(w[c], m, total);
    }
  }

  // The best class.

  /** The most probable class, whether it is the only one, and its probability. */
  method BestOf(p: map<Class, real>) returns (best: Class, highest: real, certain: bool)
    requires NonNegative(p) && (p == map[] || exists c :: c in p && p[c] > 0.0)
    ensures certain <==> exists c :: Heaviest(p, c)
    ensures certain ==> Heaviest(p, best)
    ensures p != map[] ==> best in p && p[best] == highest && forall c :: c in p ==> p[c] <= highest
    ensures p == map[] ==> best == "" && highest == 0.0
  {
    best, highest, certain := "", 0.0, false;
    var left := p.Keys;
    while left != {}
      invariant left <= p.Keys && highest >= 0.0
      invariant left == p.Keys ==> best == "" && highest == 0.0 && !certain
      invariant left != p.Keys ==> best in p && best !in left && p[best] == highest
      invariant forall c :: c in p && c !in left ==> p[c] <= highest
      invariant highest > 0.0 ==> (certain <==> forall c :: c in p && c !in left && c != best ==> p[c] < highest)
    {
      var c :| c in left;
      if highest == 0.0 || p[c] > highest {
        certain, best, highest := true, c, p[c];
      } else if p[c] == highest {
        certain := false;
      }
      left := left - {c};
    }
    if certain {
      assert Heaviest(p, best);
    }
  }

  // Weights.

  /** A quotient of counts. A zero denominator, whose logarithm is not a number that any weight
      has, is looked at apart. */
  function Ratio(n: int, d: int): (r: real)
    ensures n > 0 && d > 0 ==> r > 0.0
  {
    if d == 0 then 0.0
    else
      assert n > 0 && d > 0 ==> (n as real / d as real) * d as real == n as real;
      n as real / d as real
  }

  function FactorOf(T: Tables, c: Class): Token -> real {
    (t: Token) => Ratio(Count(T.results, t, c) + 1, Get(T.freq, c) + |T.results|)
  }

  function PriorOf(T: Tables, c: Class): real {
    if c in T.priors then Ratio(T.priors[c].docs, T.priors[c].total) else 1.0
  }

  /** The prior times one factor for each distinct token; a class without a frequency entry is
      left with its prior. */
  ghost function Weight(T: Tables, ts: set<Token>, c: Class): real {
    if c in T.freq then Product(PriorOf(T, c), ts, FactorOf(T, c)) else PriorOf(T, c)
  }

  ghost function Weights(T: Tables, ts: set<Token>): map<Class, real> {
    map c | c in T.priors :: Weight(T, ts, c)
  }

  /** What the tables keep up whatever calls fail: no count is negative, and entries of a class
      come in this order. */
  ghost predicate Sane(T: Tables) {
    && NoZeros(T.results) && T.total >= 0
    && T.freq.Keys <= T.docs.Keys <= T.priors.Keys
    && (forall c :: c in T.docs ==> T.docs[c] >= 0)
    && (forall c :: c in T.freq ==> T.freq[c] >= 0)
    && (forall c :: c in T.priors ==> T.priors[c].docs >= 0 && T.priors[c].total >= 0)
  }

  /** The classes with a zero denominator, whose logarithms add up to infinity or to no number. */
  function Unbounded(T: Tables, ts: set<Token>): set<Class> {
    set c | c in T.priors && (T.priors[c].total == 0 || (c in T.freq && ts != {} && T.freq[c] + |T.results| == 0))
  }

  /** No quotient has a zero denominator, whatever the message. */
  ghost predicate Divisible(T: Tables) {
    && (forall c :: c in T.priors ==> T.priors[c].total > 0)
    && (forall c :: c in T.freq ==> T.freq[c] + |T.results| > 0)
  }

  lemma DivisibleIsBounded(T: Tables)
    requires Sane(T)
    ensures Divisible(T) <==> forall ts :: Unbounded(T, ts) == {}
  {
    if Divisible(T) {
      forall ts ensures Unbounded(T, ts) == {} {
      }
    } else if c :| c in T.priors && T.priors[c].total <= 0 {
      assert c in Unbounded(T, {});
    } else {
      var c :| c in T.freq && T.freq[c] + |T.results| <= 0;
      assert c in Unbounded(T, {""});
    }
  }

  lemma FactorNonNegative(T: Tables, ts: set<Token>, c: Class, t: Token)
    requires Sane(T) && c in T.freq
    ensures FactorOf(T, c)(t) >= 0.0
    ensures t in ts && c !in Unbounded(T, ts) ==> FactorOf(T, c)(t) > 0.0
  {
    CountPositive(T.results, t, c);
    Denominator(T, ts, c, t);
    var n, d := Count(T.results, t, c) + 1, Get(T.freq, c) + |T.results|;
    RatioSign(n, d);
    FactorIs(T, c, t, n, d);
  }

  lemma RatioSign(n: int, d: int)
    requires n > 0 && d >= 0
    ensures Ratio(n, d) >= 0.0 && (d > 0 ==> Ratio(n, d) > 0.0)
  {
  }

  lemma FactorIs(T: Tables, c: Class, t: Token, n: int, d: int)
    requires n == Count(T.results, t, c) + 1 && d == Get(T.freq, c) + |T.results|
    ensures FactorOf(T, c)(t) == Ratio(n, d)
  {
  }

  lemma Denominator(T: Tables, ts: set<Token>, c: Class, t: Token)
    requires Sane(T) && c in T.freq
    ensures Get(T.freq, c) + |T.results| >= 0
    ensures t in ts && c !in Unbounded(T, ts) ==> Get(T.freq, c) + |T.results| > 0
  {
  }

  lemma RatioNonNegative(n: int, d: int)
    requires n >= 0 && d >= 0
    ensures Ratio(n, d) >= 0.0
  {
    if n == 0 && d > 0 {
      assert 0.0 / d as real == 0.0;
    }
  }

  lemma PriorNonNegative(T: Tables, c: Class)
    requires Sane(T) && c in T.priors
    ensures PriorOf(T, c) >= 0.0
    ensures T.priors[c].docs > 0 && T.priors[c].total > 0 ==> PriorOf(T, c) > 0.0
  {
    RatioNonNegative(T.priors[c].docs, T.priors[c].total);
  }

  /** No weight is negative, and those of classes with documents and no zero denominator are
      positive. */
  lemma WeightNonNegative(T: Tables, ts: set<Token>, c: Class)
    requires Sane(T) && c in T.priors
    ensures Weight(T, ts, c) >= 0.0
    ensures T.priors[c].docs > 0 && c !in Unbounded(T, ts) ==> Weight(T, ts, c) > 0.0
  {
    PriorNonNegative(T, c);
    if c in T.freq {
      forall t | t in ts
        ensures FactorOf(T, c)(t) >= 0.0 && (c !in Unbounded(T, ts) ==> FactorOf(T, c)(t) > 0.0)
      {
        FactorNonNegative(T, ts, c, t);
      }
      ProductNonNegative(PriorOf(T, c), ts, FactorOf(T, c));
    }
  }

  /** In consistent tables a denominator is zero exactly when the vocabulary is empty and yet some
      class has a frequency entry. */
  lemma DivisibleIff(T: Tables)
    requires Consistent(T) && T.total > 0
    ensures Divisible(T) <==> T.results.Keys != {} || T.freq.Keys == {}
  {
    forall c | c in T.freq ensures c in T.priors && T.freq[c] >= 0 && (T.results.Keys == {} ==> T.freq[c] == 0) {
      assert FreqAt(T.docs, T.freq, T.results, c);
      FrequencyNonNegative(T, c);
    }
    forall c | c in T.priors ensures T.priors[c].total > 0 {
      assert c in T.docs;
    }
    if T.results.Keys != {} {
      assert |T.results.Keys| > 0;
    }
  }

  lemma FrequencyNonNegative(T: Tables, c: Class)
    requires Consistent(T)
    ensures Get(T.freq, c) >= 0
  {
    assert FreqAt(T.docs, T.freq, T.results, c);
    OccurrencesNonNegative(T.results, c);
  }

  /** The answer for probabilities p: certain exactly when one class is the most probable, and
      then that class; otherwise one of the most probable. */
  ghost predicate Answers(p: map<Class, real>, best: Class, prob: real, certain: bool) {
    && (certain <==> exists c :: Heaviest(p, c))
    && (certain ==> Heaviest(p, best))
    && (p == map[] ==> best == "" && prob == 0.0)
    && (p != map[] ==> best in p && prob == p[best] * 100.0 && forall c :: c in p ==> p[c] <= p[best])
  }

  /** Weights and unbounded classes give even chances when there is an unbounded class or no
      class has any weight. */
  ghost predicate Even(w: map<Class, real>, unbounded: set<Class>) {
    w != map[] && (unbounded != {} || forall c :: c in w ==> w[c] == 0.0)
  }

  /** The probabilities: even chances, or each class's share of the total weight. */
  ghost predicate Shares(p: map<Class, real>, w: map<Class, real>, unbounded: set<Class>) {
    if w == map[] then p == map[]
    else if Even(w, unbounded) then Uniform(p, w)
    else Proportional(p, w)
  }

  lemma SharesUnique(p: map<Class, real>, q: map<Class, real>, w: map<Class, real>, unbounded: set<Class>)
    requires Shares(p, w, unbounded) && Shares(q, w, unbounded)
    ensures p == q
  {
  }

  /** Whatever order the maps are walked in, the answer depends only on the weights and the
      unbounded classes. */
  ghost predicate Decides(w: map<Class, real>, unbounded: set<Class>, best: Class, prob: real, certain: bool) {
    exists p :: Shares(p, w, unbounded) && Answers(p, best, prob, certain)
  }

  /** Two answers for the same weights can differ only in the class named when none is certain. */
  lemma DecisionUnique(w: map<Class, real>, unbounded: set<Class>,
                       a: Class, p: real, x: bool, b: Class, q: real, y: bool)
    requires Decides(w, unbounded, a, p, x) && Decides(w, unbounded, b, q, y)
    ensures x == y && p == q && (x ==> a == b)
  {
    var r :| Shares(r, w, unbounded) && Answers(r, a, p, x);
    var s :| Shares(s, w, unbounded) && Answers(s, b, q, y);
    SharesUnique(r, s, w, unbounded);
    if r != map[] {
      assert r[a] <= r[b] <= r[a];
    }
  }

  /** In terms of the weights: certain exactly when one class is heaviest, then that class, and
      its percentage is its share. With even chances a class is certain only when it is alone. */
  lemma DecisionMeans(w: map<Class, real>, unbounded: set<Class>, best: Class, prob: real, certain: bool)
    requires NonNegative(w) && Decides(w, unbounded, best, prob, certain)
    ensures Even(w, unbounded) ==> best in w && prob == 1.0 / |w| as real * 100.0 && (certain <==> w.Keys == {best})
    ensures w != map[] && !Even(w, unbounded) ==>
              && best in w && TotalOf(w) > 0.0 && prob == w[best] / TotalOf(w) * 100.0
              && (certain <==> exists c :: Heaviest(w, c)) && (certain ==> Heaviest(w, best))
    ensures w == map[] ==> best == "" && prob == 0.0 && !certain
  {
    var p :| Shares(p, w, unbounded) && Answers(p, best, prob, certain);
    if w != map[] {
      if Even(w, unbounded) {
        EvenMeans(p, w, best, certain);
      } else {
        ProportionalIsDistribution(p, w);
      }
    }
  }

  lemma EvenMeans(p: map<Class, real>, w: map<Class, real>, best: Class, certain: bool)
    requires Uniform(p, w) && best in w && (certain <==> exists c :: Heaviest(p, c)) && (certain ==> Heaviest(p, best))
    ensures certain <==> w.Keys == {best}
  {
    if certain {
      forall d | d in w.Keys ensures d == best {
        assert p[d] == p[best];
      }
    } else if w.Keys == {best} {
      assert Heaviest(p, best);
    }
  }

  /** Softmax over the logarithms of the weights, where some may have run into infinity: the sum
      is then not a number, and the chances are even. */
  method Probabilities(w: map<Class, real>, unbounded: set<Class>) returns (p: map<Class, real>)
    requires NonNegative(w)
    ensures Shares(p, w, unbounded)
  {
    if |w| > 0 && |unbounded| > 0 {
      p := map c | c in w :: 1.0 / |w| as real;
    } else {
      p := Softmax(w);
      assert w != map[] && !Even(w, unbounded) ==> exists c :: c in w && w[c] > 0.0;
    }
  }

  method Decide(w: map<Class, real>, unbounded: set<Class>) returns (best: Class, prob: real, certain: bool)
    requires NonNegative(w)
    ensures Decides(w, unbounded, best, prob, certain)
  {
    var p := Probabilities(w, unbounded);
    SharesPositive(p, w, unbounded);
    best, prob, certain := BestOf(p);
    prob := prob * 100.0;
    assert Answers(p, best, prob, certain);
  }

  lemma SharesPositive(p: map<Class, real>, w: map<Class, real>, unbounded: set<Class>)
    requires NonNegative(w) && Shares(p, w, unbounded)
    ensures NonNegative(p) && (p == map[] || exists c :: c in p && p[c] > 0.0)
  {
    if Even(w, unbounded) {
      var c :| c in w;
      assert |w| as real > 0.0 && p[c] > 0.0;
    } else if w != map[] {
      ProportionalIsDistribution(p, w);
      var c :| c in w && w[c] != 0.0;
      DivideKeepsOrder(0.0, w[c], TotalOf(w));
      assert c in p && p[c] > 0.0;
    }
  }

  /** The spam verdict: spam is the certain class and probable enough. */
  ghost predicate IsSpamBy(w: map<Class, real>, unbounded: set<Class>, minProbability: real) {
    exists prob :: Decides(w, unbounded, SPAM, prob, true) && (minProbability == 0.0 || prob >= minProbability)
  }
}
