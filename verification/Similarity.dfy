/** The similarity check. The cosine of two token maps is kept exactly, as the dot product and
    the two squared norms; comparisons are made on squares instead of roots. */
module Similarity {
  import opened Sums

  type Token = string
  type TokenMap = map<Token, int>

  /** Token maps count occurrences, so every stored frequency is positive. */
  ghost predicate Frequencies(m: TokenMap) {
    forall t :: t in m ==> m[t] > 0
  }

  function At(m: TokenMap, t: Token): int {
    if t in m then m[t] else 0
  }

  function Products(a: TokenMap, b: TokenMap): Token -> int {
    (t: Token) => IntTimes(At(a, t), At(b, t))
  }

  /** The inner product over the tokens of a, as the program sums it. */
  ghost function Dot(a: TokenMap, b: TokenMap): int {
    Sum(a.Keys, Products(a, b))
  }

  ghost function NormSquared(a: TokenMap): int {
    Dot(a, a)
  }

  /** dot over the root of normA times normB; a zero norm stands for the similarity 0. */
  datatype Cosine = Cosine(dot: int, normA: int, normB: int)

  const NO_COSINE := Cosine(0, 1, 1)

  /** The cosine reaches a positive threshold. */
  predicate AtLeast(c: Cosine, threshold: real) {
    c.dot >= 0 && Reaches(c.dot * c.dot, Times(threshold, threshold), c.normA * c.normB)
  }

  predicate Reaches(dotSquared: int, thresholdSquared: real, norms: int) {
    dotSquared as real >= Times(thresholdSquared, norms as real)
  }

  ghost function CosineOf(a: TokenMap, b: TokenMap): Cosine {
    if a == map[] || b == map[] || NormSquared(a) == 0 || NormSquared(b) == 0 then NO_COSINE
    else Cosine(Dot(a, b), NormSquared(a), NormSquared(b))
  }

  // The computation.

  method SumProducts(a: TokenMap, b: TokenMap) returns (dot: int)
    ensures dot == Dot(a, b)
  {
    dot := 0;
    ghost var done: set<Token> := {};
    var left := a.Keys;
    while left != {}
      invariant done !! left && done + left == a.Keys && dot == Sum(done, Products(a, b))
    {
      var t :| t in left;
      SumAdd(done, t, Products(a, b));
      dot := dot + Products(a, b)(t);
      left, done := left - {t}, done + {t};
    }
    assert done == a.Keys;
  }

  method CosineSimilarity(a: TokenMap, b: TokenMap) returns (c: Cosine)
    ensures c == CosineOf(a, b)
    ensures a == map[] || b == map[] ==> c.dot == 0
    ensures a != map[] && b != map[] && Frequencies(a) && Frequencies(b) ==>
              c == Cosine(Dot(a, b), Dot(a, a), Dot(b, b)) && c.normA > 0 && c.normB > 0
  {
    if a != map[] && b != map[] && Frequencies(a) && Frequencies(b) {
      NormPositive(a);
      NormPositive(b);
    }
    if |a| == 0 || |b| == 0 {
      return NO_COSINE;
    }
    var dot := SumProducts(a, b);
    var normA := SumProducts(a, a);
    var normB := SumProducts(b, b);
    if normA == 0 || normB == 0 {
      return NO_COSINE;
    }
    c := Cosine(dot, normA, normB);
  }

  lemma SquarePositive(x: int)
    ensures x * x >= 0 && (x * x == 0 <==> x == 0)
  {
  }

  /** For frequency maps the guard against a zero norm never fires. */
  lemma NormPositive(a: TokenMap)
    requires Frequencies(a) && a != map[]
    ensures NormSquared(a) > 0
  {
    forall t | t in a.Keys ensures Products(a, a)(t) > 0 {
      SquarePositive(a[t]);
    }
    SumNonNegative(a.Keys, Products(a, a));
    var t :| t in a;
    assert Products(a, a)(t) > 0;
  }

  // Over a common set of tokens.

  lemma DotOver(a: TokenMap, b: TokenMap, s: set<Token>)
    requires a.Keys <= s
    ensures Sum(s, Products(a, b)) == Dot(a, b)
  {
    SumWiden(a.Keys, s, Products(a, b));
  }

  lemma DotSymmetric(a: TokenMap, b: TokenMap)
    ensures Dot(a, b) == Dot(b, a)
  {
    var s := a.Keys + b.Keys;
    DotOver(a, b, s);
    DotOver(b, a, s);
    SumSame(s, Products(a, b), Products(b, a));
  }

  /** The square of x*a - y*b at one token. */
  function Residue(a: TokenMap, b: TokenMap, x: int, y: int): Token -> int {
    (t: Token) => IntTimes(x * At(a, t) - y * At(b, t), x * At(a, t) - y * At(b, t))
  }

  /** x*x*A - 2*x*y*B + y*y*C, for given squares and product. */
  function Combine(x2: int, xy: int, y2: int, A: int, B: int, C: int): int {
    IntTimes(x2, A) - 2 * IntTimes(xy, B) + IntTimes(y2, C)
  }

  lemma Expand(p: int, q: int, x: int, y: int)
    ensures IntTimes(x * p - y * q, x * p - y * q)
         == Combine(x * x, x * y, y * y, IntTimes(p, p), IntTimes(p, q), IntTimes(q, q))
  {
    calc {
      (x * p - y * q) * (x * p - y * q);
    ==
      x * p * (x * p) - 2 * (x * p * (y * q)) + y * q * (y * q);
    ==
      x * x * (p * p) - 2 * (x * y * (p * q)) + y * y * (q * q);
    }
  }

  lemma ResidueAt(a: TokenMap, b: TokenMap, x: int, y: int, t: Token)
    ensures Residue(a, b, x, y)(t)
         == Combine(x * x, x * y, y * y, Products(a, a)(t), Products(a, b)(t), Products(b, b)(t))
  {
    Expand(At(a, t), At(b, t), x, y);
  }

  lemma ResidueSum(s: set<Token>, a: TokenMap, b: TokenMap, x: int, y: int)
    ensures Sum(s, Residue(a, b, x, y)) == Combine(x * x, x * y, y * y,
              Sum(s, Products(a, a)), Sum(s, Products(a, b)), Sum(s, Products(b, b)))
  {
    var f, g, h := Scaled(x * x, Products(a, a)), Scaled(x * y, Products(a, b)), Scaled(y * y, Products(b, b));
    forall t ensures Residue(a, b, x, y)(t) == f(t) - 2 * g(t) + h(t) {
      ResidueAt(a, b, x, y, t);
    }
    SumMixed(s, Residue(a, b, x, y), f, g, h);
    SumScaled(s, x * x, Products(a, a));
    SumScaled(s, x * y, Products(a, b));
    SumScaled(s, y * y, Products(b, b));
  }

  /** The residue of the projection of a on b, scaled to stay an integer. */
  lemma Projection(a: TokenMap, b: TokenMap)
    ensures var n, d := NormSquared(b), Dot(a, b);
            Sum(a.Keys + b.Keys, Residue(a, b, n, d)) == n * (NormSquared(a) * n - d * d)
  {
    var s := a.Keys + b.Keys;
    var n, d := NormSquared(b), Dot(a, b);
    ResidueSum(s, a, b, n, d);
    DotOver(a, a, s);
    DotOver(a, b, s);
    DotOver(b, b, s);
    Collect(n, d, NormSquared(a));
  }

  lemma Collect(n: int, d: int, m: int)
    ensures Combine(n * n, n * d, d * d, m, d, n) == n * (m * n - d * d)
  {
    calc {
      n * n * m - 2 * (n * d * d) + d * d * n;
    ==
      n * (n * m) - 2 * (n * (d * d)) + n * (d * d);
    ==
      n * (m * n) - n * (d * d);
    ==
      n * (m * n - d * d);
    }
  }

  lemma SignOfFactor(n: int, k: int)
    requires n > 0
    ensures n * k >= 0 <==> k >= 0
    ensures n * k == 0 <==> k == 0
  {
  }

  // The laws.

  /** p times a is q times b. */
  ghost predicate Matches(a: TokenMap, b: TokenMap, p: int, q: int) {
    forall t :: IntTimes(p, At(a, t)) == IntTimes(q, At(b, t))
  }

  /** Maps with the same tokens in the same proportions. */
  ghost predicate Proportional(a: TokenMap, b: TokenMap) {
    exists p, q :: p > 0 && q > 0 && Matches(a, b, p, q)
  }

  /** What the square of the projection measures. */
  ghost predicate Aligned(a: TokenMap, b: TokenMap) {
    Matches(a, b, NormSquared(b), Dot(a, b))
  }

  lemma ScaledDot(a: TokenMap, b: TokenMap, p: int, q: int)
    requires Matches(a, b, p, q)
    ensures IntTimes(p, Dot(a, b)) == IntTimes(q, NormSquared(b))
  {
    var s := a.Keys + b.Keys;
    forall t ensures Scaled(p, Products(a, b))(t) == Scaled(q, Products(b, b))(t) {
      Shift(p, At(a, t), q, At(b, t));
    }
    SumSame(s, Scaled(p, Products(a, b)), Scaled(q, Products(b, b)));
    SumScaled(s, p, Products(a, b));
    SumScaled(s, q, Products(b, b));
    DotOver(a, b, s);
    DotOver(b, b, s);
  }

  lemma Shift(p: int, x: int, q: int, y: int)
    requires IntTimes(p, x) == IntTimes(q, y)
    ensures IntTimes(p, IntTimes(x, y)) == IntTimes(q, IntTimes(y, y))
  {
    calc {
      p * (x * y);
    ==
      p * x * y;
    ==
      q * y * y;
    ==
      q * (y * y);
    }
  }

  /** From p*x == q*y and p*d == q*n follows n*x == d*y. */
  lemma Cancel(p: int, q: int, x: int, y: int, d: int, n: int)
    requires p > 0 && IntTimes(p, x) == IntTimes(q, y) && IntTimes(p, d) == IntTimes(q, n)
    ensures IntTimes(n, x) == IntTimes(d, y)
  {
    calc {
      p * (n * x);
    ==
      n * (p * x);
    ==
      n * (q * y);
    ==
      q * n * y;
    ==
      p * d * y;
    ==
      p * (d * y);
    }
    SignOfFactor(p, n * x - d * y);
  }

  /** The dot product is zero exactly when no token is shared. */
  lemma ZeroIffDisjoint(a: TokenMap, b: TokenMap)
    requires Frequencies(a) && Frequencies(b)
    ensures Dot(a, b) >= 0
    ensures Dot(a, b) == 0 <==> a.Keys !! b.Keys
  {
    var f := Products(a, b);
    forall t | t in a.Keys ensures f(t) >= 0 && (f(t) == 0 <==> t !in b) {
      if t in b {
        PositiveTimes(a[t], b[t]);
      }
    }
    SumNonNegative(a.Keys, f);
  }

  lemma PositiveTimes(x: int, y: int)
    requires x > 0 && y > 0
    ensures x * y > 0
  {
  }

  lemma AlignedIffProportional(a: TokenMap, b: TokenMap)
    requires Frequencies(a) && Frequencies(b) && a != map[] && b != map[]
    ensures Aligned(a, b) <==> Proportional(a, b)
  {
    NormPositive(b);
    ZeroIffDisjoint(a, b);
    if Aligned(a, b) {
      var t :| t in a;
      PositiveTimes(NormSquared(b), a[t]);
      assert IntTimes(NormSquared(b), At(a, t)) == IntTimes(Dot(a, b), At(b, t));
      assert Dot(a, b) != 0;
    }
    if p, q :| p > 0 && q > 0 && Matches(a, b, p, q) {
      ScaledDot(a, b, p, q);
      forall t ensures IntTimes(NormSquared(b), At(a, t)) == IntTimes(Dot(a, b), At(b, t)) {
        Cancel(p, q, At(a, t), At(b, t), Dot(a, b), NormSquared(b));
      }
    }
  }

  /** The Cauchy-Schwarz inequality, and when it is an equality. */
  lemma CauchySchwarz(a: TokenMap, b: TokenMap)
    requires Frequencies(a) && Frequencies(b) && b != map[]
    ensures Dot(a, b) * Dot(a, b) <= NormSquared(a) * NormSquared(b)
    ensures Dot(a, b) * Dot(a, b) == NormSquared(a) * NormSquared(b) <==> a == map[] || Proportional(a, b)
  {
    SquaresAligned(a, b);
    if a == map[] {
      forall t ensures IntTimes(NormSquared(b), At(a, t)) == IntTimes(Dot(a, b), At(b, t)) {
        assert Dot(a, b) == 0 && At(a, t) == 0;
      }
    } else {
      AlignedIffProportional(a, b);
    }
  }

  lemma SquaresAligned(a: TokenMap, b: TokenMap)
    requires Frequencies(a) && Frequencies(b) && b != map[]
    ensures Dot(a, b) * Dot(a, b) <= NormSquared(a) * NormSquared(b)
    ensures Dot(a, b) * Dot(a, b) == NormSquared(a) * NormSquared(b) <==> Aligned(a, b)
  {
    var s := a.Keys + b.Keys;
    var n, d := NormSquared(b), Dot(a, b);
    NormPositive(b);
    Projection(a, b);
    ResiduesVanish(a, b, n, d);
    SumNonNegative(s, Residue(a, b, n, d));
    SignOfFactor(n, NormSquared(a) * n - d * d);
  }

  lemma ResiduesVanish(a: TokenMap, b: TokenMap, n: int, d: int)
    ensures forall t :: t in a.Keys + b.Keys ==> Residue(a, b, n, d)(t) >= 0
    ensures (forall t :: t in a.Keys + b.Keys ==> Residue(a, b, n, d)(t) == 0)
       <==> forall t :: IntTimes(n, At(a, t)) == IntTimes(d, At(b, t))
  {
    var s, res := a.Keys + b.Keys, Residue(a, b, n, d);
    forall t ensures res(t) >= 0 && (res(t) == 0 <==> IntTimes(n, At(a, t)) == IntTimes(d, At(b, t))) {
      SquarePositive(n * At(a, t) - d * At(b, t));
    }
    if forall t :: t in s ==> res(t) == 0 {
      forall t ensures IntTimes(n, At(a, t)) == IntTimes(d, At(b, t)) {
        assert t !in s ==> At(a, t) == 0 && At(b, t) == 0;
        assert t in s ==> res(t) == 0;
      }
    }
  }

  /** The exact similarity lies between 0 and 1, is the same both ways round, is 0 exactly when
      no token is shared, and is 1 exactly for proportional maps. */
  lemma CosineLaws(a: TokenMap, b: TokenMap)
    requires Frequencies(a) && Frequencies(b) && a != map[] && b != map[]
    ensures var c := CosineOf(a, b);
            && c.normA > 0 && c.normB > 0 && 0 <= c.dot && c.dot * c.dot <= c.normA * c.normB
            && (c.dot == 0 <==> a.Keys !! b.Keys)
            && (c.dot * c.dot == c.normA * c.normB <==> Proportional(a, b))
            && CosineOf(b, a) == Cosine(c.dot, c.normB, c.normA)
  {
    NormPositive(a);
    NormPositive(b);
    ZeroIffDisjoint(a, b);
    CauchySchwarz(a, b);
    DotSymmetric(a, b);
  }

  // The scan over known spam.

  /** Reports similarity as soon as one sample reaches the threshold. */
  method IsSpamSimilarityHigh(message: TokenMap, samples: seq<TokenMap>, threshold: real) returns (spam: bool)
    requires threshold > 0.0
    ensures spam <==> exists m :: m in samples && AtLeast(CosineOf(message, m), threshold)
  {
    for i := 0 to |samples|
      invariant forall j :: 0 <= j < i ==> !AtLeast(CosineOf(message, samples[j]), threshold)
    {
      var c := CosineSimilarity(message, samples[i]);
      if AtLeast(c, threshold) {
        assert samples[i] in samples;
        return true;
      }
    }
    return false;
  }

  /** A message made of the same words as a sample, in whatever multiple, reaches every
      threshold up to 1; one that shares no word reaches no positive threshold. */
  lemma ThresholdExtremes(a: TokenMap, b: TokenMap, threshold: real)
    requires Frequencies(a) && Frequencies(b) && a != map[] && b != map[] && 0.0 < threshold <= 1.0
    ensures Proportional(a, b) ==> AtLeast(CosineOf(a, b), threshold)
    ensures a.Keys !! b.Keys ==> !AtLeast(CosineOf(a, b), threshold)
  {
    CosineLaws(a, b);
    var c := CosineOf(a, b);
    PositiveTimes(c.normA, c.normB);
    AtMost(threshold, threshold);
    ReachesExtremes(c.dot * c.dot, Times(threshold, threshold), c.normA * c.normB);
  }

  /** What the test means: s is the cosine, dot over the root of both norms, and it reaches the
      threshold. */
  lemma AtLeastIff(c: Cosine, s: real, threshold: real)
    requires c.normA > 0 && c.normB > 0 && threshold > 0.0
    requires s * s * (c.normA * c.normB) as real == (c.dot * c.dot) as real && (s >= 0.0 <==> c.dot >= 0)
    ensures AtLeast(c, threshold) <==> s >= threshold
  {
    PositiveTimes(c.normA, c.normB);
    if c.dot >= 0 {
      SquaresCompare(s, threshold, (c.normA * c.normB) as real);
    }
  }

  lemma ScaleCompares(x: real, y: real, n: real)
    requires n > 0.0
    ensures x * n >= y * n <==> x >= y
  {
    assert x * n - y * n == (x - y) * n;
  }

  lemma SquaresCompare(s: real, t: real, n: real)
    requires s >= 0.0 && t > 0.0 && n > 0.0
    ensures s * s * n >= Times(Times(t, t), n) <==> s >= t
  {
    ScaleCompares(s * s, t * t, n);
    assert s * s - t * t == (s - t) * (s + t);
    ScaleCompares(s, t, s + t);
  }

  /** A further token adds the product of its two frequencies to the dot product. */
  lemma DotGrows(a: TokenMap, b: TokenMap, t: Token, n: int)
    requires t !in a
    ensures Dot(map[], b) == 0
    ensures Dot(a[t := n], b) == Dot(a, b) + n * (if t in b then b[t] else 0)
  {
    var a' := a[t := n];
    assert a'.Keys == a.Keys + {t};
    SumAdd(a.Keys, t, Products(a', b));
    SumSame(a.Keys, Products(a', b), Products(a, b));
  }

  lemma AtMost(t: real, n: real)
    requires 0.0 < t <= 1.0 && n > 0.0
    ensures 0.0 < Times(t, n) <= n
  {
  }

  lemma ReachesExtremes(dotSquared: int, t: real, norms: int)
    requires 0.0 < t <= 1.0 && norms > 0
    ensures dotSquared == norms ==> Reaches(dotSquared, t, norms)
    ensures dotSquared == 0 ==> !Reaches(dotSquared, t, norms)
  {
    AtMost(t, norms as real);
  }
}
