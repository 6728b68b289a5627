/** Sums and products over finite sets and multisets. The choice of order is immaterial; the
    Take lemmas say so, and every other fact follows from them. */
module Sums {

  ghost function Sum<K(!new)>(s: set<K>, f: K -> int): int {
    if s == {} then 0
    else
      var x :| x in s;
      f(x) + Sum(s - {x}, f)
  }

  lemma {:induction false} SumTake<K(!new)>(s: set<K>, x: K, f: K -> int)
    requires x in s
    ensures Sum(s, f) == f(x) + Sum(s - {x}, f)
    decreases |s|
  {
    var y :| y in s && Sum(s, f) == f(y) + Sum(s - {y}, f);
    if y != x {
      SumTake(s - {y}, x, f);
      SumTake(s - {x}, y, f);
      assert s - {x} - {y} == s - {y} - {x};
    }
  }

  lemma SumAdd<K(!new)>(s: set<K>, x: K, f: K -> int)
    requires x !in s
    ensures Sum(s + {x}, f) == Sum(s, f) + f(x)
  {
    SumTake(s + {x}, x, f);
    assert s + {x} - {x} == s;
  }

  /** f exceeds g by one exactly on ts. */
  lemma {:induction false} SumShift<K(!new)>(s: set<K>, f: K -> int, g: K -> int, ts: set<K>)
    requires forall x :: x in s ==> f(x) == g(x) + if x in ts then 1 else 0
    ensures Sum(s, f) == Sum(s, g) + |s * ts|
    decreases |s|
  {
    if s != {} {
      var x :| x in s;
      SumShift(s - {x}, f, g, ts);
      SumTake(s, x, f);
      SumTake(s, x, g);
      MeetWithout(s, ts, x);
    }
  }

  lemma MeetWithout<K>(s: set<K>, ts: set<K>, x: K)
    requires x in s
    ensures |s * ts| == |(s - {x}) * ts| + if x in ts then 1 else 0
  {
    if x in ts {
      assert s * ts == (s - {x}) * ts + {x};
    } else {
      assert s * ts == (s - {x}) * ts;
    }
  }

  /** Members on which f is zero do not matter. */
  lemma {:induction false} SumWiden<K(!new)>(s: set<K>, wide: set<K>, f: K -> int)
    requires s <= wide && forall x :: x in wide - s ==> f(x) == 0
    ensures Sum(wide, f) == Sum(s, f)
    decreases |wide - s|
  {
    if wide != s {
      assert !(wide <= s);
      var x :| x in wide && x !in s;
      SumTake(wide, x, f);
      SumWiden(s, wide - {x}, f);
    }
  }

  lemma {:induction false} SumSame<K(!new)>(s: set<K>, f: K -> int, g: K -> int)
    requires forall x :: x in s ==> f(x) == g(x)
    ensures Sum(s, f) == Sum(s, g)
    decreases |s|
  {
    if s != {} {
      var x :| x in s;
      SumSame(s - {x}, f, g);
      SumTake(s, x, f);
      SumTake(s, x, g);
    }
  }

  lemma {:induction false} SumNonNegative<K(!new)>(s: set<K>, f: K -> int)
    requires forall x :: x in s ==> f(x) >= 0
    ensures Sum(s, f) >= 0
    ensures Sum(s, f) == 0 <==> forall x :: x in s ==> f(x) == 0
    decreases |s|
  {
    if s != {} {
      var x :| x in s;
      SumNonNegative(s - {x}, f);
      SumTake(s, x, f);
      assert forall y :: y in s <==> y == x || y in s - {x};
    }
  }

  function IntTimes(a: int, b: int): int {
    a * b
  }

  function Scaled<K>(k: int, f: K -> int): K -> int {
    (x: K) => IntTimes(k, f(x))
  }

  lemma Gather(k: int, a: int, b: int)
    ensures IntTimes(k, a + b) == IntTimes(k, a) + IntTimes(k, b)
  {
  }

  lemma {:induction false} SumScaled<K(!new)>(s: set<K>, k: int, f: K -> int)
    ensures Sum(s, Scaled(k, f)) == IntTimes(k, Sum(s, f))
    decreases |s|
  {
    if s != {} {
      var x :| x in s;
      SumScaled(s - {x}, k, f);
      SumTake(s, x, f);
      SumTake(s, x, Scaled(k, f));
      Gather(k, f(x), Sum(s - {x}, f));
    }
  }

  /** The sum of a - 2*b + c, member by member. */
  lemma {:induction false} SumMixed<K(!new)>(s: set<K>, f: K -> int, a: K -> int, b: K -> int, c: K -> int)
    requires forall x :: x in s ==> f(x) == a(x) - 2 * b(x) + c(x)
    ensures Sum(s, f) == Sum(s, a) - 2 * Sum(s, b) + Sum(s, c)
    decreases |s|
  {
    if s != {} {
      var x :| x in s;
      SumMixed(s - {x}, f, a, b, c);
      SumTake(s, x, f);
      SumTake(s, x, a);
      SumTake(s, x, b);
      SumTake(s, x, c);
    }
  }

  // Real sums and products.

  ghost function RealSum<K(!new)>(s: set<K>, f: K -> real): real {
    if s == {} then 0.0
    else
      var x :| x in s;
      f(x) + RealSum(s - {x}, f)
  }

  lemma {:induction false} RealSumTake<K(!new)>(s: set<K>, x: K, f: K -> real)
    requires x in s
    ensures RealSum(s, f) == f(x) + RealSum(s - {x}, f)
    decreases |s|
  {
    var y :| y in s && RealSum(s, f) == f(y) + RealSum(s - {y}, f);
    if y != x {
      RealSumTake(s - {y}, x, f);
      RealSumTake(s - {x}, y, f);
      assert s - {x} - {y} == s - {y} - {x};
    }
  }

  /** The members of s folded into start by g, when their order does not matter. */
  ghost function Fold<K(!new)>(start: real, s: set<K>, g: (real, K) -> real): real
    decreases |s|
  {
    if s == {} then start
    else
      var x :| x in s;
      g(Fold(start, s - {x}, g), x)
  }

  ghost predicate Commutes<K(!new)>(g: (real, K) -> real) {
    forall a, x, y :: g(g(a, x), y) == g(g(a, y), x)
  }

  lemma {:induction false} FoldTake<K(!new)>(start: real, s: set<K>, x: K, g: (real, K) -> real)
    requires x in s && Commutes(g)
    ensures Fold(start, s, g) == g(Fold(start, s - {x}, g), x)
    decreases |s|
  {
    var y :| y in s && Fold(start, s, g) == g(Fold(start, s - {y}, g), y);
    if y != x {
      FoldTake(start, s - {y}, x, g);
      FoldTake(start, s - {x}, y, g);
      assert s - {x} - {y} == s - {y} - {x};
    }
  }

  function Times(a: real, b: real): real {
    a * b
  }

  function TimesOf<K>(f: K -> real): (real, K) -> real {
    (a: real, x: K) => Times(a, f(x))
  }

  lemma TimesCommutes<K(!new)>(f: K -> real)
    ensures Commutes(TimesOf(f))
  {
    forall a: real, x: K, y: K ensures TimesOf(f)(TimesOf(f)(a, x), y) == TimesOf(f)(TimesOf(f)(a, y), x) {
      Swap(a, f(x), f(y));
    }
  }

  lemma Swap(a: real, b: real, c: real)
    ensures Times(Times(a, b), c) == Times(Times(a, c), b)
  {
  }

  /** start multiplied by f of every member. */
  ghost function Product<K(!new)>(start: real, s: set<K>, f: K -> real): real {
    Fold(start, s, TimesOf(f))
  }

  lemma ProductAdd<K(!new)>(start: real, s: set<K>, x: K, f: K -> real)
    requires x !in s
    ensures Product(start, s + {x}, f) == Times(Product(start, s, f), f(x))
  {
    var g := TimesOf(f);
    TimesCommutes(f);
    FoldTake(start, s + {x}, x, g);
    assert s + {x} - {x} == s;
    assert Fold(start, s + {x}, g) == g(Fold(start, s, g), x);
  }

  lemma TimesNonNegative(a: real, b: real)
    requires a >= 0.0 && b >= 0.0
    ensures Times(a, b) >= 0.0
    ensures a > 0.0 && b > 0.0 ==> Times(a, b) > 0.0
  {
  }

  lemma {:induction false} ProductNonNegative<K(!new)>(start: real, s: set<K>, f: K -> real)
    requires start >= 0.0 && forall x :: x in s ==> f(x) >= 0.0
    ensures Product(start, s, f) >= 0.0
    ensures start > 0.0 && (forall x :: x in s ==> f(x) > 0.0) ==> Product(start, s, f) > 0.0
    decreases |s|
  {
    if s != {} {
      var x :| x in s;
      ProductNonNegative(start, s - {x}, f);
      ProductAdd(start, s - {x}, x, f);
      assert s - {x} + {x} == s;
      TimesNonNegative(Product(start, s - {x}, f), f(x));
    }
  }

  // Multisets.

  /** The total weight of a multiset. */
  ghost function Total<T(!new)>(m: multiset<T>, w: T -> nat): nat
    decreases |m|
  {
    if m == multiset{} then 0
    else
      var x :| x in m;
      w(x) + Total(m - multiset{x}, w)
  }

  lemma {:induction false} TotalTake<T(!new)>(m: multiset<T>, x: T, w: T -> nat)
    requires x in m
    ensures Total(m, w) == w(x) + Total(m - multiset{x}, w)
    decreases |m|
  {
    var y :| y in m && Total(m, w) == w(y) + Total(m - multiset{y}, w);
    if y != x {
      TotalTake(m - multiset{y}, x, w);
      TotalTake(m - multiset{x}, y, w);
      assert m - multiset{x} - multiset{y} == m - multiset{y} - multiset{x};
    }
  }

  lemma TotalAdd<T(!new)>(m: multiset<T>, x: T, w: T -> nat)
    ensures Total(m + multiset{x}, w) == Total(m, w) + w(x)
  {
    TotalTake(m + multiset{x}, x, w);
    assert m + multiset{x} - multiset{x} == m;
  }

  lemma BothWithout<T>(m: multiset<T>, part: multiset<T>, x: T)
    requires part <= m && x in part
    ensures m - multiset{x} - (part - multiset{x}) == m - part
  {
  }

  /** Weights of a part never exceed those of the whole. */
  lemma {:induction false} TotalSplit<T(!new)>(m: multiset<T>, part: multiset<T>, w: T -> nat)
    requires part <= m
    ensures Total(m, w) == Total(part, w) + Total(m - part, w)
    decreases |part|
  {
    if part == multiset{} {
      assert m - part == m;
    } else {
      var x :| x in part;
      TotalTake(m, x, w);
      TotalTake(part, x, w);
      TotalSplit(m - multiset{x}, part - multiset{x}, w);
      BothWithout(m, part, x);
    }
  }
}
