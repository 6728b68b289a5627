/** Sequence operations shared by the models: filtering, suffixes and first removal. */
module Sequences {

  datatype Option<+T> = None | Some(value: T)

  /** The elements satisfying p, in order. Recurses from the right, as the loops append. */
  function Filter<T>(p: T -> bool, s: seq<T>): (r: seq<T>)
    ensures |r| <= |s|
  {
    if s == [] then []
    else
      var rest := Filter(p, s[..|s| - 1]);
      if p(s[|s| - 1]) then rest + [s[|s| - 1]] else rest
  }

  lemma {:induction false} FilterMember<T>(p: T -> bool, s: seq<T>, x: T)
    ensures x in Filter(p, s) <==> x in s && p(x)
  {
    if s != [] {
      FilterMember(p, s[..|s| - 1], x);
      assert s == s[..|s| - 1] + [s[|s| - 1]];
    }
  }

  lemma FilterSnoc<T>(p: T -> bool, s: seq<T>, x: T)
    ensures Filter(p, s + [x]) == Filter(p, s) + if p(x) then [x] else []
  {
    assert (s + [x])[..|s|] == s;
  }

  lemma {:induction false} FilterAppend<T>(p: T -> bool, a: seq<T>, b: seq<T>)
    ensures Filter(p, a + b) == Filter(p, a) + Filter(p, b)
  {
    if b == [] {
      assert a + b == a;
    } else {
      var front, x := b[..|b| - 1], b[|b| - 1];
      FilterAppend(p, a, front);
      assert a + b == (a + front) + [x];
      FilterSnoc(p, a + front, x);
    }
  }

  lemma FilterCons<T>(p: T -> bool, x: T, s: seq<T>)
    ensures Filter(p, [x] + s) == (if p(x) then [x] else []) + Filter(p, s)
  {
    FilterAppend(p, [x], s);
    FilterSnoc(p, [], x);
    assert [] + [x] == [x];
  }

  lemma FilterAround<T>(p: T -> bool, s: seq<T>, i: nat)
    requires i < |s|
    ensures Filter(p, s) == Filter(p, s[..i]) + (if p(s[i]) then [s[i]] else []) + Filter(p, s[i + 1..])
  {
    SplitAround(s, i);
    FilterParts(p, s[..i], s[i], s[i + 1..]);
  }

  lemma Reassociate<T>(a: seq<T>, b: seq<T>, c: seq<T>)
    ensures (a + b) + c == a + (b + c)
  {
  }

  lemma SplitAround<T>(s: seq<T>, i: nat)
    requires i < |s|
    ensures s[..i] + [s[i]] + s[i + 1..] == s
  {
  }

  lemma FilterParts<T>(p: T -> bool, a: seq<T>, x: T, b: seq<T>)
    ensures Filter(p, a + [x] + b) == Filter(p, a) + (if p(x) then [x] else []) + Filter(p, b)
  {
    FilterAppend(p, a + [x], b);
    FilterSnoc(p, a, x);
  }

  /** Filtering twice is filtering once, when the second test implies the first. */
  lemma {:induction false} FilterAbsorbs<T>(p: T -> bool, q: T -> bool, s: seq<T>)
    requires forall x :: x in s && q(x) ==> p(x)
    ensures Filter(q, Filter(p, s)) == Filter(q, s)
  {
    if s != [] {
      var m := |s| - 1;
      FilterAbsorbs(p, q, s[..m]);
      if p(s[m]) {
        FilterSnoc(q, Filter(p, s[..m]), s[m]);
      }
    }
  }

  lemma {:induction false} FilterCommutes<T>(p: T -> bool, q: T -> bool, s: seq<T>)
    ensures Filter(q, Filter(p, s)) == Filter(p, Filter(q, s))
  {
    if s != [] {
      var m := |s| - 1;
      FilterCommutes(p, q, s[..m]);
      if p(s[m]) {
        FilterSnoc(q, Filter(p, s[..m]), s[m]);
      }
      if q(s[m]) {
        FilterSnoc(p, Filter(q, s[..m]), s[m]);
      }
    }
  }

  lemma {:induction false} FilterAll<T>(p: T -> bool, s: seq<T>)
    requires forall x :: x in s ==> p(x)
    ensures Filter(p, s) == s
  {
    if s != [] {
      FilterAll(p, s[..|s| - 1]);
      assert s[..|s| - 1] + [s[|s| - 1]] == s;
    }
  }

  ghost function Places<T>(p: T -> bool, s: seq<T>): set<int> {
    set i | 0 <= i < |s| && p(s[i])
  }

  /** How many elements a filter keeps. */
  lemma {:induction false} FilterSize<T>(p: T -> bool, s: seq<T>)
    ensures |Filter(p, s)| == |Places(p, s)|
  {
    if s == [] {
      assert Places(p, s) == {};
    } else {
      var m := |s| - 1;
      FilterSize(p, s[..m]);
      assert Places(p, s) == Places(p, s[..m]) + if p(s[m]) then {m} else {};
    }
  }

  ghost function LaterPlaces<T>(p: T -> bool, s: seq<T>, i: int): set<int> {
    set j | 0 <= j < |s| && i < j && p(s[j])
  }

  lemma LaterPlacesSnoc<T>(p: T -> bool, s: seq<T>, i: nat)
    requires i < |s| - 1
    ensures |LaterPlaces(p, s, i)| == |LaterPlaces(p, s[..|s| - 1], i)| + if p(s[|s| - 1]) then 1 else 0
  {
    var m := |s| - 1;
    assert LaterPlaces(p, s, i) == LaterPlaces(p, s[..m], i) + if p(s[m]) then {m} else {};
  }

  /** Where a filter puts an element: in front of as many others as pass behind it. */
  lemma {:induction false} FilterPlace<T>(p: T -> bool, s: seq<T>, i: nat)
    requires i < |s| && p(s[i])
    ensures var k := |Filter(p, s)| - 1 - |LaterPlaces(p, s, i)|;
            0 <= k && Filter(p, s)[k] == s[i]
  {
    var m := |s| - 1;
    if i == m {
      assert LaterPlaces(p, s, i) == {};
    } else {
      FilterPlace(p, s[..m], i);
      LaterPlacesSnoc(p, s, i);
    }
  }

  function Both<T>(p: T -> bool, q: T -> bool): T -> bool {
    (x: T) => p(x) && q(x)
  }

  lemma {:induction false} FilterTwice<T>(p: T -> bool, q: T -> bool, s: seq<T>)
    ensures Filter(q, Filter(p, s)) == Filter(Both(p, q), s)
  {
    if s != [] {
      var m := |s| - 1;
      FilterTwice(p, q, s[..m]);
      if p(s[m]) {
        FilterSnoc(q, Filter(p, s[..m]), s[m]);
      }
    }
  }

  lemma {:induction false} FilterSame<T>(p: T -> bool, q: T -> bool, s: seq<T>)
    requires forall x :: x in s ==> p(x) == q(x)
    ensures Filter(p, s) == Filter(q, s)
  {
    if s != [] {
      FilterSame(p, q, s[..|s| - 1]);
    }
  }

  /** The last n elements, or all of them when there are fewer. */
  function LastN<T>(s: seq<T>, n: nat): (r: seq<T>)
    ensures |r| == if |s| <= n then |s| else n
    ensures forall i :: 0 <= i < |r| ==> r[i] == s[|s| - |r| + i]
  {
    if |s| <= n then s else s[|s| - n..]
  }

  /** s without the first occurrence of x. */
  function RemoveFirst<T(==)>(s: seq<T>, x: T): seq<T> {
    if s == [] then []
    else if s[0] == x then s[1..]
    else [s[0]] + RemoveFirst(s[1..], x)
  }

  lemma {:induction false} RemoveFirstAbsent<T>(s: seq<T>, x: T)
    requires x !in s
    ensures RemoveFirst(s, x) == s
  {
    if s != [] {
      RemoveFirstAbsent(s[1..], x);
    }
  }

  lemma {:induction false} RemoveFirstAt<T>(s: seq<T>, i: nat)
    requires i < |s| && s[i] !in s[..i]
    ensures RemoveFirst(s, s[i]) == s[..i] + s[i + 1..]
  {
    if i > 0 {
      assert s[0] in s[..i];
      assert s[1..][..i - 1] == s[1..i] && forall x :: x in s[1..i] ==> x in s[..i];
      RemoveFirstAt(s[1..], i - 1);
      assert s[..i] == [s[0]] + s[1..][..i - 1];
    }
  }
}
