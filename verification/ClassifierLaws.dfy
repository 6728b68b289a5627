/** Laws of the classifier's tables: they are determined by the documents, learning and
    unlearning undo each other, and the order and batching of learning do not matter. */
module ClassifierLaws {
  import opened Sequences
  import opened Sums
  import opened ClassifierTables
  import opened ClassifierMeaning
  import opened ClassifierUnlearning

  /** Equal counts; the frequency table is compared by value, as it may keep zero entries. */
  ghost predicate SameCounts(T: Tables, U: Tables) {
    && T.results == U.results && T.docs == U.docs && T.total == U.total
    && forall c :: Get(T.freq, c) == Get(U.freq, c)
  }

  lemma RowFromCounts(r: Results, t: Token)
    requires NoZeros(r)
    ensures t in r <==> exists c :: Count(r, t, c) > 0
    ensures forall c :: c in Row(r, t) <==> Count(r, t, c) > 0
  {
    if t in r {
      assert RowOk(r[t]);
      var c :| c in r[t].Keys;
      assert Count(r, t, c) > 0;
    }
  }

  lemma ResultsFromCounts(r: Results, s: Results)
    requires NoZeros(r) && NoZeros(s)
    requires forall t, c :: Count(r, t, c) == Count(s, t, c)
    ensures r == s
  {
    forall t ensures (t in r <==> t in s) && Row(r, t) == Row(s, t) {
      RowFromCounts(r, t);
      RowFromCounts(s, t);
      forall c ensures c in Row(r, t) <==> c in Row(s, t) {
        assert Count(r, t, c) == Count(s, t, c);
      }
      forall c | c in Row(r, t) ensures Row(r, t)[c] == Row(s, t)[c] {
        assert Count(r, t, c) == Count(s, t, c);
      }
    }
    assert forall t :: t in r ==> r[t] == Row(r, t) && s[t] == Row(s, t);
  }

  lemma DocsFromCounts(m: map<Class, int>, n: map<Class, int>)
    requires Positive(m) && Positive(n) && forall c :: Get(m, c) == Get(n, c)
    ensures m == n
  {
    forall c ensures c in m <==> c in n {
      assert Get(m, c) == Get(n, c);
    }
    forall c | c in m ensures m[c] == n[c] {
      assert Get(m, c) == Get(n, c);
    }
  }

  /** Whatever was learned and unlearned on the way, the counts depend only on what is left. */
  lemma CountsDetermined(T: Tables, U: Tables, D: multiset<Document>)
    requires Describes(T, D) && Describes(U, D)
    ensures SameCounts(T, U)
    ensures Fresh(T) && Fresh(U) ==> T.priors == U.priors
  {
    forall t, c ensures Count(T.results, t, c) == Count(U.results, t, c) {
      assert Count(T.results, t, c) == TokenCount(D, t, c);
    }
    ResultsFromCounts(T.results, U.results);
    forall c ensures Get(T.docs, c) == Get(U.docs, c) {
      assert Get(T.docs, c) == DocCount(D, c);
    }
    DocsFromCounts(T.docs, U.docs);
    forall c ensures Get(T.freq, c) == Get(U.freq, c) {
      assert FreqAt(T.docs, T.freq, T.results, c) && FreqAt(U.docs, U.freq, U.results, c);
    }
  }

  // Sums over classes.

  function DocsOf(D: map<Class, int>): Class -> int {
    (c: Class) => Get(D, c)
  }

  function OneLess(docs: map<Class, int>, c: Class): map<Class, int> {
    docs[c := Get(docs, c) - 1]
  }

  lemma CountedWithout(D: multiset<Document>, docs: map<Class, int>, d: Document)
    requires DocsCounted(docs, D) && d in D
    ensures DocsCounted(OneLess(docs, d.cls), D - multiset{d})
  {
    forall c ensures Get(OneLess(docs, d.cls), c) == DocCount(D - multiset{d}, c) {
      TotalTake(D, d, OfClass(c));
      assert Get(docs, c) == DocCount(D, c);
    }
  }

  lemma SumOneLess(s: set<Class>, docs: map<Class, int>, c: Class)
    requires c in s
    ensures Sum(s, DocsOf(docs)) == Sum(s, DocsOf(OneLess(docs, c))) + 1
  {
    SumShift(s, DocsOf(docs), DocsOf(OneLess(docs, c)), {c});
    assert s * {c} == {c};
  }

  lemma {:induction false} ClassesCover(D: multiset<Document>, docs: map<Class, int>, s: set<Class>)
    requires DocsCounted(docs, D) && forall d :: d in D ==> d.cls in s
    ensures Sum(s, DocsOf(docs)) == |D|
    decreases |D|
  {
    if D == multiset{} {
      SumNonNegative(s, DocsOf(docs));
    } else {
      var d :| d in D;
      CountedWithout(D, docs, d);
      ClassesCover(D - multiset{d}, OneLess(docs, d.cls), s);
      SumOneLess(s, docs, d.cls);
    }
  }

  lemma {:induction false} ClassOccurs(D: multiset<Document>, d: Document)
    requires d in D
    ensures DocCount(D, d.cls) > 0
  {
    TotalTake(D, d, OfClass(d.cls));
  }

  /** The per-class document counts sum up to the total. */
  lemma DocsSumToTotal(T: Tables, D: multiset<Document>)
    requires Describes(T, D)
    ensures Sum(T.docs.Keys, DocsOf(T.docs)) == T.total
  {
    forall d | d in D ensures d.cls in T.docs {
      ClassOccurs(D, d);
      assert Get(T.docs, d.cls) == DocCount(D, d.cls);
    }
    ClassesCover(D, T.docs, T.docs.Keys);
  }

  // Inverses.

  lemma AddThenSubtract(D: multiset<Document>, B: multiset<Document>)
    ensures D + B - B == D
    ensures B <= D ==> D - B + B == D
  {
  }

  /** Learning and then unlearning the same documents restores every count. */
  lemma LearnThenUnlearn(T: Tables, D: multiset<Document>, docs: seq<Document>)
    requires Describes(T, D)
    ensures var U := Unlearn(Learn(T, docs), docs);
            U.Some? && SameCounts(T, U.value) && Describes(U.value, D)
  {
    LearnDescribes(T, D, docs);
    AddThenSubtract(D, multiset(docs));
    UnlearnDescribes(Learn(T, docs), D + multiset(docs), docs);
    CountsDetermined(T, Unlearn(Learn(T, docs), docs).value, D);
  }

  /** Unlearning and then relearning, which is what a failed removal does, restores every count,
      and every prior exactly when the priors were fresh to begin with. */
  lemma UnlearnThenLearn(T: Tables, D: multiset<Document>, docs: seq<Document>)
    requires Describes(T, D) && multiset(docs) <= D
    ensures var U := Unlearn(T, docs);
            U.Some? && SameCounts(T, Learn(U.value, docs)) && Describes(Learn(U.value, docs), D)
            && (Learn(U.value, docs).priors == T.priors <==> Fresh(T))
  {
    UnlearnDescribes(T, D, docs);
    var U := Unlearn(T, docs).value;
    AddThenSubtract(D, multiset(docs));
    LearnDescribes(U, D - multiset(docs), docs);
    CountsDetermined(T, Learn(U, docs), D);
  }

  // Priors after unlearning.

  ghost function ClassesOf(docs: seq<Document>): set<Class> {
    set d | d in docs :: d.cls
  }

  lemma ClassesSnoc(docs: seq<Document>)
    requires docs != []
    ensures ClassesOf(docs) == ClassesOf(docs[..|docs| - 1]) + {docs[|docs| - 1].cls}
  {
    assert docs == docs[..|docs| - 1] + [docs[|docs| - 1]];
  }

  lemma {:induction false} UnlearnDocsPriors(T: Tables, docs: seq<Document>)
    requires Consistent(T) && UnlearnDocs(T, docs).Some?
    ensures var U := UnlearnDocs(T, docs).value;
            Consistent(U) && U.total == T.total && U.docs.Keys <= T.docs.Keys
            && forall c :: c in U.docs ==>
                 U.priors[c] == if c in ClassesOf(docs) then Prior(U.docs[c], T.total) else T.priors[c]
  {
    if docs != [] {
      var front, d := docs[..|docs| - 1], docs[|docs| - 1];
      UnlearnDocsPriors(T, front);
      ClassesSnoc(docs);
      UnlearnDocKeeps(UnlearnDocs(T, front).value, d);
    }
  }

  /** Unlearning refreshes the priors of the unlearned classes only. Learning and unlearning a
      batch therefore restores fresh priors exactly when no other class is left. */
  lemma PriorsAfterLearnThenUnlearn(T: Tables, D: multiset<Document>, docs: seq<Document>)
    requires Describes(T, D) && Fresh(T) && docs != []
    ensures Unlearn(Learn(T, docs), docs).Some?
    ensures Unlearn(Learn(T, docs), docs).value.priors == T.priors <==> T.docs.Keys <= ClassesOf(docs)
  {
    LearnDescribes(T, D, docs);
    LearnThenUnlearn(T, D, docs);
    var L := Learn(T, docs);
    var L0 := L.(total := L.total - |docs|);
    ConsistentWithLess(L, L0.total);
    UnlearnDocsPriors(L0, docs);
    var U := Unlearn(L, docs).value;
    forall c | c in T.docs ensures U.priors[c] == T.priors[c] <==> c in ClassesOf(docs) {
      assert L.total == T.total + |docs|;
      assert L.priors[c].total == L.total && T.priors[c] == Prior(T.docs[c], T.total);
    }
  }

  // Order and batching.

  /** The classes that a batch gives a frequency entry to. */
  ghost function TokenClasses(docs: seq<Document>): set<Class> {
    set d | d in docs && TokenSet(d) != {} :: d.cls
  }

  lemma {:induction false} LearnDocsFreqKeys(T: Tables, docs: seq<Document>)
    ensures LearnDocs(T, docs).freq.Keys == T.freq.Keys + TokenClasses(docs)
  {
    if docs != [] {
      var front, d := docs[..|docs| - 1], docs[|docs| - 1];
      LearnDocsFreqKeys(T, front);
      assert docs == front + [d];
      assert TokenClasses(docs) == TokenClasses(front) + if TokenSet(d) == {} then {} else {d.cls};
    }
  }

  lemma MapFromValues(m: map<Class, int>, n: map<Class, int>)
    requires m.Keys == n.Keys && forall c :: Get(m, c) == Get(n, c)
    ensures m == n
  {
    forall c | c in m ensures m[c] == n[c] {
      assert Get(m, c) == Get(n, c);
    }
  }

  lemma LearnFreqKeys(T: Tables, docs: seq<Document>)
    ensures Learn(T, docs).freq.Keys == T.freq.Keys + TokenClasses(docs)
  {
    LearnDocsFreqKeys(T.(total := T.total + |docs|), docs);
  }

  lemma EqualTables(T: Tables, U: Tables, D: multiset<Document>)
    requires Describes(T, D) && Describes(U, D) && Fresh(T) && Fresh(U) && T.freq.Keys == U.freq.Keys
    ensures T == U
  {
    CountsDetermined(T, U, D);
    MapFromValues(T.freq, U.freq);
  }

  /** A batch can be learned in any order: the resulting tables are the same, priors and all. */
  lemma LearnOrderFree(T: Tables, D: multiset<Document>, a: seq<Document>, b: seq<Document>)
    requires Describes(T, D) && multiset(a) == multiset(b)
    ensures Learn(T, a) == Learn(T, b)
  {
    LearnDescribes(T, D, a);
    LearnDescribes(T, D, b);
    LearnFreqKeys(T, a);
    LearnFreqKeys(T, b);
    assert forall d :: d in a <==> d in multiset(a);
    assert forall d :: d in b <==> d in multiset(b);
    EqualTables(Learn(T, a), Learn(T, b), D + multiset(a));
  }

  lemma TwiceDescribes(T: Tables, D: multiset<Document>, a: seq<Document>, b: seq<Document>)
    requires Describes(T, D)
    ensures Describes(Learn(Learn(T, a), b), D + multiset(a + b)) && Fresh(Learn(Learn(T, a), b))
  {
    LearnDescribes(T, D, a);
    LearnDescribes(Learn(T, a), D + multiset(a), b);
    assert D + multiset(a) + multiset(b) == D + multiset(a + b);
  }

  lemma TwiceFreqKeys(T: Tables, a: seq<Document>, b: seq<Document>)
    ensures Learn(Learn(T, a), b).freq.Keys == Learn(T, a + b).freq.Keys
  {
    LearnFreqKeys(T, a);
    LearnFreqKeys(Learn(T, a), b);
    LearnFreqKeys(T, a + b);
    assert TokenClasses(a + b) == TokenClasses(a) + TokenClasses(b);
  }

  /** Learning in two batches equals learning in one. */
  lemma LearnBatchFree(T: Tables, D: multiset<Document>, a: seq<Document>, b: seq<Document>)
    requires Describes(T, D)
    ensures Learn(Learn(T, a), b) == Learn(T, a + b)
  {
    TwiceDescribes(T, D, a, b);
    LearnDescribes(T, D, a + b);
    TwiceFreqKeys(T, a, b);
    EqualTables(Learn(Learn(T, a), b), Learn(T, a + b), D + multiset(a + b));
  }

  // Runs.

  datatype Op = LearnOp(docs: seq<Document>) | UnlearnOp(docs: seq<Document>)

  function RunOps(T: Tables, ops: seq<Op>): Option<Tables>
    decreases |ops|
  {
    if ops == [] then Some(T)
    else match ops[0]
      case LearnOp(docs) => RunOps(Learn(T, docs), ops[1..])
      case UnlearnOp(docs) =>
        var U := Unlearn(T, docs);
        if U.None? then None else RunOps(U.value, ops[1..])
  }

  /** What is left of D after the run, if it only unlearns documents it has. */
  function Remaining(D: multiset<Document>, ops: seq<Op>): Option<multiset<Document>>
    decreases |ops|
  {
    if ops == [] then Some(D)
    else match ops[0]
      case LearnOp(docs) => Remaining(D + multiset(docs), ops[1..])
      case UnlearnOp(docs) =>
        if multiset(docs) <= D then Remaining(D - multiset(docs), ops[1..]) else None
  }

  /** After any run of learning and unlearning learned documents, no step has failed and the
      tables describe exactly the documents that remain. */
  lemma {:induction false} RunDescribes(T: Tables, D: multiset<Document>, ops: seq<Op>)
    requires Describes(T, D) && Remaining(D, ops).Some?
    ensures RunOps(T, ops).Some? && Describes(RunOps(T, ops).value, Remaining(D, ops).value)
    decreases |ops|
  {
    if ops != [] {
      match ops[0] {
        case LearnOp(docs) =>
          LearnDescribes(T, D, docs);
          RunDescribes(Learn(T, docs), D + multiset(docs), ops[1..]);
        case UnlearnOp(docs) =>
          UnlearnDescribes(T, D, docs);
          RunDescribes(Unlearn(T, docs).value, D - multiset(docs), ops[1..]);
      }
    }
  }

  /** Two runs that leave the same documents leave the same counts as learning those documents
      at once, in any order. */
  lemma RunEqualsReload(ops: seq<Op>, docs: seq<Document>)
    requires Remaining(multiset{}, ops) == Some(multiset(docs))
    ensures RunOps(EMPTY_TABLES, ops).Some?
    ensures SameCounts(RunOps(EMPTY_TABLES, ops).value, Learn(EMPTY_TABLES, docs))
  {
    EmptyDescribes();
    RunDescribes(EMPTY_TABLES, multiset{}, ops);
    LearnDescribes(EMPTY_TABLES, multiset{}, docs);
    assert multiset{} + multiset(docs) == multiset(docs);
    CountsDetermined(RunOps(EMPTY_TABLES, ops).value, Learn(EMPTY_TABLES, docs), multiset(docs));
  }
}
