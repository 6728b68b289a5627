/** What a failed unlearn does to the tables: it stops part of the way and does not roll back. */
module ClassifierFailures {
  import opened Sums
  import opened ClassifierTables
  import opened ClassifierMeaning
  import opened ClassifierUnlearning
  import opened ClassifierLaws
  import opened Decision

  /** The per-class document counts, summed up. */
  ghost function Documents(docs: map<Class, int>): int {
    Sum(docs.Keys, DocsOf(docs))
  }

  lemma DocumentsOver(docs: map<Class, int>, s: set<Class>)
    requires docs.Keys <= s
    ensures Sum(s, DocsOf(docs)) == Documents(docs)
  {
    SumWiden(docs.Keys, s, DocsOf(docs));
  }

  /** Taking one document of a class away, with or without its empty entry. */
  lemma DocumentsLess(docs: map<Class, int>, c: Class, less: map<Class, int>)
    requires c in docs && less.Keys <= docs.Keys
    requires forall x :: Get(less, x) == Get(OneLess(docs, c), x)
    ensures Documents(less) == Documents(docs) - 1
  {
    SumOneLess(docs.Keys, docs, c);
    SumSame(docs.Keys, DocsOf(less), DocsOf(OneLess(docs, c)));
    DocumentsOver(less, docs.Keys);
  }

  lemma {:induction false} UnlearnedDocuments(T: Tables, docs: seq<Document>)
    requires UnlearnDocs(T, docs).Some?
    ensures Documents(UnlearnDocs(T, docs).value.docs) == Documents(T.docs) - |docs|
    ensures UnlearnDocs(T, docs).value.total == T.total
  {
    if docs != [] {
      var front, d := docs[..|docs| - 1], docs[|docs| - 1];
      UnlearnedDocuments(T, front);
      var V := UnlearnDocs(T, front).value;
      var U := UnlearnDoc(V, d);
      DocumentsLess(V.docs, d.cls, U.docs);
    }
  }

  lemma StoppedCount(V: Tables, U: Tables, d: Document, taken: set<Token>)
    requires Stopped(V, U, d, taken)
    ensures U.total == V.total
    ensures Documents(U.docs) == Documents(V.docs) - if Get(V.docs, d.cls) > 0 then 1 else 0
  {
    if Get(V.docs, d.cls) > 0 {
      DocumentsLess(V.docs, d.cls, U.docs);
    }
  }

  /** A failed unlearn leaves the tables alone exactly when it was asked for more documents than
      there are in all, a test made before anything is changed. */
  lemma UnchangedIff(T: Tables, docs: seq<Document>, U: Tables, k: nat, taken: set<Token>)
    requires StoppedAt(T, docs, U, k, taken)
    ensures U == T <==> |docs| > T.total
  {
    if |docs| <= T.total {
      FailedTotal(T, docs, U, k, taken);
    }
  }

  lemma FailedTotal(T: Tables, docs: seq<Document>, U: Tables, k: nat, taken: set<Token>)
    requires StoppedAt(T, docs, U, k, taken) && |docs| <= T.total
    ensures U.total == T.total - |docs|
  {
    var T' := T.(total := T.total - |docs|);
    UnlearnedDocuments(T', docs[..k]);
    StoppedCount(UnlearnDocs(T', docs[..k]).value, U, docs[k], taken);
  }

  /** There is room for the first j documents. */
  ghost predicate PrefixFits(T: Tables, docs: seq<Document>, j: nat)
    requires j <= |docs|
  {
    Fits(T, multiset(docs[..j]))
  }

  lemma PrefixSnoc(docs: seq<Document>, j: nat)
    requires j < |docs|
    ensures multiset(docs[..j + 1]) == multiset(docs[..j]) + multiset{docs[j]}
  {
    assert docs[..j + 1] == docs[..j] + [docs[j]];
  }

  lemma {:induction false} LongerPrefixFits(T: Tables, docs: seq<Document>, i: nat, j: nat)
    requires i <= j <= |docs| && PrefixFits(T, docs, j)
    ensures PrefixFits(T, docs, i)
    decreases j
  {
    if i < j {
      PrefixSnoc(docs, j - 1);
      FitsFewer(T, multiset(docs[..j - 1]), docs[j - 1]);
      LongerPrefixFits(T, docs, i, j - 1);
    }
  }

  /** Whether the class of the document at k still has one when its turn comes. */
  ghost predicate ClassLeft(T: Tables, docs: seq<Document>, k: nat)
    requires k < |docs|
  {
    DocCount(multiset(docs[..k]), docs[k].cls) < Get(T.docs, docs[k].cls)
  }

  lemma StopsBetween(T: Tables, docs: seq<Document>, U: Tables, k: nat, taken: set<Token>)
    requires Consistent(T) && StoppedAt(T, docs, U, k, taken) && |docs| <= T.total
    ensures PrefixFits(T, docs, k) && !PrefixFits(T, docs, k + 1)
    ensures var T' := T.(total := T.total - |docs|);
            TakenOut(T', UnlearnDocs(T', docs[..k]).value, multiset(docs[..k]))
  {
    var T' := T.(total := T.total - |docs|);
    ConsistentWithLess(T, T'.total);
    UnlearnDocsExact(T', docs[..k]);
    var V := UnlearnDocs(T', docs[..k]).value;
    PrefixSnoc(docs, k);
    FitsLast(T', V, multiset(docs[..k]), docs[k]);
    SameFits(T, T', multiset(docs[..k]));
    SameFits(T, T', multiset(docs[..k + 1]));
  }

  lemma SameFits(T: Tables, T': Tables, B: multiset<Document>)
    requires T'.docs == T.docs && T'.results == T.results
    ensures Fits(T, B) <==> Fits(T', B)
  {
  }

  /** Where a failing call stops is known beforehand: at the first document that the tables have
      no room for together with those before it. */
  lemma StopsAtFirstMisfit(T: Tables, docs: seq<Document>, U: Tables, k: nat, taken: set<Token>, j: nat)
    requires Consistent(T) && StoppedAt(T, docs, U, k, taken) && |docs| <= T.total && j <= |docs|
    ensures PrefixFits(T, docs, j) <==> j <= k
  {
    StopsBetween(T, docs, U, k, taken);
    if j <= k {
      LongerPrefixFits(T, docs, j, k);
    } else if PrefixFits(T, docs, j) {
      LongerPrefixFits(T, docs, k + 1, j);
    }
  }

  /** What every class, and every token in it, has lost after a failed unlearn: the documents
      before the failing one in full, of the failing one itself what came before its missing
      token; and the total has lost them all. */
  lemma FailureLosses(T: Tables, docs: seq<Document>, U: Tables, k: nat, taken: set<Token>, t: Token, c: Class)
    requires Consistent(T) && StoppedAt(T, docs, U, k, taken) && |docs| <= T.total
    ensures var hit := c == docs[k].cls && ClassLeft(T, docs, k);
            && U.total == T.total - |docs|
            && Get(U.docs, c) == Get(T.docs, c) - DocCount(multiset(docs[..k]), c) - (if hit then 1 else 0)
            && Count(U.results, t, c)
               == Count(T.results, t, c) - TokenCount(multiset(docs[..k]), t, c) - (if hit && t in taken then 1 else 0)
  {
    var T' := T.(total := T.total - |docs|);
    FailedTotal(T, docs, U, k, taken);
    StopsBetween(T, docs, U, k, taken);
    ConsistentWithLess(T, T'.total);
    UnlearnDocsExact(T', docs[..k]);
    StoppedTokens(UnlearnDocs(T', docs[..k]).value, U, docs[k], taken, t, c);
  }

  /** The token frequency of the class then falls short of the tokens it still counts by the one that
      was missing, which no document accounts for; unless there are none left. */
  lemma FrequencyLost(T: Tables, docs: seq<Document>, U: Tables, k: nat, taken: set<Token>)
    requires Consistent(T) && StoppedAt(T, docs, U, k, taken) && |docs| <= T.total && ClassLeft(T, docs, k)
    ensures var left := Occurrences(U.results, docs[k].cls);
            left >= 0 && Get(U.freq, docs[k].cls) == if left > 0 then left - 1 else 0
  {
    var T' := T.(total := T.total - |docs|);
    ClassLeftThen(T, docs, U, k, taken);
    ConsistentWithLess(T, T'.total);
    UnlearnDocsExact(T', docs[..k]);
    StoppedFrequency(UnlearnDocs(T', docs[..k]).value, U, docs[k], taken);
  }

  lemma StoppedFrequency(V: Tables, U: Tables, d: Document, taken: set<Token>)
    requires Consistent(V) && Stopped(V, U, d, taken) && Get(V.docs, d.cls) > 0
    ensures var left := Occurrences(U.results, d.cls);
            left >= 0 && Get(U.freq, d.cls) == if left > 0 then left - 1 else 0
  {
    var left := Occurrences(UnlearnTokens(V.results, taken, d.cls), d.cls);
    TokensLeft(V, d.cls, taken, left);
    StoppingLeaves(V.freq, d.cls, |taken|, left);
  }

  lemma TokensLeft(V: Tables, c: Class, taken: set<Token>, left: int)
    requires Consistent(V) && Get(V.docs, c) > 0 && HasTokens(V.results, taken, c)
    requires left == Occurrences(UnlearnTokens(V.results, taken, c), c)
    ensures left >= 0 && Get(V.freq, c) == left + |taken|
  {
    UnlearnedOccurrences(V.results, taken, c, c);
    UnlearnedNoZeros(V.results, taken, c);
    OccurrencesNonNegative(UnlearnTokens(V.results, taken, c), c);
    assert FreqAt(V.docs, V.freq, V.results, c);
  }

  lemma StoppingLeaves(freq: map<Class, int>, c: Class, n: nat, left: int)
    requires Get(freq, c) == left + n && left >= 0
    ensures Get(Stopping(freq, c, n), c) == if left > 0 then left - 1 else 0
  {
  }

  lemma StoppedTokens(V: Tables, U: Tables, d: Document, taken: set<Token>, t: Token, c: Class)
    requires Consistent(V) && Stopped(V, U, d, taken)
    ensures var hit := c == d.cls && Get(V.docs, d.cls) > 0;
            && Get(U.docs, c) == Get(V.docs, c) - (if hit then 1 else 0)
            && Count(U.results, t, c) == Count(V.results, t, c) - (if hit && t in taken then 1 else 0)
  {
    if Get(V.docs, d.cls) > 0 {
      UnlearnedCount(V.results, taken, d.cls, t, c);
    }
  }

  lemma ClassLeftThen(T: Tables, docs: seq<Document>, U: Tables, k: nat, taken: set<Token>)
    requires Consistent(T) && StoppedAt(T, docs, U, k, taken) && |docs| <= T.total
    ensures var V := UnlearnDocs(T.(total := T.total - |docs|), docs[..k]).value;
            Get(V.docs, docs[k].cls) > 0 <==> ClassLeft(T, docs, k)
  {
    StopsBetween(T, docs, U, k, taken);
  }

  lemma FailedDocuments(T: Tables, docs: seq<Document>, U: Tables, k: nat, taken: set<Token>)
    requires Consistent(T) && StoppedAt(T, docs, U, k, taken) && |docs| <= T.total
    ensures Documents(U.docs) == Documents(T.docs) - k - if ClassLeft(T, docs, k) then 1 else 0
  {
    var T' := T.(total := T.total - |docs|);
    UnlearnedDocuments(T', docs[..k]);
    StoppedCount(UnlearnDocs(T', docs[..k]).value, U, docs[k], taken);
    ClassLeftThen(T, docs, U, k, taken);
  }

  lemma MiscountedWhen(T: Tables, docs: seq<Document>, U: Tables, k: nat, taken: set<Token>)
    requires Consistent(T) && StoppedAt(T, docs, U, k, taken) && |docs| <= T.total && Documents(T.docs) == T.total
    ensures Documents(U.docs) == U.total <==> k == |docs| - 1 && ClassLeft(T, docs, k)
  {
    FailedTotal(T, docs, U, k, taken);
    FailedDocuments(T, docs, U, k, taken);
  }

  /** After a failed unlearn the counts of documents still sum up to the total exactly when there
      is room for all documents but the last, and the last one's class still has a document. */
  lemma MiscountedIff(T: Tables, D: multiset<Document>, docs: seq<Document>, U: Tables, k: nat, taken: set<Token>)
    requires Describes(T, D) && StoppedAt(T, docs, U, k, taken) && |docs| <= T.total
    ensures var last := |docs| - 1;
            Documents(U.docs) == U.total <==> PrefixFits(T, docs, last) && ClassLeft(T, docs, last)
  {
    DocsSumToTotal(T, D);
    MiscountedWhen(T, docs, U, k, taken);
    StopsAtFirstMisfit(T, docs, U, k, taken, |docs| - 1);
  }

  function OneSpam(t: Token): seq<Document> {
    [Document("spam", {t})]
  }

  lemma OneSpamCounts(t: Token, u: Token)
    ensures multiset(OneSpam(t)) == multiset{Document("spam", {t})} && multiset(OneSpam(t)[..0]) == multiset{}
    ensures DocCount(multiset(OneSpam(t)), "spam") == 1 && DocCount(multiset{}, "spam") == 0
    ensures TokenCount(multiset(OneSpam(t)), u, "spam") == if t == u then 1 else 0
    ensures TokenCount(multiset{}, u, "spam") == 0
  {
    var d := Document("spam", {t});
    assert multiset{} + multiset{d} == multiset{d};
    TotalAdd(multiset{}, d, OfClass("spam"));
    TotalAdd(multiset{}, d, OfToken(u, "spam"));
  }

  /** It happens: with one document learned, unlearning a document of another token fails late. No
      document is counted any more, in all or of the class, and the token learned is left over. */
  lemma WrongDocumentFails(a: Token, b: Token)
    requires a != b
    ensures var T := Learn(EMPTY_TABLES, OneSpam(a));
            && |OneSpam(b)| <= T.total && Unlearn(T, OneSpam(b)).None?
            && forall U, k, taken :: StoppedAt(T, OneSpam(b), U, k, taken) ==>
                 U.total == 0 && Get(U.docs, "spam") == 0 && Count(U.results, a, "spam") == 1
  {
    var T, docs := Learn(EMPTY_TABLES, OneSpam(a)), OneSpam(b);
    EmptyDescribes();
    LearnDescribes(EMPTY_TABLES, multiset{}, OneSpam(a));
    assert multiset{} + multiset(OneSpam(a)) == multiset(OneSpam(a));
    OneSpamCounts(a, a);
    OneSpamCounts(a, b);
    OneSpamCounts(b, b);
    UnlearnSucceedsIff(T, docs);
    assert TokenCount(multiset(docs), b, "spam") > Count(T.results, b, "spam");
    forall U, k, taken | StoppedAt(T, docs, U, k, taken)
      ensures U.total == 0 && Get(U.docs, "spam") == 0 && Count(U.results, a, "spam") == 1
    {
      FailureLosses(T, docs, U, k, taken, a, "spam");
    }
  }

  /** What fails was not learned as a whole. */
  lemma FailureNotLearned(T: Tables, D: multiset<Document>, docs: seq<Document>)
    requires Describes(T, D) && Unlearn(T, docs).None?
    ensures !(multiset(docs) <= D)
  {
    if multiset(docs) <= D {
      UnlearnDescribes(T, D, docs);
    }
  }

  // What no failure breaks.

  /** The part of Sane that does not speak of priors. */
  ghost predicate CountsSane(T: Tables) {
    && NoZeros(T.results) && T.total >= 0 && T.freq.Keys <= T.docs.Keys
    && (forall c :: c in T.docs ==> T.docs[c] >= 0)
    && (forall c :: c in T.freq ==> T.freq[c] >= 0)
  }

  lemma {:induction false} LearnDocsSane(T: Tables, docs: seq<Document>)
    requires CountsSane(T)
    ensures CountsSane(LearnDocs(T, docs))
    ensures LearnDocs(T, docs).priors == T.priors && T.docs.Keys <= LearnDocs(T, docs).docs.Keys
  {
    if docs != [] {
      var front, d := docs[..|docs| - 1], docs[|docs| - 1];
      LearnDocsSane(T, front);
      LearnedNoZeros(LearnDocs(T, front).results, TokenSet(d), d.cls);
    }
  }

  lemma LearnSane(T: Tables, docs: seq<Document>)
    requires Sane(T)
    ensures Sane(Learn(T, docs))
  {
    LearnDocsSane(T.(total := T.total + |docs|), docs);
  }

  lemma UnlearnDocSane(T: Tables, d: Document)
    requires Sane(T) && CanUnlearn(T, d)
    ensures Sane(UnlearnDoc(T, d))
  {
    UnlearnedNoZeros(T.results, TokenSet(d), d.cls);
  }

  lemma {:induction false} UnlearnDocsSane(T: Tables, docs: seq<Document>)
    requires Sane(T) && UnlearnDocs(T, docs).Some?
    ensures Sane(UnlearnDocs(T, docs).value)
  {
    if docs != [] {
      UnlearnDocsSane(T, docs[..|docs| - 1]);
      UnlearnDocSane(UnlearnDocs(T, docs[..|docs| - 1]).value, docs[|docs| - 1]);
    }
  }

  lemma StoppedSane(V: Tables, U: Tables, d: Document, taken: set<Token>)
    requires Sane(V) && Stopped(V, U, d, taken)
    ensures Sane(U)
  {
    if Get(V.docs, d.cls) > 0 {
      UnlearnedNoZeros(V.results, taken, d.cls);
    }
  }

  /** One call; an unlearning that fails stops at some document after some of its tokens. */
  datatype Call = Learning(docs: seq<Document>) | Unlearning(docs: seq<Document>, stop: nat, taken: set<Token>)

  ghost predicate Does(T: Tables, call: Call, U: Tables) {
    match call
    case Learning(docs) => U == Learn(T, docs)
    case Unlearning(docs, stop, taken) =>
      if Unlearn(T, docs).Some? then U == Unlearn(T, docs).value else StoppedAt(T, docs, U, stop, taken)
  }

  lemma UnlearnSane(T: Tables, docs: seq<Document>)
    requires Sane(T) && Unlearn(T, docs).Some?
    ensures Sane(Unlearn(T, docs).value)
  {
    UnlearnDocsSane(T.(total := T.total - |docs|), docs);
  }

  lemma FailedSane(T: Tables, docs: seq<Document>, U: Tables, stop: nat, taken: set<Token>)
    requires Sane(T) && StoppedAt(T, docs, U, stop, taken)
    ensures Sane(U)
  {
    if |docs| <= T.total {
      var T' := T.(total := T.total - |docs|);
      UnlearnDocsSane(T', docs[..stop]);
      StoppedSane(UnlearnDocs(T', docs[..stop]).value, U, docs[stop], taken);
    }
  }

  lemma CallSane(T: Tables, call: Call, U: Tables)
    requires Sane(T) && Does(T, call, U)
    ensures Sane(U)
  {
    match call
    case Learning(docs) => LearnSane(T, docs);
    case Unlearning(docs, stop, taken) =>
      if Unlearn(T, docs).Some? {
        UnlearnSane(T, docs);
      } else {
        FailedSane(T, docs, U, stop, taken);
      }
  }

  /** Over every run of calls, failed ones included, the tables stay sane, which is all that
      classifying a message asks of them. */
  lemma {:induction false} SaneOverRuns(calls: seq<Call>, states: seq<Tables>, i: nat)
    requires |states| == |calls| + 1 && states[0] == EMPTY_TABLES && i < |states|
    requires forall j :: 0 <= j < |calls| ==> Does(states[j], calls[j], states[j + 1])
    ensures Sane(states[i])
  {
    if i > 0 {
      SaneOverRuns(calls, states, i - 1);
      CallSane(states[i - 1], calls[i - 1], states[i]);
    }
  }
}
