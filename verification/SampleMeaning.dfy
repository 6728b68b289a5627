/** What samples do to the classifier's counts, said of the tokens of their lines. */
module SampleMeaning {
  import opened SampleStore
  import opened ClassifierTables
  import opened ClassifierMeaning
  import opened ClassifierUnlearning
  import opened Sums

  /** The elements that hold the token, however often. */
  ghost function Holding(tok: Tokenizer, elements: seq<string>, t: Token): set<int> {
    set i | 0 <= i < |elements| && t in tok(elements[i])
  }

  lemma HoldingSnoc(tok: Tokenizer, front: seq<string>, last: string, t: Token)
    ensures |Holding(tok, front + [last], t)| == |Holding(tok, front, t)| + if t in tok(last) then 1 else 0
  {
    assert Holding(tok, front + [last], t) == Holding(tok, front, t) + if t in tok(last) then {|front|} else {};
  }

  lemma DocumentsSnoc(tok: Tokenizer, c: Class, front: seq<string>, last: string)
    ensures DocumentsOf(tok, c, front + [last]) == DocumentsOf(tok, c, front) + DocumentsOf(tok, c, [last])
    ensures |DocumentsOf(tok, c, [last])| == 1 && DocumentsOf(tok, c, [last])[0].cls == c
    ensures forall t :: t in DocumentsOf(tok, c, [last])[0].tokens <==> t in tok(last)
  {
    DocumentsAppend(tok, c, front, [last]);
  }

  /** Each element is one document of its class, and counts once for each token it holds. */
  lemma {:induction false} DocumentsCounted(tok: Tokenizer, c: Class, elements: seq<string>, t: Token, x: Class)
    ensures DocCount(multiset(DocumentsOf(tok, c, elements)), x) == if x == c then |elements| else 0
    ensures TokenCount(multiset(DocumentsOf(tok, c, elements)), t, x)
         == if x == c then |Holding(tok, elements, t)| else 0
  {
    if elements == [] {
      assert DocumentsOf(tok, c, elements) == [];
      assert Holding(tok, elements, t) == {};
    } else {
      var front, last := elements[..|elements| - 1], elements[|elements| - 1];
      assert elements == front + [last];
      DocumentsCounted(tok, c, front, t, x);
      DocumentsSnoc(tok, c, front, last);
      HoldingSnoc(tok, front, last, t);
      var d := DocumentsOf(tok, c, [last])[0];
      assert multiset(DocumentsOf(tok, c, elements)) == multiset(DocumentsOf(tok, c, front)) + multiset{d};
      TotalAdd(multiset(DocumentsOf(tok, c, front)), d, OfClass(x));
      TotalAdd(multiset(DocumentsOf(tok, c, front)), d, OfToken(t, x));
    }
  }

  /** T' has, over T, so many more documents of the class, and so many more that hold the token. */
  ghost predicate MoreBy(T: Tables, T': Tables, t: Token, x: Class, docs: nat, holding: nat) {
    && Get(T'.docs, x) == Get(T.docs, x) + docs
    && Count(T'.results, t, x) == Count(T.results, t, x) + holding
  }

  /** T' has over T the elements of class c, counted once each and once for each token they hold. */
  ghost predicate MoreElements(T: Tables, T': Tables, tok: Tokenizer, c: Class, elements: seq<string>) {
    && T'.total == T.total + |elements|
    && forall t, x :: MoreElementsAt(T, T', tok, c, elements, t, x)
  }

  ghost predicate MoreElementsAt(T: Tables, T': Tables, tok: Tokenizer, c: Class, elements: seq<string>,
                                 t: Token, x: Class)
  {
    MoreBy(T, T', t, x, if x == c then |elements| else 0, if x == c then |Holding(tok, elements, t)| else 0)
  }

  /** T counts the spam and ham elements and nothing else. */
  ghost predicate Loaded(T: Tables, tok: Tokenizer, spam: seq<string>, ham: seq<string>) {
    && T.total == |spam| + |ham|
    && forall t, x :: LoadedAt(T, tok, spam, ham, t, x)
  }

  ghost predicate LoadedAt(T: Tables, tok: Tokenizer, spam: seq<string>, ham: seq<string>, t: Token, x: Class) {
    && Get(T.docs, x) == (if x == "spam" then |spam| else if x == "ham" then |ham| else 0)
    && Count(T.results, t, x) == if x == "spam" then |Holding(tok, spam, t)|
                                 else if x == "ham" then |Holding(tok, ham, t)| else 0
  }

  lemma RefreshKeeps(T: Tables)
    ensures RefreshPriors(T).total == T.total && RefreshPriors(T).docs == T.docs
    ensures RefreshPriors(T).results == T.results
  {
  }

  lemma {:induction false} LearnDocsTotal(T: Tables, docs: seq<Document>)
    ensures LearnDocs(T, docs).total == T.total
  {
    if docs != [] {
      LearnDocsTotal(T, docs[..|docs| - 1]);
    }
  }

  lemma LearnIs(T: Tables, docs: seq<Document>, more: Tables)
    requires more == T.(total := T.total + |docs|)
    ensures Learn(T, docs) == RefreshPriors(LearnDocs(more, docs))
  {
  }

  lemma LearnAdds(T: Tables, docs: seq<Document>, t: Token, x: Class)
    ensures Learn(T, docs).total == T.total + |docs|
    ensures MoreBy(T, Learn(T, docs), t, x, DocCount(multiset(docs), x), TokenCount(multiset(docs), t, x))
  {
    var more := T.(total := T.total + |docs|);
    LearnIs(T, docs, more);
    LearnDocsTotal(more, docs);
    LearnDocsCounts(more, docs, x);
    LearnDocsTokens(more, docs, t, x);
    RefreshKeeps(LearnDocs(more, docs));
  }

  /** Learning the elements adds just that. */
  lemma LearnedElements(T: Tables, tok: Tokenizer, c: Class, elements: seq<string>)
    ensures MoreElements(T, Learn(T, DocumentsOf(tok, c, elements)), tok, c, elements)
  {
    var docs := DocumentsOf(tok, c, elements);
    LearnAdds(T, docs, "", c);
    forall t, x
      ensures MoreElementsAt(T, Learn(T, docs), tok, c, elements, t, x)
    {
      LearnAdds(T, docs, t, x);
      DocumentsCounted(tok, c, elements, t, x);
    }
  }

  /** Unlearning them, when it succeeds, takes just that away. */
  lemma UnlearnedElements(T: Tables, tok: Tokenizer, c: Class, elements: seq<string>)
    requires Consistent(T) && Unlearn(T, DocumentsOf(tok, c, elements)).Some?
    ensures MoreElements(Unlearn(T, DocumentsOf(tok, c, elements)).value, T, tok, c, elements)
  {
    var docs := DocumentsOf(tok, c, elements);
    var T' := Unlearn(T, docs).value;
    UnlearnTakes(T, docs);
    forall t, x
      ensures MoreElementsAt(T', T, tok, c, elements, t, x)
    {
      DocumentsCounted(tok, c, elements, t, x);
    }
  }

  lemma UnlearnTakes(T: Tables, docs: seq<Document>)
    requires Consistent(T) && Unlearn(T, docs).Some?
    ensures Unlearn(T, docs).value.total == T.total - |docs|
    ensures forall t, x :: MoreBy(Unlearn(T, docs).value, T, t, x, DocCount(multiset(docs), x),
                                  TokenCount(multiset(docs), t, x))
  {
    var less := T.(total := T.total - |docs|);
    ConsistentWithLess(T, less.total);
    UnlearnDocsExact(less, docs);
  }

  lemma TwoBatches(a: seq<Document>, b: seq<Document>, t: Token, x: Class)
    ensures DocCount(multiset(a + b), x) == DocCount(multiset(a), x) + DocCount(multiset(b), x)
    ensures TokenCount(multiset(a + b), t, x) == TokenCount(multiset(a), t, x) + TokenCount(multiset(b), t, x)
  {
    assert multiset(a + b) == multiset(a) + multiset(b);
    TotalUnion(multiset(a), multiset(b), OfClass(x));
    TotalUnion(multiset(a), multiset(b), OfToken(t, x));
  }

  /** What is loaded from spam and ham elements. */
  lemma LoadedElements(tok: Tokenizer, spam: seq<string>, ham: seq<string>)
    ensures Loaded(Learn(EMPTY_TABLES, DocumentsOf(tok, "spam", spam) + DocumentsOf(tok, "ham", ham)), tok, spam, ham)
  {
    var a, b := DocumentsOf(tok, "spam", spam), DocumentsOf(tok, "ham", ham);
    LearnAdds(EMPTY_TABLES, a + b, "", "");
    forall t, x ensures LoadedAt(Learn(EMPTY_TABLES, a + b), tok, spam, ham, t, x) {
      LearnAdds(EMPTY_TABLES, a + b, t, x);
      TwoBatches(a, b, t, x);
      DocumentsCounted(tok, "spam", spam, t, x);
      DocumentsCounted(tok, "ham", ham, t, x);
    }
  }
}
