/** The classifier object: four tables and a counter, updated in place. */
module Classifier {
  import opened Sequences
  import opened Sums
  import opened ClassifierTables
  import opened ClassifierMeaning
  import opened Decision
  import opened DecisionMeaning

  function SetOf(ts: seq<Token>): set<Token> {
    set t | t in ts
  }

  predicate Distinct(ts: seq<Token>) {
    forall i, j :: 0 <= i < j < |ts| ==> ts[i] != ts[j]
  }

  /** The distinct tokens, in an order that depends on the iteration of a Go map. */
  method RemoveDuplicate(tokens: seq<Token>) returns (unique: seq<Token>)
    ensures Distinct(unique) && SetOf(unique) == SetOf(tokens)
    ensures |unique| == |SetOf(tokens)|
  {
    var left: set<Token> := set t | t in tokens;
    unique := [];
    while left != {}
      invariant Distinct(unique)
      invariant (SetOf(unique) !! left) && SetOf(unique) + left == SetOf(tokens)
      invariant |unique| + |left| == |SetOf(tokens)|
    {
      var t :| t in left;
      left := left - {t};
      unique := unique + [t];
    }
  }

  lemma SetOfSnoc(ts: seq<Token>, k: nat)
    requires k < |ts| && Distinct(ts)
    ensures SetOf(ts[..k + 1]) == SetOf(ts[..k]) + {ts[k]} && ts[k] !in SetOf(ts[..k])
  {
    assert ts[..k + 1] == ts[..k] + [ts[k]];
  }

  lemma LearnTokenStep(r: Results, s: set<Token>, t: Token, c: Class)
    requires t !in s
    ensures var r' := LearnTokens(r, s, c);
            r'[t := Bump(Row(r', t), c, 1)] == LearnTokens(r, s + {t}, c)
  {
  }

  /** r' is r after taking one occurrence of each token of s out of class c. */
  ghost predicate TokensGone(r: Results, r': Results, s: set<Token>, c: Class) {
    r' == UnlearnTokens(r, s, c)
  }

  lemma TokensGoneStart(r: Results, c: Class)
    ensures TokensGone(r, r, {}, c)
  {
  }

  lemma TokensGoneStep(r: Results, r': Results, s: set<Token>, t: Token, c: Class)
    requires TokensGone(r, r', s, c) && t !in s
    ensures Count(r', t, c) == Count(r, t, c)
    ensures t in r' ==>
              var row := Lower(r'[t], c);
              TokensGone(r, if row.Keys == {} then r' - {t} else r'[t := row], s + {t}, c)
  {
  }

  /** The frequency table and the guards after taking the tokens s of class c out of r and f. */
  ghost predicate PartlyUnlearned(r: Results, f: map<Class, int>, f': map<Class, int>, s: set<Token>, c: Class) {
    && f' == (if s == {} then f else Bump(f, c, -|s|))
    && TokensAvailable(r, f, s, c)
  }

  lemma PartlyUnlearnedStep(r: Results, f: map<Class, int>, f': map<Class, int>, s: set<Token>, c: Class, t: Token)
    requires PartlyUnlearned(r, f, f', s, c) && t !in s
    ensures if Get(f', c) > 0 && Count(r, t, c) > 0 then PartlyUnlearned(r, f, Bump(f', c, -1), s + {t}, c)
            else !TokensAvailable(r, f, s + {t}, c)
  {
    assert Bump(f', c, -1) == Bump(f, c, -|s + {t}|);
  }

  lemma StoppingStep(f: map<Class, int>, c: Class, s: set<Token>, f': map<Class, int>)
    requires f' == (if s == {} then f else Bump(f, c, -|s|))
    ensures Stopping(f, c, |s|) == if Get(f', c) <= 0 then f' else Bump(f', c, -1)
  {
  }

  lemma FewerAvailable(r: Results, f: map<Class, int>, s: set<Token>, ts: set<Token>, c: Class)
    requires s <= ts && s != {} && TokensAvailable(r, f, ts, c)
    ensures TokensAvailable(r, f, s, c)
  {
    assert |ts| == |s| + |ts - s|;
  }

  /** When the next token is missing, the call fails and leaves this behind. */
  lemma MissingToken(r: Results, f: map<Class, int>, f': map<Class, int>, s: set<Token>, all: set<Token>,
                     c: Class, t: Token)
    requires PartlyUnlearned(r, f, f', s, c) && s < all && t in all && t !in s
    requires Get(f', c) <= 0 || Count(r, t, c) <= 0
    ensures !TokensAvailable(r, f, all, c)
    ensures TokensAvailable(r, f, s, c)
    ensures Stopping(f, c, |s|) == if Get(f', c) <= 0 then f' else Bump(f', c, -1)
  {
    PartlyUnlearnedStep(r, f, f', s, c, t);
    if TokensAvailable(r, f, all, c) {
      FewerAvailable(r, f, s + {t}, all, c);
    }
    StoppingStep(f, c, s, f');
  }

  lemma LearnNoTokens(r: Results, c: Class)
    ensures LearnTokens(r, {}, c) == r
  {
  }

  /** Class c still stands at its prior, or has all its factors. */
  ghost predicate PosteriorAt(T: Tables, ts: set<Token>, post: map<Class, real>, c: Class, pending: bool)
    requires c in post
  {
    post[c] == if pending then PriorOf(T, c) else Weight(T, ts, c)
  }

  /** The classes left still stand at their priors. */
  ghost predicate PosteriorsAt(T: Tables, ts: set<Token>, post: map<Class, real>, left: set<Class>) {
    post.Keys == T.priors.Keys && forall c :: c in post ==> PosteriorAt(T, ts, post, c, c in left)
  }

  lemma PosteriorStep(T: Tables, ts: set<Token>, post: map<Class, real>, left: set<Class>, c: Class)
    requires PosteriorsAt(T, ts, post, left) && c in post && c in left
    ensures post[c] == PriorOf(T, c) && PosteriorsAt(T, ts, post[c := Weight(T, ts, c)], left - {c})
  {
    assert PosteriorAt(T, ts, post, c, true);
    var next := post[c := Weight(T, ts, c)];
    forall d | d in next ensures PosteriorAt(T, ts, next, d, d in left - {c}) {
      assert PosteriorAt(T, ts, post, d, d in left);
    }
  }

  /** Unbounded, as far as seen when the classes left are still to come. */
  ghost function UnboundedBut(T: Tables, ts: set<Token>, left: set<Class>): set<Class> {
    set c | c in T.priors
            && (T.priors[c].total == 0 || (c in T.freq && c !in left && ts != {} && T.freq[c] + |T.results| == 0))
  }

  ghost predicate Pending(T: Tables, ts: set<Token>, post: map<Class, real>, unbounded: set<Class>, left: set<Class>) {
    PosteriorsAt(T, ts, post, left) && unbounded == UnboundedBut(T, ts, left)
  }

  lemma PendingStart(T: Tables, ts: set<Token>, post: map<Class, real>, unbounded: set<Class>)
    requires post == map c | c in T.priors :: PriorOf(T, c)
    requires unbounded == set c | c in T.priors && T.priors[c].total == 0
    ensures Pending(T, ts, post, unbounded, T.freq.Keys)
  {
    forall c | c in post ensures PosteriorAt(T, ts, post, c, c in T.freq.Keys) {
    }
  }

  /** One class more: w and infinite are what its tokens make of its prior. */
  lemma PendingStep(T: Tables, ts: set<Token>, post: map<Class, real>, unbounded: set<Class>, left: set<Class>,
                    c: Class, w: real, infinite: bool)
    requires Pending(T, ts, post, unbounded, left) && c in post && c in left && c in T.freq
    requires w == Product(post[c], ts, FactorOf(T, c))
    requires infinite <==> ts != {} && T.freq[c] + |T.results| == 0
    ensures Pending(T, ts, post[c := w], unbounded + if infinite then {c} else {}, left - {c})
  {
    PosteriorStep(T, ts, post, left, c);
  }

  lemma PendingEnd(T: Tables, ts: set<Token>, post: map<Class, real>, unbounded: set<Class>)
    requires Pending(T, ts, post, unbounded, {})
    ensures post == Weights(T, ts) && unbounded == Unbounded(T, ts)
  {
    forall c | c in post ensures post[c] == Weight(T, ts, c) {
      assert PosteriorAt(T, ts, post, c, false);
    }
  }

  /** A prior times the factor of each token, multiplied up in any order. */
  method MultiplyFactors(prior: real, tokens: seq<Token>, factor: Token -> real) returns (w: real)
    requires Distinct(tokens)
    ensures w == Product(prior, SetOf(tokens), factor)
  {
    w := prior;
    ghost var s: set<Token> := {};
    var k := 0;
    while k < |tokens|
      invariant 0 <= k <= |tokens| && s == SetOf(tokens[..k])
      invariant w == Product(prior, s, factor)
    {
      SetOfSnoc(tokens, k);
      ProductAdd(prior, s, tokens[k], factor);
      w := Times(w, factor(tokens[k]));
      s := s + {tokens[k]};
      k := k + 1;
    }
    assert tokens[..k] == tokens;
  }

  /** A document as the program passes it: a slice of tokens, in any order, maybe repeated. */
  datatype TokenList = TokenList(cls: Class, tokens: seq<Token>)

  function Meaning(d: TokenList): Document {
    Document(d.cls, SetOf(d.tokens))
  }

  function Meanings(docs: seq<TokenList>): (ds: seq<Document>)
    ensures |ds| == |docs| && forall i :: 0 <= i < |ds| ==> ds[i] == Meaning(docs[i])
  {
    seq(|docs|, i requires 0 <= i < |docs| => Meaning(docs[i]))
  }

  lemma LearnDocsStep(T: Tables, docs: seq<Document>, i: nat)
    requires i < |docs|
    ensures LearnDocs(T, docs[..i + 1]) == LearnDoc(LearnDocs(T, docs[..i]), docs[i])
  {
    assert docs[..i + 1][..i] == docs[..i];
  }

  /** The priors are refreshed but for the classes left. */
  ghost predicate PartlyRefreshed(T: Tables, priors: map<Class, Prior>, left: set<Class>) {
    priors == T.priors + map c | c in T.docs && c !in left :: Prior(T.docs[c], T.total)
  }

  lemma PartlyRefreshedStep(T: Tables, priors: map<Class, Prior>, left: set<Class>, c: Class)
    requires PartlyRefreshed(T, priors, left) && c in left && c in T.docs
    ensures PartlyRefreshed(T, priors[c := Prior(T.docs[c], T.total)], left - {c})
  {
  }

  lemma LearnParts(T: Tables, docs: seq<Document>, raised: Tables, learned: Tables)
    requires raised == T.(total := T.total + |docs|) && learned == LearnDocs(raised, docs)
    ensures RefreshPriors(learned) == ClassifierTables.Learn(T, docs)
  {
  }

  lemma UnlearnDocsStep(T: Tables, docs: seq<Document>, i: nat)
    requires i < |docs| && UnlearnDocs(T, docs[..i]).Some?
    ensures var before := UnlearnDocs(T, docs[..i]).value;
            UnlearnDocs(T, docs[..i + 1]) ==
            if CanUnlearn(before, docs[i]) then Some(UnlearnDoc(before, docs[i])) else None
  {
    assert docs[..i + 1][..i] == docs[..i];
  }

  class Classifier {
    var learningResults: Results
    var priorProbabilities: map<Class, Prior>
    var nDocumentByClass: map<Class, int>
    var nFrequencyByClass: map<Class, int>
    var nAllDocument: int

    constructor ()
      ensures View() == EMPTY_TABLES
    {
      learningResults, priorProbabilities, nDocumentByClass, nFrequencyByClass, nAllDocument :=
        map[], map[], map[], map[], 0;
    }

    function View(): Tables
      reads this
    {
      Tables(learningResults, nDocumentByClass, nFrequencyByClass, priorProbabilities, nAllDocument)
    }

    method Reset()
      modifies this
      ensures View() == EMPTY_TABLES
    {
      learningResults, priorProbabilities, nDocumentByClass, nFrequencyByClass, nAllDocument :=
        map[], map[], map[], map[], 0;
    }

    method LearnToken(t: Token, c: Class)
      modifies `learningResults, `nFrequencyByClass
      ensures learningResults == old(learningResults)[t := Bump(Row(old(learningResults), t), c, 1)]
      ensures nFrequencyByClass == Bump(old(nFrequencyByClass), c, 1)
    {
      nFrequencyByClass := Bump(nFrequencyByClass, c, 1);
      if t !in learningResults {
        learningResults := learningResults[t := map[]];
      }
      learningResults := learningResults[t := Bump(learningResults[t], c, 1)];
    }

    method LearnTokensOf(d: TokenList)
      modifies `learningResults, `nFrequencyByClass
      ensures learningResults == LearnTokens(old(learningResults), SetOf(d.tokens), d.cls)
      ensures nFrequencyByClass == if SetOf(d.tokens) == {} then old(nFrequencyByClass)
                                   else Bump(old(nFrequencyByClass), d.cls, |SetOf(d.tokens)|)
    {
      var tokens := RemoveDuplicate(d.tokens);
      ghost var r, f, s := learningResults, nFrequencyByClass, {};
      LearnNoTokens(r, d.cls);
      var k := 0;
      while k < |tokens|
        invariant 0 <= k <= |tokens| && s == SetOf(tokens[..k])
        invariant learningResults == LearnTokens(r, s, d.cls)
        invariant nFrequencyByClass == if k == 0 then f else Bump(f, d.cls, k)
      {
        SetOfSnoc(tokens, k);
        LearnTokenStep(r, s, tokens[k], d.cls);
        LearnToken(tokens[k], d.cls);
        s := s + {tokens[k]};
        k := k + 1;
      }
      assert tokens[..k] == tokens;
    }

    method LearnDocument(d: TokenList)
      modifies `nDocumentByClass, `learningResults, `nFrequencyByClass
      ensures View() == LearnDoc(old(View()), Meaning(d))
    {
      nDocumentByClass := Bump(nDocumentByClass, d.cls, 1);
      LearnTokensOf(d);
    }

    method LearnDocuments(docs: seq<TokenList>)
      modifies `nDocumentByClass, `learningResults, `nFrequencyByClass
      ensures View() == LearnDocs(old(View()), Meanings(docs))
    {
      ghost var T, ds := View(), Meanings(docs);
      var i := 0;
      while i < |docs|
        invariant 0 <= i <= |docs|
        invariant View() == LearnDocs(T, ds[..i])
      {
        LearnDocsStep(T, ds, i);
        LearnDocument(docs[i]);
        i := i + 1;
      }
      assert ds[..i] == ds;
    }

    method RaiseTotal(n: nat)
      modifies `nAllDocument
      ensures View() == old(View()).(total := old(nAllDocument) + n)
    {
      nAllDocument := nAllDocument + n;
    }

    /** Adds documents and recomputes the prior of every class. */
    method Learn(docs: seq<TokenList>)
      modifies this
      ensures View() == ClassifierTables.Learn(old(View()), Meanings(docs))
    {
      ghost var T := View();
      RaiseTotal(|docs|);
      ghost var raised := View();
      LearnDocuments(docs);
      LearnParts(T, Meanings(docs), raised, View());
      RefreshAllPriors();
    }

    method RefreshAllPriors()
      modifies `priorProbabilities
      ensures View() == RefreshPriors(old(View()))
    {
      var left := nDocumentByClass.Keys;
      ghost var T := View();
      while left != {}
        invariant left <= nDocumentByClass.Keys
        invariant PartlyRefreshed(T, priorProbabilities, left)
      {
        var c :| c in left;
        PartlyRefreshedStep(T, priorProbabilities, left, c);
        priorProbabilities := priorProbabilities[c := Prior(nDocumentByClass[c], nAllDocument)];
        left := left - {c};
      }
    }

    /** Takes one occurrence of a token out of a class, dropping entries that become empty. */
    method UnlearnToken(t: Token, c: Class) returns (ok: bool)
      modifies `learningResults, `nFrequencyByClass
      ensures ok <==> Get(old(nFrequencyByClass), c) > 0 && Count(old(learningResults), t, c) > 0
      ensures ok ==> nFrequencyByClass == Bump(old(nFrequencyByClass), c, -1)
      ensures ok ==> var row := Lower(old(learningResults)[t], c);
                     learningResults == if row.Keys == {} then old(learningResults) - {t}
                                        else old(learningResults)[t := row]
      ensures !ok ==> learningResults == old(learningResults)
      ensures !ok ==> nFrequencyByClass == if Get(old(nFrequencyByClass), c) <= 0 then old(nFrequencyByClass)
                                           else Bump(old(nFrequencyByClass), c, -1)
    {
      if Get(nFrequencyByClass, c) <= 0 {
        return false;
      }
      nFrequencyByClass := Bump(nFrequencyByClass, c, -1);
      if Count(learningResults, t, c) <= 0 {
        return false;
      }
      var row := Bump(learningResults[t], c, -1);
      if row[c] == 0 {
        row := row - {c};
        assert row == learningResults[t] - {c};
      }
      learningResults := if |row.Keys| == 0 then learningResults - {t} else learningResults[t := row];
      ok := true;
    }

    /** Takes the tokens of a document out of its class; stops at the first missing one. */
    method UnlearnTokensOf(d: TokenList) returns (ok: bool, ghost taken: set<Token>)
      modifies `learningResults, `nFrequencyByClass
      ensures ok <==> TokensAvailable(old(learningResults), old(nFrequencyByClass), SetOf(d.tokens), d.cls)
      ensures ok ==> learningResults == UnlearnTokens(old(learningResults), SetOf(d.tokens), d.cls)
      ensures ok ==> nFrequencyByClass == if SetOf(d.tokens) == {} then old(nFrequencyByClass)
                                          else Bump(old(nFrequencyByClass), d.cls, -|SetOf(d.tokens)|)
      ensures !ok ==> taken < SetOf(d.tokens)
                      && TokensAvailable(old(learningResults), old(nFrequencyByClass), taken, d.cls)
                      && learningResults == UnlearnTokens(old(learningResults), taken, d.cls)
                      && nFrequencyByClass == Stopping(old(nFrequencyByClass), d.cls, |taken|)
    {
      var tokens := RemoveDuplicate(d.tokens);
      ghost var r, f, s := learningResults, nFrequencyByClass, {};
      TokensGoneStart(r, d.cls);
      var k := 0;
      while k < |tokens|
        invariant 0 <= k <= |tokens| && s == SetOf(tokens[..k]) && |s| == k
        invariant TokensGone(r, learningResults, s, d.cls)
        invariant PartlyUnlearned(r, f, nFrequencyByClass, s, d.cls)
      {
        SetOfSnoc(tokens, k);
        assert SetOf(tokens) == SetOf(d.tokens) && tokens[k] in SetOf(tokens);
        PartlyUnlearnedStep(r, f, nFrequencyByClass, s, d.cls, tokens[k]);
        TokensGoneStep(r, learningResults, s, tokens[k], d.cls);
        if Get(nFrequencyByClass, d.cls) <= 0 || Count(r, tokens[k], d.cls) <= 0 {
          MissingToken(r, f, nFrequencyByClass, s, SetOf(d.tokens), d.cls, tokens[k]);
        }
        taken := s;
        ok := UnlearnToken(tokens[k], d.cls);
        if !ok {
          return;
        }
        s := s + {tokens[k]};
        k := k + 1;
      }
      assert tokens[..k] == tokens;
      ok, taken := true, s;
    }

    method SettleClass(c: Class)
      modifies `nDocumentByClass, `nFrequencyByClass, `priorProbabilities
      ensures View() == ClassifierTables.SettleClass(old(View()), c)
    {
      if Get(nDocumentByClass, c) == 0 {
        nDocumentByClass := nDocumentByClass - {c};
        nFrequencyByClass := nFrequencyByClass - {c};
        priorProbabilities := priorProbabilities - {c};
      } else {
        priorProbabilities := priorProbabilities[c := Prior(Get(nDocumentByClass, c), nAllDocument)];
      }
    }

    method UnlearnDocument(d: TokenList) returns (ok: bool, ghost taken: set<Token>)
      modifies `nDocumentByClass, `learningResults, `nFrequencyByClass, `priorProbabilities
      ensures ok <==> CanUnlearn(old(View()), Meaning(d))
      ensures ok ==> View() == UnlearnDoc(old(View()), Meaning(d))
      ensures !ok ==> Stopped(old(View()), View(), Meaning(d), taken)
    {
      if Get(nDocumentByClass, d.cls) <= 0 {
        return false, {};
      }
      nDocumentByClass := Bump(nDocumentByClass, d.cls, -1);
      ok, taken := UnlearnTokensOf(d);
      if ok {
        SettleClass(d.cls);
      }
    }

    method UnlearnDocuments(docs: seq<TokenList>) returns (ok: bool, ghost stop: nat, ghost taken: set<Token>)
      modifies `nDocumentByClass, `learningResults, `nFrequencyByClass, `priorProbabilities
      ensures ok <==> UnlearnDocs(old(View()), Meanings(docs)).Some?
      ensures ok ==> View() == UnlearnDocs(old(View()), Meanings(docs)).value
      ensures !ok ==> stop < |docs|
                      && var V := UnlearnDocs(old(View()), Meanings(docs)[..stop]);
                         V.Some? && !CanUnlearn(V.value, Meanings(docs)[stop])
                         && Stopped(V.value, View(), Meanings(docs)[stop], taken)
    {
      stop, taken := 0, {};
      ghost var T, ds := View(), Meanings(docs);
      var i := 0;
      while i < |docs|
        invariant 0 <= i <= |docs|
        invariant UnlearnDocs(T, ds[..i]) == Some(View())
      {
        UnlearnDocsStep(T, ds, i);
        ok, taken := UnlearnDocument(docs[i]);
        if !ok {
          FailedPrefix(T, ds, i + 1);
          return false, i, taken;
        }
        i := i + 1;
      }
      assert ds[..i] == ds;
      ok := true;
    }

    /** Takes documents out again. When the program returns an error, ok is false, and the tables
        have been changed up to some token of the document at position stop. */
    method Unlearn(docs: seq<TokenList>) returns (ok: bool, ghost stop: nat, ghost taken: set<Token>)
      modifies this
      ensures ok <==> ClassifierTables.Unlearn(old(View()), Meanings(docs)).Some?
      ensures ok ==> View() == ClassifierTables.Unlearn(old(View()), Meanings(docs)).value
      ensures !ok ==> StoppedAt(old(View()), Meanings(docs), View(), stop, taken)
    {
      if |docs| > nAllDocument {
        return false, 0, {};
      }
      nAllDocument := nAllDocument - |docs|;
      ok, stop, taken := UnlearnDocuments(docs);
    }

    /** The priors, and the classes whose prior has a zero denominator. */
    method Priors() returns (post: map<Class, real>, unbounded: set<Class>)
      ensures post == map c | c in View().priors :: PriorOf(View(), c)
      ensures unbounded == set c | c in View().priors && View().priors[c].total == 0
    {
      post := map c | c in priorProbabilities :: PriorOf(View(), c);
      unbounded := set c | c in priorProbabilities && priorProbabilities[c].total == 0;
    }

    method Posteriors(tokens: seq<Token>) returns (post: map<Class, real>, unbounded: set<Class>)
      requires Distinct(tokens) && Sane(View())
      ensures post == Weights(View(), SetOf(tokens))
      ensures unbounded == Unbounded(View(), SetOf(tokens))
    {
      ghost var T, ts := View(), SetOf(tokens);
      post, unbounded := Priors();
      PendingStart(T, ts, post, unbounded);
      var left := nFrequencyByClass.Keys;
      while left != {}
        invariant left <= nFrequencyByClass.Keys <= post.Keys
        invariant Pending(T, ts, post, unbounded, left)
      {
        var c :| c in left;
        var w, infinite := ClassWeight(c, post[c], tokens);
        PendingStep(T, ts, post, unbounded, left, c, w, infinite);
        post := post[c := w];
        unbounded := unbounded + if infinite then {c} else {};
        left := left - {c};
      }
      PendingEnd(T, ts, post, unbounded);
    }

    /** The factors of one class, and whether one of them has a zero denominator. */
    method ClassWeight(c: Class, prior: real, tokens: seq<Token>) returns (w: real, infinite: bool)
      requires Distinct(tokens) && c in nFrequencyByClass
      ensures w == Product(prior, SetOf(tokens), FactorOf(View(), c))
      ensures infinite <==> SetOf(tokens) != {} && View().freq[c] + |View().results| == 0
    {
      w := MultiplyFactors(prior, tokens, FactorOf(View(), c));
      infinite := |tokens| > 0 && nFrequencyByClass[c] + |learningResults| == 0;
      assert |tokens| > 0 ==> tokens[0] in SetOf(tokens);
    }

    /** The class, its probability in percent, and whether no other class is as probable. */
    method Classify(tokens: seq<Token>) returns (best: Class, prob: real, certain: bool)
      requires Sane(View())
      ensures Decides(Weights(View(), SetOf(tokens)), Unbounded(View(), SetOf(tokens)), best, prob, certain)
      ensures tokens == [] ==>
                forall D :: |D| > 0 && Describes(View(), D) && Fresh(View()) ==>
                  (certain <==> exists c :: MostDocuments(D, c)) && (certain ==> MostDocuments(D, best))
    {
      var unique := RemoveDuplicate(tokens);
      var post, unbounded := Posteriors(unique);
      forall c | c in post ensures post[c] >= 0.0 {
        WeightNonNegative(View(), SetOf(tokens), c);
      }
      best, prob, certain := Decide(post, unbounded);
      if tokens == [] {
        assert SetOf(tokens) == {};
        forall D | |D| > 0 && Describes(View(), D) && Fresh(View())
          ensures (certain <==> exists c :: MostDocuments(D, c)) && (certain ==> MostDocuments(D, best))
        {
          NothingToGoBy(View(), D, best, prob, certain);
        }
      }
    }

    /** The classifier check of a message. */
    method IsSpamClassified(tokens: seq<Token>, minProbability: real) returns (spam: bool)
      requires Sane(View())
      ensures spam <==> IsSpamBy(Weights(View(), SetOf(tokens)), Unbounded(View(), SetOf(tokens)), minProbability)
    {
      ghost var w, unbounded := Weights(View(), SetOf(tokens)), Unbounded(View(), SetOf(tokens));
      var cls, prob, certain := Classify(tokens);
      spam := cls == SPAM && certain && (minProbability == 0.0 || prob >= minProbability);
      if q :| Decides(w, unbounded, SPAM, q, true) && (minProbability == 0.0 || q >= minProbability) {
        DecisionUnique(w, unbounded, cls, prob, certain, SPAM, q, true);
      }
    }
  }

  /** A batch fails as soon as one of its prefixes does. */
  lemma {:induction false} FailedPrefix(T: Tables, docs: seq<Document>, i: nat)
    requires i <= |docs| && UnlearnDocs(T, docs[..i]).None?
    ensures UnlearnDocs(T, docs).None?
    decreases |docs|
  {
    if i < |docs| {
      assert docs[..|docs| - 1][..i] == docs[..i];
      FailedPrefix(T, docs[..|docs| - 1], i);
    } else {
      assert docs[..i] == docs;
    }
  }
}
