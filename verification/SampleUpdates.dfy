/** The detector's sample bookkeeping: the classifier, the similarity samples and the samples
    store, changed together in place. */
module SampleUpdates {
  import opened SampleStream
  import opened SampleStore
  import opened ClassifierTables
  import opened Classifier
  import opened SampleSimilarity
  import opened SampleMeaning
  import S = SampleSync

  lemma MeaningsAppend(a: seq<TokenList>, b: seq<TokenList>)
    ensures Meanings(a + b) == Meanings(a) + Meanings(b)
  {
  }

  datatype LoadResult = LoadResult(excludedTokens: nat, spamSamples: nat, hamSamples: nat)

  class Detector {
    /** How a line is tokenised when certain tokens are excluded, and lower case. */
    const tokenizer: set<string> -> Tokenizer
    const lower: string -> string
    const classifier: Classifier
    const store: Samples
    var excludedTokens: set<string>
    var tokenizedSpam: seq<map<Token, int>>
    var spamUpdater: bool
    var hamUpdater: bool

    constructor (tokenizer: set<string> -> Tokenizer, lower: string -> string, store: Samples,
                 spamUpdater: bool, hamUpdater: bool)
      ensures fresh(classifier) && this.store == store && this.tokenizer == tokenizer && this.lower == lower
      ensures classifier.View() == EMPTY_TABLES && tokenizedSpam == [] && excludedTokens == {}
    {
      this.tokenizer, this.lower, this.store := tokenizer, lower, store;
      classifier := new Classifier();
      excludedTokens, tokenizedSpam := {}, [];
      this.spamUpdater, this.hamUpdater := spamUpdater, hamUpdater;
    }

    function Tokenize(): Tokenizer
      reads this
    {
      tokenizer(excludedTokens)
    }

    ghost function View(): S.State
      reads classifier, store
    {
      S.State(classifier.View(), store.rows)
    }

    predicate HasUpdater(kind: Kind)
      reads this
    {
      if kind.Spam? then spamUpdater else hamUpdater
    }

    /** The documents of a message, one per line; the token order is that of a Go map. */
    method BuildDocs(elements: seq<string>, cls: Class) returns (docs: seq<TokenList>)
      ensures Meanings(docs) == DocumentsOf(Tokenize(), cls, elements)
    {
      docs := [];
      for i := 0 to |elements|
        invariant |docs| == i
        invariant forall j :: 0 <= j < i ==> Meaning(docs[j]) == Document(cls, Tokenize()(elements[j]).Keys)
      {
        var tokens := ListTokens(Tokenize()(elements[i]).Keys);
        docs := docs + [TokenList(cls, tokens)];
      }
    }

    method ListTokens(s: set<Token>) returns (tokens: seq<Token>)
      ensures SetOf(tokens) == s
    {
      tokens := [];
      var left := s;
      while left != {}
        invariant forall t :: t in tokens <==> t in s && t !in left
        invariant left <= s
      {
        var t :| t in left;
        tokens := tokens + [t];
        left := left - {t};
      }
    }

    /** Adds a sample: first to the store, then to the classifier and the similarity samples. */
    method UpdateSample(msg: string, kind: Kind, dbOk: bool) returns (ok: bool)
      modifies this, classifier, store
      ensures !old(HasUpdater(kind)) ==> ok && View() == old(View()) && tokenizedSpam == old(tokenizedSpam)
      ensures old(HasUpdater(kind)) ==> (View(), ok) == S.Updated(Tokenize(), old(View()), msg, kind, dbOk)
      ensures old(HasUpdater(kind)) ==>
                && tokenizedSpam == old(tokenizedSpam) + (if ok && kind.Spam? then [Tokenize()(msg)] else [])
                && tokenizedSpam == SimilarAfter(Tokenize(), old(View()), old(tokenizedSpam), S.Update(msg, kind, dbOk))
      ensures old((kind.Spam? && !spamUpdater) || (kind.Ham? && !hamUpdater)) ==> ok && View() == old(View())
      ensures old((kind.Spam? && spamUpdater) || (kind.Ham? && hamUpdater)) ==> (ok <==> msg != "" && dbOk)
      ensures old((kind.Spam? && spamUpdater) || (kind.Ham? && hamUpdater)) && ok ==>
                MoreElements(old(View()).tables, View().tables, Tokenize(),
                             if kind.Spam? then "spam" else "ham", Elements(msg))
      ensures spamUpdater == old(spamUpdater) && hamUpdater == old(hamUpdater) && excludedTokens == old(excludedTokens)
    {
      if !HasUpdater(kind) {
        return true;
      }
      ok := store.Add(kind, User, msg, dbOk);
      if !ok {
        return;
      }
      var docs := BuildDocs(Elements(msg), ClassOf(kind));
      LearnedElements(classifier.View(), Tokenize(), ClassOf(kind), Elements(msg));
      classifier.Learn(docs);
      if kind.Spam? {
        tokenizedSpam := tokenizedSpam + [Tokenize()(msg)];
      }
    }

    /** Removes a sample: unlearns it, then deletes it from the store, and learns it again when
        the store refuses. The similarity samples are not touched. */
    method RemoveSample(msg: string, kind: Kind, dbOk: bool) returns (ok: bool)
      modifies classifier, store
      ensures !HasUpdater(kind) ==> ok && View() == old(View())
      ensures HasUpdater(kind) ==>
                var r := S.Removed(Tokenize(), old(View()), msg, kind, dbOk);
                if r.None? then !ok && store.rows == old(store.rows) else (View(), ok) == r.value
      ensures HasUpdater(kind) && S.Removed(Tokenize(), old(View()), msg, kind, dbOk).None? ==>
                exists stop: nat, taken ::
                  StoppedAt(old(classifier.View()), MessageDocs(Tokenize(), kind, msg), classifier.View(), stop, taken)
      ensures (kind.Spam? && !spamUpdater) || (kind.Ham? && !hamUpdater) ==> ok && View() == old(View())
      ensures ((kind.Spam? && spamUpdater) || (kind.Ham? && hamUpdater)) && ok ==>
                msg in old(store.rows) && dbOk && store.rows == old(store.rows) - {msg}
      ensures ((kind.Spam? && spamUpdater) || (kind.Ham? && hamUpdater)) && ok && Consistent(old(View()).tables) ==>
                MoreElements(View().tables, old(View()).tables, Tokenize(),
                             if kind.Spam? then "spam" else "ham", Elements(msg))
    {
      if Consistent(View().tables)
         && ClassifierTables.Unlearn(View().tables, MessageDocs(Tokenize(), kind, msg)).Some? {
        UnlearnedElements(View().tables, Tokenize(), ClassOf(kind), Elements(msg));
      }
      if !HasUpdater(kind) {
        return true;
      }
      var docs := BuildDocs(Elements(msg), ClassOf(kind));
      ghost var stop, taken;
      ok, stop, taken := classifier.Unlearn(docs);
      if !ok {
        return;
      }
      ok := store.DeleteMessage(msg, dbOk);
      if !ok {
        classifier.Learn(docs);
      }
    }

    method ReadElements(readers: seq<string>) returns (elements: seq<string>)
      ensures elements == S.StreamsElements(readers)
    {
      elements := [];
      for i := 0 to |readers|
        invariant elements == S.StreamsElements(readers[..i])
      {
        assert readers[..i + 1][..i] == readers[..i];
        elements := elements + Elements(readers[i]);
      }
      assert readers[..|readers|] == readers;
    }

    method LoadDocs(spam: seq<string>, ham: seq<string>) returns (docs: seq<TokenList>)
      ensures Meanings(docs) == DocumentsOf(Tokenize(), "spam", spam) + DocumentsOf(Tokenize(), "ham", ham)
    {
      var spamDocs := BuildDocs(spam, "spam");
      var hamDocs := BuildDocs(ham, "ham");
      MeaningsAppend(spamDocs, hamDocs);
      docs := spamDocs + hamDocs;
    }

    method TokenizeAll(elements: seq<string>) returns (maps: seq<map<Token, int>>)
      ensures maps == SamplesOf(Tokenize(), elements)
    {
      maps := [];
      for i := 0 to |elements|
        invariant |maps| == i && forall j :: 0 <= j < i ==> maps[j] == Tokenize()(elements[j])
      {
        maps := maps + [Tokenize()(elements[i])];
      }
    }

    /** Reloads everything from the bytes of the readers. The excluded tokens come first, so they
        are left out of the samples. */
    method LoadSamples(exclReader: string, spamReaders: seq<string>, hamReaders: seq<string>) returns (r: LoadResult)
      modifies this, classifier
      ensures excludedTokens == set e | e in Elements(exclReader) :: lower(e)
      ensures classifier.View()
           == ClassifierTables.Learn(EMPTY_TABLES, S.LoadedDocs(Tokenize(), spamReaders, hamReaders))
      ensures Loaded(classifier.View(), Tokenize(), S.StreamsElements(spamReaders), S.StreamsElements(hamReaders))
      ensures tokenizedSpam == SamplesOf(Tokenize(), S.StreamsElements(spamReaders))
      ensures r == LoadResult(|excludedTokens|, |S.StreamsElements(spamReaders)|, |S.StreamsElements(hamReaders)|)
      ensures store.rows == old(store.rows) && spamUpdater == old(spamUpdater) && hamUpdater == old(hamUpdater)
    {
      classifier.Reset();
      LoadExcluded(Elements(exclReader));
      var spam := ReadElements(spamReaders);
      var ham := ReadElements(hamReaders);
      tokenizedSpam := TokenizeAll(spam);
      var docs := LoadDocs(spam, ham);
      classifier.Learn(docs);
      LoadedElements(Tokenize(), spam, ham);
      r := LoadResult(|excludedTokens|, |spam|, |ham|);
    }

    method LoadExcluded(elements: seq<string>)
      modifies `excludedTokens
      ensures excludedTokens == set e | e in elements :: lower(e)
    {
      excludedTokens := {};
      for i := 0 to |elements|
        invariant excludedTokens == set e | e in elements[..i] :: lower(e)
      {
        assert elements[..i + 1] == elements[..i] + [elements[i]];
        excludedTokens := excludedTokens + {lower(elements[i])};
      }
      assert elements[..|elements|] == elements;
    }
  }
}
