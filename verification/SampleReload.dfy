/** Reloading the detector from the store, through readers that serve any buffers. */
module SampleReload {
  import opened Sequences
  import opened SampleStream
  import opened SampleStore
  import opened SampleSync
  import opened SampleSimilarity
  import opened SampleUpdates
  import opened SampleMeaning
  import opened ClassifierTables
  import opened ClassifierLaws

  predicate HasPreset(rows: Rows, kind: Kind) {
    exists m :: m in rows && Selects(rows[m], kind, Preset)
  }

  /** The rows as the four readers list them. */
  datatype Listing = Listing(spamPreset: seq<string>, spamUser: seq<string>,
                             hamPreset: seq<string>, hamUser: seq<string>)

  ghost predicate ListingOf(rows: Rows, l: Listing) {
    ListedAs(rows, l.spamPreset, l.spamUser, l.hamPreset, l.hamUser)
  }

  predicate SpamLossless(l: Listing) {
    Lossless(l.spamPreset) && Lossless(l.spamUser)
  }

  predicate HamLossless(l: Listing) {
    Lossless(l.hamPreset) && Lossless(l.hamUser)
  }

  function DocsRead(tok: Tokenizer, l: Listing): seq<Document> {
    Reloaded(tok, l.spamPreset, l.spamUser, l.hamPreset, l.hamUser)
  }

  function SpamRead(l: Listing): seq<string> {
    StreamsElements([Stream(l.spamPreset), Stream(l.spamUser)])
  }

  function HamRead(l: Listing): seq<string> {
    StreamsElements([Stream(l.hamPreset), Stream(l.hamUser)])
  }

  class SpamFilter {
    const detector: Detector

    constructor (detector: Detector)
      ensures this.detector == detector
    {
      this.detector := detector;
    }

    method ReadSamples(kind: Kind, origin: Origin, sizes: nat -> nat) returns (text: string, ghost order: seq<string>)
      requires forall i :: sizes(i) > 0
      ensures text == Stream(order) && Lists(order, detector.store.rows, kind, origin)
      ensures exists listed :: Lists(listed, detector.store.rows, kind, origin) && text == Stream(listed)
    {
      var reader;
      reader, order := detector.store.Reader(kind, origin);
      text := reader.ReadAll(sizes);
    }

    /** Refuses when a kind has no preset samples or the store fails. Otherwise everything is read
        anew, with buffers of any sizes and rows in any order; `excluded` is the dictionary's text.
        When the excluded tokens are as before, tables in step with the store keep their counts
        exactly when no reader loses documents, and similarity samples in step with it stay, up to
        their order, exactly when neither spam reader does. */
    method ReloadSamples(excluded: string, sizes: nat -> nat, dbOk: bool)
      returns (r: Option<LoadResult>, ghost l: Listing)
      requires forall i :: sizes(i) > 0
      modifies detector, detector.classifier
      ensures r.Some? <==>
                && dbOk
                && (exists m :: m in detector.store.rows && detector.store.rows[m] == Sample(Spam, Preset))
                && (exists m :: m in detector.store.rows && detector.store.rows[m] == Sample(Ham, Preset))
      ensures detector.store.rows == old(detector.store.rows)
      ensures r.None? ==>
                && detector.View() == old(detector.View())
                && detector.tokenizedSpam == old(detector.tokenizedSpam)
                && detector.excludedTokens == old(detector.excludedTokens)
      ensures r.Some? ==>
                && ListingOf(detector.store.rows, l)
                && detector.excludedTokens == (set e | e in Elements(excluded) :: detector.lower(e))
                && detector.classifier.View() == Learn(EMPTY_TABLES, DocsRead(detector.Tokenize(), l))
                && Loaded(detector.classifier.View(), detector.Tokenize(),
                          Elements(Stream(l.spamPreset)) + Elements(Stream(l.spamUser)),
                          Elements(Stream(l.hamPreset)) + Elements(Stream(l.hamUser)))
                && detector.tokenizedSpam == SamplesOf(detector.Tokenize(), SpamRead(l))
                && r.value == LoadResult(|detector.excludedTokens|, |SpamRead(l)|, |HamRead(l)|)
      ensures r.Some? && NoneAny(detector.store.rows) && detector.excludedTokens == old(detector.excludedTokens) ==>
                && (InSync(detector.Tokenize(), old(detector.View())) ==>
                      (SameCounts(old(detector.classifier.View()), detector.classifier.View())
                       <==> SpamLossless(l) && HamLossless(l)))
                && (SimilarInSync(detector.Tokenize(), detector.store.rows, old(detector.tokenizedSpam)) ==>
                      (multiset(old(detector.tokenizedSpam)) == multiset(detector.tokenizedSpam) <==> SpamLossless(l)))
    {
      l := Listing([], [], [], []);
      if !dbOk || !HasPreset(detector.store.rows, Spam) || !HasPreset(detector.store.rows, Ham) {
        return None, l;
      }
      ghost var before, similar := detector.View(), detector.tokenizedSpam;
      ghost var sp, su, hp, hu;
      var spam, spamDynamic, ham, hamDynamic;
      spam, sp := ReadSamples(Spam, Preset, sizes);
      ham, hp := ReadSamples(Ham, Preset, sizes);
      spamDynamic, su := ReadSamples(Spam, User, sizes);
      hamDynamic, hu := ReadSamples(Ham, User, sizes);
      l := Listing(sp, su, hp, hu);
      var loaded := detector.LoadSamples(excluded, [spam, spamDynamic], [ham, hamDynamic]);
      r := Some(loaded);
      TwoStreams(sp, su);
      TwoStreams(hp, hu);
      Unchanged(detector.Tokenize(), before, similar, l);
    }
  }

  /** What a reload makes of tables and samples that are in step with the store. */
  lemma Unchanged(tok: Tokenizer, st: State, similar: seq<TokenCounts>, l: Listing)
    requires ListingOf(st.rows, l)
    ensures NoneAny(st.rows) && InSync(tok, st) ==>
              (SameCounts(st.tables, Learn(EMPTY_TABLES, DocsRead(tok, l))) <==> SpamLossless(l) && HamLossless(l))
    ensures NoneAny(st.rows) && SimilarInSync(tok, st.rows, similar) ==>
              (multiset(similar) == multiset(SamplesOf(tok, SpamRead(l))) <==> SpamLossless(l))
  {
    if NoneAny(st.rows) && InSync(tok, st) {
      ReloadIff(tok, st, l.spamPreset, l.spamUser, l.hamPreset, l.hamUser);
    }
    if NoneAny(st.rows) && SimilarInSync(tok, st.rows, similar) {
      SimilarReloadIff(tok, st.rows, similar, l.spamPreset, l.spamUser, l.hamPreset, l.hamUser);
    }
  }
}
