# tg-spam in Dafny

A model of the stateful parts of tg-spam, an anti-spam bot for Telegram groups, with proofs about every
run of them. `dafny verify dfyconfig.toml` checks the whole project.

## What is modelled

**Duplicate messages** (`DuplicateLog`, `DuplicateTrackers`, `DuplicateDetector`, `DuplicateRuns`, `DuplicateMeaning`,
`DuplicateSafety`, `DuplicateTime`). Each user has a log of messages and a table of trackers derived from it. The
class `Detector` updates both in place, as the program does, and is proved against a specification that knows only the
log. Over all runs: ids are unique, the trackers agree with the log, the ids offered for deletion are earlier live
copies, cleanup and expiry cannot be observed, and the reported span lies inside the window. The moment of a message
is a parameter, since the program reads the clock before it takes the lock.

**The classifier and its samples** (`ClassifierTables`, `ClassifierMeaning`, `ClassifierUnlearning`, `ClassifierLaws`,
`ClassifierReload`, `ClassifierFailures`, `Classifier`, `Decision`, `DecisionMeaning`, `Similarity`, `SampleStream`,
`SampleStore`, `SampleSync`, `SampleSimilarity`, `SampleMeaning`, `SampleUpdates`, `SampleReload`). The tables are
summaries of a multiset of documents; `Describes` says so exactly, and learning and unlearning keep it. A prior is
kept as the pair (documents of the class, documents in all), so unlearning everything divides nothing by zero. The
decision is stated on products of ratios instead of sums of logarithms; a zero denominator, whose logarithm is
infinite or no number, gives all classes even chances, as it does in the program. The samples store and its chunked
reader connect updates one by one to a full reload.

**Approved users** (`Approval`). The counter that ham messages raise, with the single checks as verdicts.

**User reports** (`ReportTable`, `ReportProtocol`, `ReportMeaning`, `ReportSafety`, `ReportBans`, `ReportGaps`). The
reports table with its unique key, the handlers over it with every call free to fail, and invariants over all runs.

**History** (`History`), **export encodings** (`CopyText`, `CopyRoundTrip`, `SqliteLiteral`, `Decimal`) and
**placeholders** (`Placeholders`).

`Sequences` and `Sums` hold general lemmas. The modules named after a meaning say what the specifications amount to in
terms of entries, rows, documents and tokens, without using their definitions.

## What the proofs brought up

- `unlearn` refreshes the prior of the document's class only. After learning and unlearning documents, all priors
  are back exactly when those documents cover every class (`ClassifierLaws.PriorsAfterLearnThenUnlearn`).
- Learning and unlearning documents leaves a frequency entry of 0 for each class that had documents but no tokens
  and that they brought tokens to, and only then (`ClassifierReload.FrequencyRestoredIff`). Such a class takes part in
  the token loop of `classify`: its weight shrinks by the size of the vocabulary with every token of a message
  (`ClassifierReload.ZeroEntryMattersIff`), or all chances are even when the vocabulary is empty
  (`ClassifierReload.ZeroEntryDividesIff`). After a run the tables are those of a reload exactly when priors are fresh
  and no entry is 0 (`ClassifierReload.RunDecidesAsReloadIff`).
- `removeSample` says that it validates by unlearning first, but a failed `unlearn` leaves the tables alone exactly
  when the message has more lines than there are documents in all (`ClassifierFailures.UnchangedIff`). Otherwise every
  class loses the documents before the first misfit, and the total loses them all
  (`ClassifierFailures.FailureLosses`, `ClassifierFailures.MiscountedIff`). One document of another token is enough
  (`ClassifierFailures.WrongDocumentFails`). The token frequency of the class also loses one for the token that was
  missing (`ClassifierFailures.FrequencyLost`).
- Storing a sample again learns it twice, while the store keeps one row (`SampleSync.UpdateInSyncIff`).
- A line of 64 KiB or more in the store ends the loading of everything behind it. A reload agrees with the running
  classifier exactly when no reader loses documents that way (`SampleSync.IncrementalEqualsReloadIff`); two samples
  can be enough for one to be lost (`SampleSync.ReloadLosesSample`).
- An update adds one similarity sample for the whole message, a reload one for each line that is not blank, and a
  removal takes none away. They stay those of the stored spam exactly when spam is added once and as a single such
  line, and none of it is removed or turned into ham (`SampleSimilarity.StepSimilarIff`,
  `SampleSimilarity.RunSimilarIff`); a message of two lines breaks it (`SampleSimilarity.TwoLinesDrift`).
- When OpenAI may veto spam, a duplicate that it calls ham lifts a user who stands at the limit over it, and nothing
  else approves a user by messages (`Approval.ApprovedByVetoIff`, `Approval.VetoedDuplicateApproves`).
- A restart approves a user exactly when one message counted, or an admin approved the user, since the last removal
  (`Approval.RestartApprovesIff`), however many messages it should take.
- A message without an id spares the latest copy from deletion (`DuplicateSafety.NoIdSparesTheLatestCopy`).
- The comment on `Last` promises the latest requests; it returns the oldest kept ones, and the two agree exactly
  when n covers all that is kept (`History.ShownAreLatestIff`).
- Reporting again what one reported more than seven days ago stores nothing: the insertion is ignored and the old
  row deleted (`ReportTable.AddStoresIff`).
- The rate limit holds for every half-open period (`ReportSafety.RateBound`). For a closed one it breaks exactly when
  a report comes one period after the first of a full period (`ReportGaps.ClosedBrokenIff`), and for every limit it
  can (`ReportGaps.ClosedPeriodOverfull`). It counts stored reports only (`ReportGaps.LimitedAfterResolutionIff`).
- When the admins could not be told of an automatic ban, every further accepted report bans again, stored or not
  (`ReportGaps.BanKeepsReportsIff`, `ReportGaps.AcceptedBansIff`).
- Whether a notification was sent is looked up in the first report. Where times are equal the query may put another
  one first, and every order decides right exactly when no report is notified or all earliest ones are
  (`ReportSafety.AnswersDecideIff`).
- After an admin bans one reporter, the other reports stay exactly when the handler stops at once, can read what
  remains, or cannot delete: a failed read counts as nothing remaining (`ReportGaps.OthersSurviveIff`).
- `Adopt` keeps single quotes in mind and nothing else. It is right exactly when at every question mark that agrees
  with the lexers of both databases, no placeholder stands directly behind an identifier or before a digit, and no
  dollar sign names an argument already (`Placeholders.BindingPreservedIff`). `T?`, a quoted identifier with a
  question mark, or an apostrophe in a comment break it (`Placeholders.FailingQueries`).

## Model

| member | source | states |
|---|---|---|
| DuplicateDetector.FilterExpired | lib/tgspam/duplicate.go:223-248 | the entries inside the window, in order, and for each content in them exactly the tracker a scan of them gives |
| DuplicateDetector.RemoveMessageId | lib/tgspam/duplicate.go:251-259 | the ids without the first occurrence of the given one |
| DuplicateDetector.DropMoved | lib/tgspam/duplicate.go:135-155 | an edit that changed the content takes the message out of the log and out of the old content's tracker; all trackers agree with the remaining log, the new content's exactly |
| DuplicateDetector.FindRepeat | lib/tgspam/duplicate.go:160-168 | an edit is found exactly when the log holds this id under this content |
| DuplicateDetector.LimitEntries | lib/tgspam/duplicate.go:262-300 | the last 200 entries, with every tracker still in agreement and its first time recalculated |
| DuplicateDetector.RefreshFirsts | lib/tgspam/duplicate.go:286-299 | each tracker's first time becomes that of its earliest entry left; counts, ids and last times stay |
| DuplicateDetector.AppendMessage | lib/tgspam/duplicate.go:171-193 | a message that is no edit is counted, its ids cut to 100, and its tracker spans to now |
| DuplicateDetector.TouchRepeat | lib/tgspam/duplicate.go:191-193 | an edit that kept the content only moves the last time |
| DuplicateDetector.DropOldest | lib/tgspam/duplicate.go:271-282 | one entry leaves its tracker, which goes when it is empty |
| DuplicateDetector.TrackInLog | lib/tgspam/duplicate.go:130-196 | log and trackers after a message: the log the specification gives, trackers in agreement, and the message's own tracker spanning from its earliest live entry to now |
| DuplicateDetector.TrackInHistory | lib/tgspam/duplicate.go:116-219 | the result is that of the specification on the log alone, and the stored history is sound again |
| DuplicateDetector.Detector.TrackMessage | lib/tgspam/duplicate.go:101-220 | one tracked message refines the step of the state machine, periodic cleanup included |
| DuplicateDetector.Detector.PerformCleanup | lib/tgspam/duplicate.go:331-354 | every user keeps just the entries inside the window, and users without any are dropped |
| DuplicateDetector.Detector.CleanUser | lib/tgspam/duplicate.go:335-353 | cleaning one user leaves the others alone |
| DuplicateDetector.Detector.TidyUp | lib/tgspam/duplicate.go:110-114 | cleanup runs when more than ten minutes have passed since the last |
| DuplicateDetector.Detector.constructor | lib/tgspam/duplicate.go:47-63 | a detector starts empty with its settings |
| DuplicateDetector.Detector.FormatDuration | lib/tgspam/duplicate.go:308-328 | the span between first and last occurrence, rounded to seconds, with the window as fallback |
| DuplicateDetector.Detector.Check | lib/tgspam/duplicate.go:66-98 | which requests are skipped, and that spam is reported exactly for a non-edit at the threshold, with the span from the earliest live copy to now |
| DuplicateDetector.RoundToSecond | lib/tgspam/duplicate.go:327 | the nearest whole number of seconds, halves away from zero |
| DuplicateTrackers.ScanStep | lib/tgspam/duplicate.go:228-245 | scanning one more entry keeps every tracker exact |
| DuplicateTrackers.MoveStep | lib/tgspam/duplicate.go:137-152 | taking one message out of a content keeps all trackers in agreement |
| DuplicateTrackers.AppendStep | lib/tgspam/duplicate.go:171-193 | appending the message, with its ids cut to 100, keeps all trackers in agreement |
| DuplicateTrackers.DropStep | lib/tgspam/duplicate.go:270-283 | dropping the oldest entry keeps all trackers in agreement, cut ids included |
| DuplicateLog.NextLogUnique | lib/tgspam/duplicate.go:133-173 | a positive id stays unique over all contents |
| DuplicateLog.NextLogHasMessage | lib/tgspam/duplicate.go:170-196 | the message just tracked is in the log under its content, and the log holds 1 to 200 entries |
| DuplicateDetector.Detector.Respond | lib/tgspam/duplicate.go:83-97 | no report of an edit or below the threshold; otherwise the count, the span since the first copy, and the extra ids |
| DuplicateDetector.SpacesAre | lib/tgspam/duplicate.go:72 | a message is empty when it consists of these 25 characters |
| DuplicateMeaning.EditMeans | lib/tgspam/duplicate.go:157-168 | an edit is a message with an id that the log held, inside the window, under the same content |
| DuplicateMeaning.CountMeans | lib/tgspam/duplicate.go:170-199 | the count is the number of entries with this content in the log afterwards |
| DuplicateMeaning.LogMeans | lib/tgspam/duplicate.go:130-196 | the log afterwards is the entries inside the window that do not record the message otherwise, in order, and the message unless it is an edit; of these the last 200 |
| DuplicateMeaning.ExtraIdsMean | lib/tgspam/duplicate.go:201-211 | the extra ids are those of the latest 99 earlier copies, or of all but the latest one for a message without an id; none for an edit or below the threshold |
| DuplicateSafety.RunOk | lib/tgspam/duplicate.go:101-220 | over every run, also with users forgotten: ids unique, at most 200 entries, counts in 1..200 |
| DuplicateSafety.ExtraIdsExactly | lib/tgspam/duplicate.go:201-211 | the extra ids of a reported message are all ids of earlier copies, or the latest 99 of them, and there are none otherwise |
| DuplicateSafety.ExtraIdsAreEarlierCopies | lib/tgspam/duplicate.go:201-211 | they are at most 99 distinct ids of live earlier copies in log order, without the current message, and complete |
| DuplicateSafety.ReachableExtraIds | lib/tgspam/duplicate.go:201-211 | the same for the next message of any run, with every id still in the log and inside the window |
| DuplicateSafety.NoIdSparesTheLatestCopy | lib/tgspam/duplicate.go:203-207 | for a message without an id the latest earlier copy is not among the extra ids |
| DuplicateTime.CleanupUnobservable | lib/tgspam/duplicate.go:110-123 | with a clock that never goes back, cleanups and expiry of users at any moments change no result of any run: all agree with a reference that never cleans |
| DuplicateTime.RunMatchesReference | lib/tgspam/duplicate.go:101-220 | the same from the start |
| DuplicateTime.SpanWithinWindow | lib/tgspam/duplicate.go:185-192 | the reported content's first entry is its earliest, and the span to now is at least zero and below the window |
| DuplicateTime.ReachableSpan | lib/tgspam/duplicate.go:308-327 | the same for the next message of any run |
| Classifier.RemoveDuplicate | lib/tgspam/classifier.go:170-182 | each token once, in some order |
| Classifier.Classifier.constructor | lib/tgspam/classifier.go:44-51 | the tables start empty |
| Classifier.Classifier.Reset | lib/tgspam/classifier.go:128-134 | reset empties all tables |
| Classifier.Classifier.LearnDocument | lib/tgspam/classifier.go:58-69 | one document counts its class once and each distinct token once |
| Classifier.Classifier.Learn | lib/tgspam/classifier.go:54-75 | learning a batch refines the table specification and refreshes every prior |
| Classifier.Classifier.UnlearnToken | lib/tgspam/classifier.go:94-110 | the two guards, and removal of entries that become empty |
| Classifier.Classifier.UnlearnTokensOf | lib/tgspam/classifier.go:91-111 | succeeds exactly when every token is available, in whatever order they come; otherwise the tokens before the missing one are gone |
| Classifier.Classifier.UnlearnDocument | lib/tgspam/classifier.go:85-122 | succeeds exactly when class and tokens are available, then settles the class |
| Classifier.Classifier.Unlearn | lib/tgspam/classifier.go:78-125 | succeeds exactly when the specification does; on an error it says what has been changed |
| Classifier.Classifier.SettleClass | lib/tgspam/classifier.go:113-121 | an empty class loses its entries, another one gets its prior refreshed |
| Classifier.Classifier.Posteriors | lib/tgspam/classifier.go:138-148 | each class gets its prior times one factor per distinct token, whatever the order, and which classes met a zero denominator |
| Classifier.Classifier.Classify | lib/tgspam/classifier.go:137-168 | the result is the decision on the class weights, for all tables any run of calls can leave |
| Classifier.Classifier.IsSpamClassified | lib/tgspam/detector.go:854-861 | spam exactly when spam is the certain class and its share reaches the minimum |
| ClassifierMeaning.LearnDescribes | lib/tgspam/classifier.go:54-75 | after learning, the tables describe the larger multiset, and all priors are fresh |
| ClassifierMeaning.EmptyDescribes | lib/tgspam/classifier.go:44-51 | empty tables describe no documents |
| ClassifierUnlearning.GuardsAreCounts | lib/tgspam/classifier.go:86-101 | the frequency guard never fails before the token guard would |
| ClassifierUnlearning.UnlearnSucceedsIff | lib/tgspam/classifier.go:78-125 | unlearning succeeds exactly when there are enough documents in all, of each class, and of each token in each class |
| ClassifierUnlearning.UnlearnDescribes | lib/tgspam/classifier.go:78-125 | unlearning learned documents never fails and leaves tables that describe the rest |
| ClassifierLaws.CountsDetermined | lib/tgspam/classifier.go:35-41 | the documents determine all counts, and fresh priors too |
| ClassifierLaws.DocsSumToTotal | lib/tgspam/classifier.go:55-58 | the class counts sum up to the number of documents |
| ClassifierLaws.LearnThenUnlearn | lib/tgspam/classifier.go:54-125 | learning and then unlearning restores all counts |
| ClassifierLaws.UnlearnThenLearn | lib/tgspam/detector.go:642-651 | unlearning and then learning restores all counts, and all priors exactly if they were fresh |
| ClassifierLaws.PriorsAfterLearnThenUnlearn | lib/tgspam/classifier.go:118-121 | learning and then unlearning restores the priors exactly when the documents cover every class |
| ClassifierLaws.LearnOrderFree | lib/tgspam/classifier.go:54-75 | the order of a batch does not matter |
| ClassifierLaws.LearnBatchFree | lib/tgspam/classifier.go:54-75 | two batches give the tables of one |
| ClassifierLaws.RunDescribes | lib/tgspam/classifier.go:54-125 | any run of learning and of unlearning learned documents succeeds and describes what remains |
| ClassifierLaws.RunEqualsReload | lib/tgspam/classifier.go:54-134 | after any such run the counts are those of learning the remaining documents from scratch |
| ClassifierReload.RunDecidesAsReloadIff | lib/tgspam/classifier.go:54-134 | the tables themselves are those of the reload exactly when all priors are fresh and no frequency entry is 0 |
| ClassifierReload.FrequencyRestoredIff | lib/tgspam/classifier.go:54-121 | learning and unlearning leaves frequency entries of 0 for classes with documents but without tokens that the documents brought tokens to, and restores the table exactly without such a class |
| ClassifierReload.TablesRestoredIff | lib/tgspam/classifier.go:54-125 | learning and unlearning restores all tables exactly when besides the documents cover every class |
| ClassifierReload.ZeroEntryWeight | lib/tgspam/classifier.go:143-147 | with such an entry every token of a message divides the class's weight by the size of the vocabulary |
| ClassifierReload.ZeroEntryMattersIff | lib/tgspam/classifier.go:143-147 | the weight shrinks, and stays only for a message without tokens or a vocabulary of one |
| ClassifierReload.ZeroEntryDividesIff | lib/tgspam/classifier.go:143-147 | learning and unlearning leads to a zero denominator exactly when the vocabulary is empty and some class has a frequency entry |
| ClassifierFailures.UnchangedIff | lib/tgspam/classifier.go:79-83 | a failed unlearn leaves the tables alone exactly when it was given more documents than there are |
| ClassifierFailures.StopsAtFirstMisfit | lib/tgspam/classifier.go:85-101 | it stops at the first document that the counts have no room for together with those before |
| ClassifierFailures.FailureLosses | lib/tgspam/classifier.go:83-111 | what every class, every token and the total have lost then |
| ClassifierFailures.MiscountedIff | lib/tgspam/classifier.go:78-125 | after a failed unlearn the class counts still sum up to the total exactly when there is room for all documents but the last and the last one's class still has one |
| ClassifierFailures.FrequencyLost | lib/tgspam/classifier.go:94-101 | and the token frequency of the class falls short by the missing token |
| ClassifierFailures.WrongDocumentFails | lib/tgspam/classifier.go:78-111 | with one document learned, unlearning one of another token fails after counting a document away, in all and in the class, and leaves the learned token |
| ClassifierFailures.FailureNotLearned | lib/tgspam/detector.go:642-646 | what fails was not learned as a whole |
| ClassifierFailures.SaneOverRuns | lib/tgspam/classifier.go:54-134 | over every run of calls, failed ones included, no count turns negative and no class loses its prior before its other entries |
| Decision.Softmax | lib/tgspam/classifier.go:185-238 | probabilities proportional to the weights, uniform when all weights are zero |
| Decision.BestOf | lib/tgspam/classifier.go:152-164 | certain exactly when one class is heavier than all others, which is then the result, in any iteration order |
| Decision.Probabilities | lib/tgspam/classifier.go:185-238 | a class's share of the total weight, or even chances when a logarithm was infinite or all weights are zero |
| Decision.Decide | lib/tgspam/classifier.go:150-167 | class, percentage and certainty from the weights |
| Decision.DecisionMeans | lib/tgspam/classifier.go:152-168 | certain exactly when one class is heaviest, then that class with its share; with even chances only a single class is certain; without classes there is no answer |
| Decision.DecisionUnique | lib/tgspam/classifier.go:152-168 | two runs over the same weights agree on certainty and probability, and if certain on the class |
| Decision.ProportionalIsDistribution | lib/tgspam/classifier.go:232-237 | the probabilities sum to one and order the classes as the weights do |
| Decision.WeightNonNegative | lib/tgspam/classifier.go:143-148 | weights are never negative, and positive for classes with documents and no zero denominator |
| Decision.DivisibleIsBounded | lib/tgspam/classifier.go:143-148 | no message meets a zero denominator exactly when no total and no sum of frequency and vocabulary is zero |
| Decision.DivisibleIff | lib/tgspam/classifier.go:143-148 | in consistent tables all denominators are positive exactly unless the vocabulary is empty and some class still has a frequency entry |
| DecisionMeaning.PriorMeans | lib/tgspam/classifier.go:72-74 | a prior is the share of the documents that the class has |
| DecisionMeaning.VocabularyMeans | lib/tgspam/classifier.go:64-66 | the vocabulary is the set of tokens of the documents |
| DecisionMeaning.FrequencyMeans | lib/tgspam/classifier.go:61-62 | the token frequency of a class is the number of tokens in its documents |
| DecisionMeaning.FactorMeans | lib/tgspam/classifier.go:145-146 | the factor of a token is one more than the documents of the class that hold it, over the class's tokens and the vocabulary |
| DecisionMeaning.WeightOfNothing | lib/tgspam/classifier.go:138-140 | without tokens a class weighs its share of the documents |
| DecisionMeaning.WeightMeans | lib/tgspam/classifier.go:143-148 | each token multiplies a weight by its factor; a class without a frequency entry keeps its prior |
| DecisionMeaning.NothingToGoBy | lib/tgspam/classifier.go:137-168 | a message without tokens goes to the class with the most documents, certain exactly when there is one |
| DecisionMeaning.SpamMeans | lib/tgspam/detector.go:854-861 | spam exactly when its weight is above every other and its share reaches the minimum; with even chances, when there is no other class |
| Similarity.CosineSimilarity | lib/tgspam/detector.go:741-763 | dot product and both squared norms, and zero for an empty side |
| Similarity.CauchySchwarz | lib/tgspam/detector.go:741-763 | the squared dot product is at most the product of the norms, with equality exactly for maps that have a common multiple, and for an empty map |
| Similarity.AlignedIffProportional | lib/tgspam/detector.go:741-763 | a map is its projection on another exactly when they have a common multiple |
| Similarity.CosineLaws | lib/tgspam/detector.go:741-763 | similarity lies in 0..1, is symmetric, is 0 exactly without a shared token and 1 exactly for proportional maps |
| Similarity.DotSymmetric | lib/tgspam/detector.go:749-752 | swapping the maps does not change the dot product |
| Similarity.ZeroIffDisjoint | lib/tgspam/detector.go:749-752 | no shared token exactly when the dot product is zero |
| Similarity.IsSpamSimilarityHigh | lib/tgspam/detector.go:722-738 | spam exactly when some sample reaches the threshold, whatever the order of samples |
| Similarity.AtLeastIff | lib/tgspam/detector.go:722-738 | the test on squares holds exactly when the cosine itself reaches the threshold |
| Similarity.DotGrows | lib/tgspam/detector.go:741-770 | each further token adds the product of its two frequencies |
| Similarity.ThresholdExtremes | lib/tgspam/detector.go:731 | proportional maps reach every threshold up to 1, disjoint ones none |
| SampleStream.SampleReader.Read | app/storage/samples.go:505-531 | each read hands over a prefix of the bytes still to come, or reports the end exactly when none are left |
| SampleStream.SampleReader.Close | app/storage/samples.go:534-546 | a closed reader has no rows |
| SampleStream.SampleReader.Drain | app/storage/samples.go:505-531 | chunks of any sizes put together are the stream, and enough of them reach its end |
| SampleStream.SampleReader.ReadAll | app/storage/samples.go:505-531 | reading to the end with buffers of any sizes yields the whole stream |
| SampleStream.ElementsAppend | lib/tgspam/detector.go:672-692 | scanning two texts joined by a line feed is scanning one after the other, unless the first has an overlong line |
| SampleStream.StreamElements | app/storage/samples.go:505-531 | scanning the stream yields the elements of the rows up to the first overlong line |
| SampleStream.StreamComplete | lib/tgspam/detector.go:672-692 | nothing is lost exactly when the rows behind that point hold no elements |
| SampleSimilarity.OneLineYields | lib/tgspam/detector.go:672-692 | a line yields itself without its margins, unless it is blank or fills the scanner's buffer |
| SampleSimilarity.TrimMeans | lib/tgspam/detector.go:679 | trimming takes all white space off both ends and nothing else |
| SampleStore.Samples.constructor | app/storage/samples.go:106-122 | the store starts empty |
| SampleStore.Samples.Add | app/storage/samples.go:125-157 | which samples are refused, and that a message has one row, the last one added |
| SampleStore.Samples.DeleteMessage | app/storage/samples.go:181-210 | a missing message is an error and changes nothing |
| SampleStore.Samples.Reader | app/storage/samples.go:248-278 | the rows of a type and origin, or of a type and any origin, each once, in some order |
| SampleStore.BothOrigins | app/storage/samples.go:260-266 | presets and user samples together are the rows of any origin |
| SampleStore.AllListedDocs | app/storage/samples.go:248-278 | spam and ham rows together stand for the documents of the store, in whatever order they are listed |
| SampleStore.AllListedSamples | lib/tgspam/detector.go:545-549 | spam rows, in whatever order they are listed, stand for one similarity sample per line |
| SampleMeaning.DocumentsCounted | lib/tgspam/detector.go:658-669 | each line is one document of its class, and counts once for each token it holds |
| SampleMeaning.LearnedElements | lib/tgspam/detector.go:618-620 | learning a sample adds just that to the counts |
| SampleMeaning.UnlearnedElements | lib/tgspam/detector.go:642-646 | unlearning it takes just that away |
| SampleMeaning.LoadedElements | lib/tgspam/detector.go:545-570 | a load counts the spam and ham lines and nothing else |
| SampleUpdates.Detector.BuildDocs | lib/tgspam/detector.go:658-669 | one document per line with its distinct tokens |
| SampleUpdates.Detector.UpdateSample | lib/tgspam/detector.go:607-631 | store first, then classifier and similarity samples; nothing on a storage error |
| SampleUpdates.Detector.RemoveSample | lib/tgspam/detector.go:634-655 | unlearn, delete, and learn again when the deletion fails; what a failed unlearn leaves |
| SampleUpdates.Detector.LoadSamples | lib/tgspam/detector.go:531-571 | the excluded tokens come first; the classifier holds just what the readers yield, and the counts are returned |
| SampleSync.UpdateInSyncIff | lib/tgspam/detector.go:607-631 | an update keeps classifier and store in step exactly when it replaces no documents |
| SampleSync.RemoveInSync | lib/tgspam/detector.go:634-655 | removing a stored sample of its kind succeeds and keeps them in step; a storage error restores all counts, and the priors exactly if they were fresh |
| SampleSync.RunInSync | lib/tgspam/detector.go:607-655 | over every run of proper updates and removals they stay in step |
| SampleSync.LoadedIsStoreIff | lib/tgspam/detector.go:531-571 | loading yields the documents of the store, in any row order, or fewer when a reader loses some |
| SampleSync.ReloadIff | lib/tgspam/detector.go:531-571 | tables that describe the store agree with a reload exactly when no reader loses documents behind an overlong line |
| SampleSync.IncrementalEqualsReloadIff | lib/tgspam/detector.go:531-655 | after any such run the counts equal those of a full reload, exactly when no reader loses documents |
| SampleSync.ShortLinesLoseNothing | lib/tgspam/detector.go:672-692 | no reader does when all lines are short |
| SampleSync.LosslessBehindOverlong | lib/tgspam/detector.go:672-692 | rows behind a line that fills the scanner's buffer are lost exactly when they hold anything |
| SampleSync.ReloadLosesSample | lib/tgspam/detector.go:531-692 | from the start, two samples put the store where a reload does not give the classifier's tables |
| SampleSimilarity.StepSimilarIff | lib/tgspam/detector.go:607-655 | a step keeps the similarity samples those of the stored spam exactly when spam comes new and as one sample, and stored spam neither goes nor turns into ham |
| SampleSimilarity.RunSimilarIff | lib/tgspam/detector.go:607-655 | they stay so throughout a run exactly when every step does that |
| SampleSimilarity.SimilarReloadIff | lib/tgspam/detector.go:545-549 | then a reload builds the same ones, up to order, exactly when neither spam reader loses an element |
| SampleSimilarity.RunSimilarReloadIff | lib/tgspam/detector.go:531-655 | the same after any such run |
| SampleSimilarity.OnlyElement | lib/tgspam/detector.go:672-692 | the only element of a message is the message without its margins |
| SampleSimilarity.OneLineIff | lib/tgspam/detector.go:624-628 | a message is one sample exactly when one of its lines is not blank |
| SampleSimilarity.TwoLinesDrift | lib/tgspam/detector.go:624-628 | a message of two lines is not |
| SampleReload.SpamFilter.ReadSamples | app/bot/spam.go:230-248 | the bytes of the rows of a type and origin, whatever the buffers |
| SampleReload.SpamFilter.ReloadSamples | app/bot/spam.go:215-267 | refused without preset samples; otherwise all is read anew, and tables and similarity samples in step with the store stay exactly when no reader loses anything of theirs |
| Approval.ApprovedUsers.Check | lib/tgspam/detector.go:165-323 | the verdict, when content checks are skipped, and which messages raise the counter |
| Approval.ApprovedUsers.AddApprovedUser | lib/tgspam/detector.go:468-490 | an added user is at the limit plus one |
| Approval.ApprovedUsers.RemoveApprovedUser | lib/tgspam/detector.go:493-506 | a removed user has no counter, whatever the storage does |
| Approval.ApprovedUsers.WithUserStorage | lib/tgspam/detector.go:409-427 | all counters are forgotten; stored users get the limit plus one |
| Approval.ApprovedUsers.IsApprovedUser | lib/tgspam/detector.go:456-465 | approved exactly above the limit |
| Approval.VerdictMeans | lib/tgspam/detector.go:191-298 | what a message that is not skipped comes to, in terms of the checks and of when OpenAI is asked |
| Approval.QualifiesIff | lib/tgspam/detector.go:261-303 | which messages raise the counter: ham by that verdict, long enough, not only checked |
| Approval.CounterOverRuns | lib/tgspam/detector.go:300-316 | over every run a counter is the number of qualifying messages since it was cleared, capped at the limit, or the limit plus one for trusted users |
| Approval.ApprovedMeansTrusted | lib/tgspam/detector.go:186-189 | so just the users added or loaded are approved, and content checks are skipped exactly for them and from the limit on, duplicates aside |
| Approval.DuplicateQualifiesIff | lib/tgspam/detector.go:261-303 | a duplicate counts exactly when OpenAI may veto spam and answers ham, and the message is neither short nor only checked |
| Approval.ApprovedByVetoIff | lib/tgspam/detector.go:261-316 | a message approves a user exactly when the user stands at the limit and the message is a duplicate, long enough and not only checked, that OpenAI may veto and calls ham |
| Approval.VetoedDuplicateApproves | lib/tgspam/detector.go:272-316 | with the veto every user at the limit has a message that does it |
| Approval.StoredOverRuns | lib/tgspam/detector.go:300-321 | over every run the stored list holds just the users written since they were last erased, and those it held and that were never erased |
| Approval.LoadApproves | lib/tgspam/detector.go:418-425 | loading approves just the stored users |
| Approval.RestartApprovesIff | lib/tgspam/detector.go:409-427 | over every run a restart approves a user exactly when a message counted or an admin approved, since the last removal, or the list held the user |
| Approval.RestartPromotesIff | lib/tgspam/detector.go:409-427 | it approves one who was not approved exactly when the user is stored without being trusted |
| Approval.RestartApproves | lib/tgspam/detector.go:409-427 | one counted message and a restart approve a user |
| ReportTable.Reports.Add | app/storage/reports.go:132-165 | insert or ignore without marks, then delete what is older than seven days |
| ReportTable.Reports.GetByMessage | app/storage/reports.go:168-184 | all rows of the message and no others, in time order |
| ReportTable.Reports.GetReporterCountSince | app/storage/reports.go:187-203 | the number of places in the table with a row of the reporter strictly after the moment |
| ReportTable.Reports.UpdateAdminMsgID | app/storage/reports.go:206-222 | every row of the message is marked, no other changes |
| ReportTable.Reports.DeleteReporter | app/storage/reports.go:225-241 | just that reporter's row of the message goes |
| ReportTable.Reports.DeleteByMessage | app/storage/reports.go:244-260 | just the rows of the message go |
| ReportTable.ByTimeAnswers | app/storage/reports.go:99 | the query's answer is the rows in time order |
| ReportTable.AnswerUnique | app/storage/reports.go:99 | where times differ there is no other answer in time order |
| ReportTable.AddStoresIff | app/storage/reports.go:152-162 | after storing a report its reporter's row is there exactly when no row of the same reporter and message had outlived the retention |
| ReportProtocol.UserReports.DirectUserReport | app/events/reports.go:41-146 | guards, rate limit, storing, threshold, in this order, when the command is removed, with every call free to fail |
| ReportProtocol.UserReports.CheckReportRateLimit | app/events/reports.go:150-171 | limited exactly when the count within the last period reaches the limit |
| ReportProtocol.UserReports.CheckReportThreshold | app/events/reports.go:174-215 | ban, do nothing, edit the notification or send one |
| ReportProtocol.UserReports.ExecuteAutoBan | app/events/reports.go:218-301 | the author is punished, the admins are told, and only then are the rows deleted |
| ReportProtocol.UserReports.Punish | app/events/reports.go:234-272 | approval withdrawn, text learned, message deleted, ban, in this order; in dry mode the approval alone is withdrawn |
| ReportProtocol.UserReports.BanUser | app/events/events.go:187-195 | nobody is banned in dry or training mode |
| ReportProtocol.UserReports.UpdateNotificationForAutoBan | app/events/reports.go:356-414 | fails without an admin message to edit |
| ReportProtocol.UserReports.SendReportNotification | app/events/reports.go:417-490 | the rows are marked when the message was sent and the update worked |
| ReportProtocol.UserReports.UpdateReportNotification | app/events/reports.go:493-560 | edits the message of the first report, when there is an admin chat |
| ReportProtocol.UserReports.CallbackReportBan | app/events/reports.go:564-640 | punishes, deletes the rows and closes the admin message; nothing without rows |
| ReportProtocol.UserReports.CallbackReportReject | app/events/reports.go:644-678 | deletes the rows and closes the admin message; nothing without rows |
| ReportProtocol.UserReports.CallbackReportBanReporterConfirm | app/events/reports.go:736-856 | bans the reporter, deletes that row, and the rest when nothing seems to remain; otherwise the admin message lists who remains |
| ReportTable.AddedMeans | app/storage/reports.go:132-165 | the rows after a report was stored: a new one without marks unless its reporter has one for the message, none older than seven days |
| ReportMeaning.AcceptedIff | app/events/reports.go:41-138 | a report is taken exactly when the command replies in the chat to an ordinary user, its sender is approved and no super user, fewer reports than the limit are stored since one period, and the calls work |
| ReportMeaning.RefusedMeans | app/events/reports.go:41-110 | otherwise no row changes, and at most the command is removed |
| ReportMeaning.StoredMeans | app/events/reports.go:135-138 | a report that is taken is stored like that |
| ReportMeaning.AutoBanPunishes | app/events/reports.go:218-301 | an automatic ban withdraws the approval, learns the text of the earliest row, deletes the message, bans its author, and tells the admins, in this order |
| ReportMeaning.AutoBanAsks | app/events/reports.go:218-272 | so just the author is banned, exactly outside dry and training mode |
| ReportMeaning.AutoBanDeletes | app/events/reports.go:274-297 | the rows stay exactly when the admins could not be told or the deletion fails |
| ReportMeaning.NotificationMeans | app/events/reports.go:195-214 | below the number for a ban the admins are told from the threshold on, by a new message, which then marks all rows, or in the one the earliest row names |
| ReportMeaning.UnreadMeans | app/events/reports.go:176-179 | rows that cannot be read change nothing more |
| ReportMeaning.NothingToAnswer | app/events/reports.go:571-578 | an answer to a message without rows does nothing |
| ReportMeaning.ApprovalPunishes | app/events/reports.go:564-640 | an approved ban does the same to the user it names, deletes the rows and closes the admin message |
| ReportMeaning.RejectionMeans | app/events/reports.go:644-678 | a rejection deletes the rows and closes the admin message |
| ReportMeaning.ReporterPunished | app/events/reports.go:736-856 | a reporter is banned for good outside dry and training mode; the admin message is closed, or names who remains |
| ReportMeaning.ReporterRowsGo | app/events/reports.go:780-795 | that reporter's row goes, and all of them when nobody else seems to have reported |
| ReportSafety.RunSound | app/storage/reports.go:64-104 | over every run, whatever fails: one row per message and reporter, notified rows first with one admin message, 0 elsewhere |
| ReportSafety.RunInOrder | app/storage/reports.go:140-143 | rows stand in time order when the clock does not run back |
| ReportSafety.HeadDecides | app/events/reports.go:205 | in every reachable state testing the first report for a notification is testing whether any was notified |
| ReportSafety.AnyAnswerDecides | app/events/reports.go:205 | the same for every answer in time order, where report times differ |
| ReportSafety.AnswersDecideIff | app/events/reports.go:205 | where times may be equal, every answer in time order decides right exactly when no row of the message is notified or all its earliest rows are |
| ReportSafety.NotificationMatches | app/events/reports.go:204-214 | a new notification exactly when none was sent, otherwise the edited message is that of all notified rows |
| ReportSafety.RateBound | app/events/reports.go:150-171 | over every run no reporter has more reports stored within any period than the limit |
| ReportBans.AutoBanIsBacked | app/events/reports.go:187-192 | every automatic ban names at least the threshold of distinct reporters, just those with a live row, and bans the user the earliest row is about |
| ReportBans.QuietBetweenBans | app/events/reports.go:274-297 | when all calls succeed no message holds enough reports for a ban between steps, a ban names exactly the threshold, and leaves no row |
| ReportBans.RepeatBanIsFresh | app/events/reports.go:274-297 | after a ban the admins heard of, a second ban over the same message needs as many different users reporting it anew, whatever failed before |
| ReportGaps.ClosedNeedsBothEnds | app/events/reports.go:159-165 | over every run a closed period exceeds the limit only with reports at both ends |
| ReportGaps.ClosedBrokenIff | app/events/reports.go:159-165 | a step breaks a limit kept so far exactly when a new report is checked and stored one period after lo and the reports at lo and since reach the limit |
| ReportGaps.ClosedBound | app/events/reports.go:159-165 | over every run without such a step the closed period keeps the limit |
| ReportGaps.ClosedPeriodOverfull | app/events/reports.go:159-165 | for every limit and period a run ends with one report more than the limit in a closed period |
| ReportGaps.LimitedAfterResolutionIff | app/events/reports.go:662-665 | after a message is rejected a reporter is limited exactly when the other reports of the period reach the limit |
| ReportGaps.BanKeepsReportsIff | app/events/reports.go:274-297 | the rows stay after a ban exactly when the admins were not told or the deletion failed |
| ReportGaps.AcceptedBansIff | app/events/reports.go:174-192 | an accepted report bans exactly when the rows can be read and reach the threshold, whether or not it was stored |
| ReportGaps.IgnoredReportBansIff | app/events/reports.go:185-192 | while the rows of a ban stay, an ignored repeat report bans again exactly when they can be read |
| ReportGaps.OthersSurviveIff | app/events/reports.go:785-795 | another reporter's row survives exactly when the first read fails, the second succeeds, or the deletion fails |
| ReportGaps.BannedReporterStaysIff | app/events/reports.go:748-795 | the banned reporter's row stays exactly when the first read fails, or its removal does and the rest is not deleted either |
| History.LastRequests.constructor | lib/spamcheck/history.go:18-27 | a ring of at least one slot, empty |
| History.LastRequests.Push | lib/spamcheck/history.go:30-41 | the ring holds the last pushes, each cut to 1024 |
| History.LastRequests.Last | lib/spamcheck/history.go:44-69 | the oldest n of the last pushes that the ring keeps, in push order |
| History.ShownMeans | lib/spamcheck/history.go:44-69 | place by place: of what is kept, from the oldest on, n or all |
| History.PushKeepsRing | lib/spamcheck/history.go:39-40 | overwriting the current slot and advancing moves the window of kept pushes by one |
| History.ShownAreLatestIff | lib/spamcheck/history.go:43-69 | that is the n latest, for all contents, exactly when n covers everything kept |
| CopyText.EscapeIsPerCharacter | app/storage/engine/convert.go:373-376 | the four successive replacements are one substitution per character |
| CopyRoundTrip.UnescapeInverts | app/storage/engine/convert.go:371-377 | decoding the escaped text gives the text back |
| CopyRoundTrip.EscapedHasNoControls | app/storage/engine/convert.go:371-377 | no tab, line feed or carriage return is left |
| CopyRoundTrip.FieldRoundTrip | app/storage/engine/convert.go:364-403 | each value decodes to what it means, and only NULL to NULL |
| CopyRoundTrip.MeaningOf | app/storage/engine/convert.go:364-403 | NULL is nothing, text and bytes themselves, a number a numeral for it, a boolean one letter |
| CopyRoundTrip.RowRoundTrip | app/storage/engine/convert.go:256-282 | splitting an encoded row on tabs and decoding recovers its columns |
| CopyRoundTrip.RowLine | app/storage/engine/convert.go:281-292 | an encoded row has no bare line feed and is not the end marker |
| CopyRoundTrip.RowsRoundTrip | app/storage/engine/convert.go:250-294 | reading the block up to its end marker gives all rows back |
| CopyRoundTrip.FormatCells | app/storage/engine/convert.go:256-279 | missing columns are NULL, and the stored flag of detected_spam.added becomes a boolean |
| CopyRoundTrip.CellMeans | app/storage/engine/convert.go:256-279 | what is read back for a column, the flag of detected_spam.added as a boolean |
| CopyRoundTrip.ColumnsMean | app/storage/engine/convert.go:217-229 | only the generated column is left out; the others keep their order |
| CopyRoundTrip.ExportTableData | app/storage/engine/convert.go:205-297 | the exported block decodes to the table's cells, without the generated column |
| CopyRoundTrip.WritePostgresRow | app/storage/engine/engine.go:678-727 | a backup row decodes to its cells, booleans spelled out |
| CopyRoundTrip.BackupMeans | app/storage/engine/engine.go:678-727 | what is read back from a backup row, booleans in full |
| SqliteLiteral.LexDoubled | app/storage/engine/engine.go:420-423 | text with doubled quotes lexes back |
| SqliteLiteral.LiteralRoundTrip | app/storage/engine/engine.go:414-429 | a text literal lexes back to its text and ends where it was written to end |
| SqliteLiteral.BooleanLiteral | app/storage/engine/engine.go:414-429 | booleans lex back in full |
| Placeholders.Adopt | app/storage/engine/engine.go:171-199 | numbered placeholders for PostgreSQL, the query itself otherwise |
| Placeholders.BindingPreservedIff | app/storage/engine/engine.go:171-199 | binding by number in the result is binding by position in the query exactly when the scan for quotes agrees with both databases' lexers at every question mark, no placeholder stands behind an identifier or before a digit, and no dollar sign names an argument |
| Placeholders.FailingQueries | app/storage/engine/engine.go:181-196 | queries that are not so: a placeholder before a digit or behind an identifier, a numbered argument, a question mark in a quoted identifier, an apostrophe in a comment |
| Placeholders.PlaceholderSwallowsDigit | app/storage/engine/engine.go:191 | a placeholder directly before a digit names another argument |
| Placeholders.NumbersRunOn | app/storage/engine/engine.go:191-192 | the numbers run up from 1 without a gap, whatever their width |
| Placeholders.QuotedTextUnchanged | app/storage/engine/engine.go:182-196 | what the scan takes for quoted is unchanged, in any query |
| Decimal.ItoaValue | app/storage/engine/engine.go:191 | a numeral stands for its number |

## Left out

- SampleUpdates.Detector.LoadSamples: how a line is tokenised with given excluded tokens, and lower case, are opaque functions.
- SampleUpdates.Detector.RemoveSample: on a failed unlearn it says what the tables are up to the order of the tokens, which a Go map decides.
- SampleReload.SpamFilter.ReloadSamples: the dictionary is its text, stop words are left out, and any failing call of the store is one flag.
- DuplicateDetector.Detector.TrackMessage: SHA-256 is taken to be injective, so a message is its own hash.
- DuplicateTime.CleanupUnobservable: expiry is an event that may happen once twice the window has passed; forgetting a user earlier, as the cache does when it is full, changes results and is covered by the safety lemmas only.
- Decision.Softmax: exact reals on products; logarithms, overflow protection and rounding are not modelled, so "certain" speaks of exact ties.
- Similarity.CosineSimilarity: stated on squares, without square roots and rounding; the text of the response and its maximum so far are not modelled.
- Similarity.IsSpamSimilarityHigh: for thresholds above zero only, as the program calls it.
- Approval.ApprovedUsers.Check: stop words, emojis, meta checks, CAS, Lua and OpenAI are arbitrary verdicts of the message; the histories it pushes to are modelled apart.
- ReportTable.Reports.GetByMessage: SQL leaves the order of equal report times open, and the model takes insertion order; `ReportSafety.AnswersDecideIff` speaks of every order.
- ReportTable.Reports.Add: one chat and one group id; user names are not stored, and a failing call is taken to change nothing.
- ReportProtocol.UserReports.Punish: the calls to the bot and to Telegram are logged as asked for; whether they succeed changes nothing further.
- ReportProtocol.UserReports.CallbackReportBanReporterConfirm: the texts and buttons of admin messages are not modelled; the two callbacks that only show and cancel buttons change no report.
- CopyRoundTrip.ExportTableData: the comment and COPY header lines and the empty line behind the end marker are not part of the block; values printed as they are (times, numbers) are taken to hold no backslash, tab or line end.
- Placeholders.BindingPreservedIff: SQLite's own named and numbered parameters, and PostgreSQL strings continued on another line, are not lexed; the query is not parsed further.
- SqliteLiteral.LiteralRoundTrip: numbers and times are printed as they are and not lexed.
- History.LastRequests.Push: characters stand for bytes, so the cut is at 1024 of either.
- SampleStream.SampleReader.Read: errors of the database cursor are not modelled.
- Concurrency: the steps are sequential. `Check` changes the approved users under a read lock, which the model does not show.
- Telegram, OpenAI, CAS and Lua calls, the web interface, migrations, schema conversion and the listener loop: input and output.
- The single content checks, which are predicates of one branch each.
