/** The specification of duplicate detection: what one user's log of messages looks like after
    each tracked message, and what the per-content trackers must say about it. */
module DuplicateLog {
  import opened Sequences

  /** maxEntriesPerUser, and min(maxEntriesPerUser, 100). */
  const MAX_ENTRIES: nat := 200
  const MAX_IDS: nat := 100

  /** SHA-256 is taken to be injective, so a message stands for its own hash. */
  type Hash = string
  type Time = int

  datatype Entry = Entry(hash: Hash, time: Time, id: int)

  /** None is Go's zero time, which time.Now() never returns. */
  datatype Tracker = Tracker(count: int, ids: seq<int>, first: Option<Time>, last: Option<Time>)

  const NO_TRACKER := Tracker(0, [], None, None)

  datatype Outcome = Outcome(count: int, extraIds: seq<int>, isEdit: bool)

  // Tests on entries.

  function LiveAt(window: int, now: Time): Entry -> bool {
    (e: Entry) => e.time > now - window
  }

  function OfHash(h: Hash): Entry -> bool {
    (e: Entry) => e.hash == h
  }

  /** Every entry but the one that recorded this message under another content. */
  function NotMoved(h: Hash, id: int): Entry -> bool {
    (e: Entry) => !(id > 0 && e.id == id && e.hash != h)
  }

  // The log.

  function Live(log: seq<Entry>, window: int, now: Time): seq<Entry> {
    Filter(LiveAt(window, now), log)
  }

  function Own(log: seq<Entry>, h: Hash): seq<Entry> {
    Filter(OfHash(h), log)
  }

  function Kept(live: seq<Entry>, h: Hash, id: int): seq<Entry> {
    Filter(NotMoved(h, id), live)
  }

  predicate IsRepeat(log: seq<Entry>, h: Hash, id: int) {
    id > 0 && exists e :: e in log && e.hash == h && e.id == id
  }

  /** The user's log after a message, given the entries still inside the window. */
  function Grown(live: seq<Entry>, h: Hash, id: int, now: Time): seq<Entry> {
    Kept(live, h, id) + if IsRepeat(live, h, id) then [] else [Entry(h, now, id)]
  }

  function NextLog(live: seq<Entry>, h: Hash, id: int, now: Time): seq<Entry> {
    LastN(Grown(live, h, id, now), MAX_ENTRIES)
  }

  function PositiveIds(es: seq<Entry>): (ids: seq<int>)
    ensures |ids| <= |es|
  {
    if es == [] then []
    else
      var rest := PositiveIds(es[..|es| - 1]);
      if es[|es| - 1].id > 0 then rest + [es[|es| - 1].id] else rest
  }

  function AllButLast<T>(s: seq<T>): seq<T> {
    if |s| > 1 then s[..|s| - 1] else []
  }

  /** The ids a tracker holds for its content; only the appending path trims them. */
  function TrackedIds(log: seq<Entry>, h: Hash, trimmed: bool): seq<int> {
    var ids := PositiveIds(Own(log, h));
    if trimmed then LastN(ids, MAX_IDS) else ids
  }

  /** What trackMessage returns, in terms of the log only. */
  function OutcomeOf(live: seq<Entry>, threshold: int, h: Hash, id: int, now: Time): Outcome {
    var log := NextLog(live, h, id, now);
    var isEdit := IsRepeat(live, h, id);
    var count := |Own(log, h)|;
    Outcome(count,
            if count >= threshold && !isEdit then AllButLast(TrackedIds(log, h, id > 0)) else [],
            isEdit)
  }

  /** Each positive message id occurs at most once, over all contents. */
  ghost predicate UniqueIds(log: seq<Entry>) {
    forall i, j :: 0 <= i < j < |log| && log[i].id > 0 ==> log[i].id != log[j].id
  }

  /** Tracker t agrees with the log for content h; trimmed says its ids were cut to MAX_IDS. */
  ghost predicate Agrees(t: Tracker, log: seq<Entry>, h: Hash, trimmed: bool) {
    var own := Own(log, h);
    && own != []
    && t.count == |own|
    && t.ids == TrackedIds(log, h, trimmed)
    && t.first.Some? && t.last.Some?
  }

  /** Tracker t is exactly what a scan of the log builds for content h. */
  ghost predicate Exact(t: Tracker, log: seq<Entry>, h: Hash) {
    var own := Own(log, h);
    && Agrees(t, log, h, false)
    && t.first == Some(own[0].time) && t.last == Some(own[|own| - 1].time)
  }

  /** The tracker table and the log agree about content h: a tracker exactly when h occurs. */
  ghost predicate AgreesAt(trk: map<Hash, Tracker>, log: seq<Entry>, h: Hash, trimmed: Option<Hash>) {
    && (h in trk <==> Own(log, h) != [])
    && (h in trk ==> Agrees(trk[h], log, h, trimmed == Some(h)))
  }

  ghost predicate ExactAt(trk: map<Hash, Tracker>, log: seq<Entry>, h: Hash) {
    && (h in trk <==> Own(log, h) != [])
    && (h in trk ==> Exact(trk[h], log, h))
  }

  ghost predicate TableAgrees(trk: map<Hash, Tracker>, log: seq<Entry>, trimmed: Option<Hash>) {
    forall h :: AgreesAt(trk, log, h, trimmed)
  }

  ghost predicate TableExact(trk: map<Hash, Tracker>, log: seq<Entry>) {
    forall h :: ExactAt(trk, log, h)
  }

  // Lemmas on ids.

  lemma PositiveIdsSnoc(es: seq<Entry>, e: Entry)
    ensures PositiveIds(es + [e]) == PositiveIds(es) + if e.id > 0 then [e.id] else []
  {
    assert (es + [e])[..|es|] == es;
  }

  lemma {:induction false} PositiveIdsCons(e: Entry, es: seq<Entry>)
    ensures PositiveIds([e] + es) == (if e.id > 0 then [e.id] else []) + PositiveIds(es)
  {
    if es == [] {
      PositiveIdsSnoc([], e);
      assert [e] + es == [] + [e];
    } else {
      var front, x := es[..|es| - 1], es[|es| - 1];
      PositiveIdsCons(e, front);
      assert [e] + es == ([e] + front) + [x];
      PositiveIdsSnoc([e] + front, x);
    }
  }

  lemma {:induction false} PositiveIdsMember(es: seq<Entry>, id: int)
    ensures id in PositiveIds(es) <==> id > 0 && exists e :: e in es && e.id == id
  {
    if es != [] {
      var front, x := es[..|es| - 1], es[|es| - 1];
      PositiveIdsMember(front, id);
      assert es == front + [x];
      assert forall e :: e in es <==> e in front || e == x;
    }
  }

  /** Any sublog picked by a test keeps ids unique. */
  lemma {:induction false} FilterKeepsUnique(p: Entry -> bool, log: seq<Entry>)
    requires UniqueIds(log)
    ensures UniqueIds(Filter(p, log))
  {
    if log != [] {
      var front, x := log[..|log| - 1], log[|log| - 1];
      FilterKeepsUnique(p, front);
      var f := Filter(p, front);
      forall i | 0 <= i < |f| && f[i].id > 0 ensures f[i].id != x.id {
        FilterMember(p, front, f[i]);
        var k :| 0 <= k < |front| && front[k] == f[i];
        assert log[k].id != log[|log| - 1].id;
      }
    }
  }

  lemma {:induction false} UniqueIdsList(es: seq<Entry>)
    requires UniqueIds(es)
    ensures forall i, j :: 0 <= i < j < |PositiveIds(es)| ==> PositiveIds(es)[i] != PositiveIds(es)[j]
  {
    if es != [] {
      var front, x := es[..|es| - 1], es[|es| - 1];
      UniqueIdsList(front);
      PositiveIdsMember(front, x.id);
    }
  }

  // The step keeps ids unique and the log bounded.

  lemma GrownUnique(live: seq<Entry>, h: Hash, id: int, now: Time)
    requires UniqueIds(live)
    ensures UniqueIds(Grown(live, h, id, now))
  {
    var kept := Kept(live, h, id);
    FilterKeepsUnique(NotMoved(h, id), live);
    if !IsRepeat(live, h, id) && id > 0 {
      forall i | 0 <= i < |kept| ensures kept[i].id != id {
        FilterMember(NotMoved(h, id), live, kept[i]);
      }
    }
  }

  lemma NextLogUnique(live: seq<Entry>, h: Hash, id: int, now: Time)
    requires UniqueIds(live)
    ensures UniqueIds(NextLog(live, h, id, now))
  {
    GrownUnique(live, h, id, now);
  }

  /** The message just tracked is in the log under its current content. */
  lemma NextLogHasMessage(live: seq<Entry>, h: Hash, id: int, now: Time)
    requires |live| <= MAX_ENTRIES
    ensures 0 < |NextLog(live, h, id, now)| <= MAX_ENTRIES
    ensures exists e :: e in NextLog(live, h, id, now) && e.hash == h && e.id == id
  {
    var log := NextLog(live, h, id, now);
    if IsRepeat(live, h, id) {
      var e :| e in live && e.hash == h && e.id == id;
      FilterMember(NotMoved(h, id), live, e);
      assert e in log;
    } else {
      assert log[|log| - 1] == Entry(h, now, id);
    }
  }

  lemma OwnOfNonEmpty(log: seq<Entry>, e: Entry)
    requires e in log
    ensures e in Own(log, e.hash)
  {
    FilterMember(OfHash(e.hash), log, e);
  }
}
