/** The detector itself: a cache of user histories, updated in place by each tracked message. */
module DuplicateDetector {
  import opened Sequences
  import opened DuplicateLog
  import opened DuplicateTrackers
  import opened DuplicateRuns
  import opened DuplicateMeaning

  datatype History = History(log: seq<Entry>, trackers: map<Hash, Tracker>, touched: Time)

  lemma LiveSnoc(log: seq<Entry>, window: int, now: Time, i: nat)
    requires i < |log|
    ensures Live(log[..i + 1], window, now)
         == Live(log[..i], window, now) + if log[i].time > now - window then [log[i]] else []
  {
    assert log[..i + 1] == log[..i] + [log[i]];
    FilterSnoc(LiveAt(window, now), log[..i], log[i]);
  }

  /** Drops the entries outside the window and rebuilds every tracker from the rest. */
  method FilterExpired(log: seq<Entry>, window: int, now: Time)
    returns (res: seq<Entry>, trk: map<Hash, Tracker>)
    ensures res == Live(log, window, now)
    ensures TableExact(trk, res)
  {
    res, trk := [], map[];
    var i := 0;
    while i < |log|
      invariant 0 <= i <= |log|
      invariant res == Live(log[..i], window, now)
      invariant TableExact(trk, res)
    {
      var e := log[i];
      LiveSnoc(log, window, now, i);
      if e.time > now - window {
        ScanStep(trk, res, e);
        var t := TrackerOr(trk, e.hash);
        t := t.(count := t.count + 1);
        if e.id > 0 {
          t := t.(ids := t.ids + [e.id]);
        }
        if t.first.None? {
          t := t.(first := Some(e.time));
        }
        t := t.(last := Some(e.time));
        res, trk := res + [e], trk[e.hash := t];
      }
      i := i + 1;
    }
    assert log[..i] == log;
  }

  method RemoveMessageId(ids: seq<int>, id: int) returns (r: seq<int>)
    ensures r == RemoveFirst(ids, id)
  {
    var i := 0;
    while i < |ids|
      invariant 0 <= i <= |ids|
      invariant id !in ids[..i]
    {
      if ids[i] == id {
        RemoveFirstAt(ids, i);
        return ids[..i] + ids[i + 1..];
      }
      i := i + 1;
    }
    RemoveFirstAbsent(ids, id);
    return ids;
  }

  /** Handles an edit that changed the content: takes the message's old entry out of the log
      and out of the old content's tracker. */
  method DropMoved(live: seq<Entry>, trk: map<Hash, Tracker>, h: Hash, id: int)
    returns (kept: seq<Entry>, trk': map<Hash, Tracker>)
    requires UniqueIds(live) && TableExact(trk, live)
    ensures kept == Kept(live, h, id)
    ensures TableAgrees(trk', kept, None) && ExactAt(trk', kept, h)
  {
    kept, trk' := live, trk;
    var i := 0;
    if id > 0 {
      while i < |live|
        invariant 0 <= i <= |live|
        invariant forall j :: 0 <= j < i ==> NotMoved(h, id)(live[j])
      {
        var e := live[i];
        if e.id == id && e.hash != h {
          KeptWithout(live, i, h, id);
          MoveStep(trk, live, i, h);
          var t := trk[e.hash];
          var ids := RemoveMessageId(t.ids, id);
          t := t.(ids := ids, count := t.count - 1);
          trk' := if t.count == 0 then trk - {e.hash} else trk[e.hash := t];
          return live[..i] + live[i + 1..], trk';
        }
        i := i + 1;
      }
    }
    KeptAll(live, h, id);
    ExactTableAgrees(trk, live, h);
  }

  lemma ExactTableAgrees(trk: map<Hash, Tracker>, log: seq<Entry>, h: Hash)
    requires TableExact(trk, log)
    ensures TableAgrees(trk, log, None) && ExactAt(trk, log, h)
  {
    forall x ensures AgreesAt(trk, log, x, None) {
      assert ExactAt(trk, log, x);
    }
  }

  method FindRepeat(kept: seq<Entry>, h: Hash, id: int) returns (isEdit: bool)
    ensures isEdit == IsRepeat(kept, h, id)
  {
    isEdit := false;
    if id > 0 {
      for i := 0 to |kept|
        invariant forall j :: 0 <= j < i ==> !(kept[j].id == id && kept[j].hash == h)
      {
        if kept[i].id == id && kept[i].hash == h {
          return true;
        }
      }
    }
  }

  method DropOldest(trk: map<Hash, Tracker>, e: Entry) returns (out: map<Hash, Tracker>)
    ensures out == Shortened(trk, e)
  {
    out := trk;
    if e.hash in out {
      var t := out[e.hash];
      t := t.(count := t.count - 1);
      if e.id > 0 {
        var ids := RemoveMessageId(t.ids, e.id);
        t := t.(ids := ids);
      }
      out := if t.count == 0 then out - {e.hash} else out[e.hash := t];
    }
  }

  lemma TailSplits(log: seq<Entry>, i: nat)
    requires i < |log| && UniqueIds(log)
    ensures log[i..] == [log[i]] + log[i + 1..] && UniqueIds([log[i]] + log[i + 1..])
  {
    var tail := [log[i]] + log[i + 1..];
    forall j, k | 0 <= j < k < |tail| && tail[j].id > 0 ensures tail[j].id != tail[k].id {
      assert tail[j] == log[i + j] && tail[k] == log[i + k];
    }
  }

  /** Enforces the limit on entries, keeping the trackers aligned with what is left. */
  method LimitEntries(log: seq<Entry>, trk: map<Hash, Tracker>, ghost trimmed: Option<Hash>)
    returns (res: seq<Entry>, out: map<Hash, Tracker>)
    requires UniqueIds(log) && TableAgrees(trk, log, trimmed)
    ensures res == LastN(log, MAX_ENTRIES)
    ensures TableAgrees(out, res, trimmed)
    ensures |log| <= MAX_ENTRIES ==> out == trk
    ensures forall h :: h in out ==> h in trk && out[h].last == trk[h].last
    ensures |log| > MAX_ENTRIES ==> FirstsExact(out, res)
  {
    if |log| <= MAX_ENTRIES {
      return log, trk;
    }
    var start := |log| - MAX_ENTRIES;
    out := trk;
    var i := 0;
    assert log[0..] == log;
    while i < start
      invariant 0 <= i <= start
      invariant TableAgrees(out, log[i..], trimmed)
      invariant forall h :: h in out ==> h in trk && out[h].last == trk[h].last
    {
      TailSplits(log, i);
      DropStep(out, log[i], log[i + 1..], trimmed);
      out := DropOldest(out, log[i]);
      i := i + 1;
    }
    res := log[start..];
    out := RefreshFirsts(res, out, trimmed);
  }

  ghost predicate FirstExactAt(trk: map<Hash, Tracker>, log: seq<Entry>, h: Hash) {
    h in trk && Own(log, h) != [] ==> trk[h].first == Some(Own(log, h)[0].time)
  }

  ghost predicate FirstsExact(trk: map<Hash, Tracker>, log: seq<Entry>) {
    forall h :: FirstExactAt(trk, log, h)
  }

  /** The trackers out differ from trk in first only, which is right for the log so far wherever
      it has the content; seen are those contents that have a tracker. */
  ghost predicate RefreshedAt(trk: map<Hash, Tracker>, out: map<Hash, Tracker>, seen: set<Hash>, log: seq<Entry>,
                              h: Hash)
    requires out.Keys == trk.Keys
  {
    && (h in trk ==> out[h] == trk[h].(first := out[h].first) && out[h].first.Some?)
    && (if h in seen then Own(log, h) != [] else h !in trk || Own(log, h) == [])
    && FirstExactAt(out, log, h)
  }

  ghost predicate Refreshed(trk: map<Hash, Tracker>, out: map<Hash, Tracker>, seen: set<Hash>, log: seq<Entry>)
    requires out.Keys == trk.Keys
  {
    forall h :: RefreshedAt(trk, out, seen, log, h)
  }

  lemma RefreshStep(trk: map<Hash, Tracker>, out: map<Hash, Tracker>, seen: set<Hash>, log: seq<Entry>, e: Entry)
    requires out.Keys == trk.Keys && Refreshed(trk, out, seen, log)
    ensures if e.hash in out && e.hash !in seen
            then Refreshed(trk, out[e.hash := out[e.hash].(first := Some(e.time))], seen + {e.hash}, log + [e])
            else Refreshed(trk, out, seen, log + [e])
  {
    var found := e.hash in out && e.hash !in seen;
    var out' := if found then out[e.hash := out[e.hash].(first := Some(e.time))] else out;
    var seen' := if found then seen + {e.hash} else seen;
    forall h ensures RefreshedAt(trk, out', seen', log + [e], h) {
      assert RefreshedAt(trk, out, seen, log, h);
      OwnSnoc(log, e, h);
    }
  }

  /** Recalculates firstSeen of every tracker from the entries that are left. */
  method RefreshFirsts(log: seq<Entry>, trk: map<Hash, Tracker>, ghost trimmed: Option<Hash>)
    returns (out: map<Hash, Tracker>)
    requires TableAgrees(trk, log, trimmed)
    ensures TableAgrees(out, log, trimmed)
    ensures FirstsExact(out, log)
    ensures out.Keys == trk.Keys && forall h :: h in out ==> out[h].last == trk[h].last
  {
    out := trk;
    forall h ensures RefreshedAt(trk, trk, {}, [], h) {
      assert AgreesAt(trk, log, h, trimmed);
    }
    var seen: set<Hash> := {};
    var j := 0;
    while j < |log|
      invariant 0 <= j <= |log|
      invariant out.Keys == trk.Keys && Refreshed(trk, out, seen, log[..j])
    {
      var e := log[j];
      assert log[..j + 1] == log[..j] + [e];
      RefreshStep(trk, out, seen, log[..j], e);
      if e.hash in out {
        if e.hash !in seen {
          out := out[e.hash := out[e.hash].(first := Some(e.time))];
          seen := seen + {e.hash};
        }
      }
      j := j + 1;
    }
    assert log[..j] == log;
    forall h ensures AgreesAt(out, log, h, trimmed) && FirstExactAt(out, log, h)
                     && (h in out ==> out[h].last == trk[h].last) {
      assert AgreesAt(trk, log, h, trimmed) && RefreshedAt(trk, out, seen, log, h);
    }
  }

  /** What must hold of a stored tracker: the exact count and a suffix of the positive ids. */
  ghost predicate StoredAt(trk: map<Hash, Tracker>, log: seq<Entry>, h: Hash) {
    && (h in trk <==> Own(log, h) != [])
    && (h in trk ==> Agrees(trk[h], log, h, true) || Agrees(trk[h], log, h, false))
  }

  ghost predicate HistoryOk(hist: History) {
    && UniqueIds(hist.log)
    && 0 < |hist.log| <= MAX_ENTRIES
    && forall h :: StoredAt(hist.trackers, hist.log, h)
  }

  lemma AgreesIsStored(trk: map<Hash, Tracker>, log: seq<Entry>, trimmed: Option<Hash>)
    requires TableAgrees(trk, log, trimmed)
    ensures forall h :: StoredAt(trk, log, h)
  {
    forall h ensures StoredAt(trk, log, h) {
      assert AgreesAt(trk, log, h, trimmed);
    }
  }

  lemma ExactIsStored(trk: map<Hash, Tracker>, log: seq<Entry>)
    requires TableExact(trk, log)
    ensures forall h :: StoredAt(trk, log, h)
  {
    forall h ensures StoredAt(trk, log, h) {
      assert ExactAt(trk, log, h);
    }
  }

  /** Counts a message that is not an edit of one with the same content. */
  method AppendMessage(kept: seq<Entry>, trk: map<Hash, Tracker>, h: Hash, id: int, now: Time)
    returns (log: seq<Entry>, out: map<Hash, Tracker>)
    requires TableAgrees(trk, kept, None) && ExactAt(trk, kept, h)
    ensures log == kept + [Entry(h, now, id)]
    ensures TableAgrees(out, log, if id > 0 then Some(h) else None)
    ensures h in out && SpansTo(out[h], log, h, now)
  {
    var tracker := TrackerOr(trk, h);
    var e := Entry(h, now, id);
    log := kept + [e];
    tracker := tracker.(count := tracker.count + 1);
    if id > 0 {
      tracker := tracker.(ids := tracker.ids + [id]);
      if |tracker.ids| > MAX_IDS {
        tracker := tracker.(ids := tracker.ids[|tracker.ids| - MAX_IDS..]);
      }
    }
    if tracker.first.None? {
      tracker := tracker.(first := Some(now));
    }
    tracker := tracker.(last := Some(now));
    AppendStep(trk, kept, e, tracker);
    out := trk[h := tracker];
  }

  /** An edit that kept the content only moves the last time. */
  method TouchRepeat(kept: seq<Entry>, trk: map<Hash, Tracker>, h: Hash, ghost id: int, now: Time)
    returns (out: map<Hash, Tracker>)
    requires TableAgrees(trk, kept, None) && ExactAt(trk, kept, h) && IsRepeat(kept, h, id)
    ensures TableAgrees(out, kept, None)
    ensures h in out && SpansTo(out[h], kept, h, now)
  {
    RepeatOccurs(kept, h, id);
    var tracker := TrackerOr(trk, h);
    tracker := tracker.(last := Some(now));
    LastSeenStep(trk, kept, h, now);
    out := trk[h := tracker];
  }

  /** The tracker runs from the content's earliest entry to now. */
  ghost predicate SpansTo(t: Tracker, log: seq<Entry>, h: Hash, now: Time) {
    Own(log, h) != [] && t.first == Some(Own(log, h)[0].time) && t.last == Some(now)
  }

  /** The tracker table and log after the message: everything trackMessage does between
      reading a user's history and storing it back. */
  method TrackInLog(log: seq<Entry>, window: int, h: Hash, id: int, now: Time)
    returns (log': seq<Entry>, trk': map<Hash, Tracker>, isEdit: bool)
    requires UniqueIds(log) && |log| <= MAX_ENTRIES
    ensures log' == NextLog(Live(log, window, now), h, id, now)
    ensures isEdit == IsRepeat(Live(log, window, now), h, id)
    ensures TableAgrees(trk', log', if !isEdit && id > 0 then Some(h) else None)
    ensures h in trk' && SpansTo(trk'[h], log', h, now)
  {
    var live, trk := FilterExpired(log, window, now);
    FilterKeepsUnique(LiveAt(window, now), log);
    GrownUnique(live, h, id, now);
    var kept;
    kept, trk := DropMoved(live, trk, h, id);
    KeptRepeat(live, h, id);
    isEdit := FindRepeat(kept, h, id);
    if !isEdit {
      kept, trk := AppendMessage(kept, trk, h, id, now);
    } else {
      trk := TouchRepeat(kept, trk, h, id, now);
    }
    assert kept == Grown(live, h, id, now);
    ghost var trimmed := if !isEdit && id > 0 then Some(h) else None;
    log', trk' := LimitEntries(kept, trk, trimmed);
    CurrentOccurs(live, h, id, now);
    assert AgreesAt(trk', log', h, trimmed);
    assert |kept| > MAX_ENTRIES ==> FirstExactAt(trk', log', h);
  }

  /** The tracker of the content just tracked spans from its earliest entry to now. */
  ghost predicate CurrentTracked(hist: History, h: Hash, now: Time) {
    var own := Own(hist.log, h);
    && h in hist.trackers && own != []
    && hist.trackers[h].first == Some(own[0].time) && hist.trackers[h].last == Some(now)
  }

  method TrackInHistory(log: seq<Entry>, threshold: int, window: int, h: Hash, id: int, now: Time)
    returns (hist: History, r: Outcome)
    requires UniqueIds(log) && |log| <= MAX_ENTRIES
    ensures HistoryOk(hist) && CurrentTracked(hist, h, now) && hist.touched == now
    ensures hist.log == NextLog(Live(log, window, now), h, id, now)
    ensures r == OutcomeOf(Live(log, window, now), threshold, h, id, now)
    ensures r.count == |Copies(hist.log, h)|
  {
    var log', trackers, isEdit := TrackInLog(log, window, h, id, now);
    ghost var live := Live(log, window, now);
    FilterKeepsUnique(LiveAt(window, now), log);
    NextLogUnique(live, h, id, now);
    NextLogHasMessage(live, h, id, now);
    ghost var trimmed := if !isEdit && id > 0 then Some(h) else None;
    AgreesIsStored(trackers, log', trimmed);
    assert AgreesAt(trackers, log', h, trimmed);
    var tracker := trackers[h];
    var extraIds: seq<int> := [];
    if tracker.count >= threshold && !isEdit {
      if |tracker.ids| > 1 {
        extraIds := tracker.ids[..|tracker.ids| - 1];
      }
    }
    CopiesAre(log', h);
    hist := History(log', trackers, now);
    r := Outcome(tracker.count, extraIds, isEdit);
  }

  lemma KeptRepeat(live: seq<Entry>, h: Hash, id: int)
    ensures IsRepeat(Kept(live, h, id), h, id) == IsRepeat(live, h, id)
  {
    forall e | e in live && e.hash == h && e.id == id ensures e in Kept(live, h, id) {
      FilterMember(NotMoved(h, id), live, e);
    }
    forall e | e in Kept(live, h, id) ensures e in live {
      FilterMember(NotMoved(h, id), live, e);
    }
  }

  lemma RepeatOccurs(log: seq<Entry>, h: Hash, id: int)
    requires IsRepeat(log, h, id)
    ensures Own(log, h) != []
  {
    var e :| e in log && e.hash == h && e.id == id;
    OwnOfNonEmpty(log, e);
  }

  lemma CurrentOccurs(live: seq<Entry>, h: Hash, id: int, now: Time)
    requires |live| <= MAX_ENTRIES
    ensures Own(NextLog(live, h, id, now), h) != []
  {
    NextLogHasMessage(live, h, id, now);
    var e :| e in NextLog(live, h, id, now) && e.hash == h && e.id == id;
    OwnOfNonEmpty(NextLog(live, h, id, now), e);
  }

  lemma LastSeenStep(trk: map<Hash, Tracker>, log: seq<Entry>, h: Hash, now: Time)
    requires TableAgrees(trk, log, None) && h in trk
    ensures TableAgrees(trk[h := trk[h].(last := Some(now))], log, None)
  {
    var trk' := trk[h := trk[h].(last := Some(now))];
    forall x ensures AgreesAt(trk', log, x, None) {
      assert AgreesAt(trk, log, x, None);
    }
  }

  datatype UserRef = NoUser | NotANumber | User(id: UserId)

  datatype Request = Request(msg: string, user: UserRef, messageId: int)

  const SECOND: int := 1_000_000_000

  /** How long the duplicates were spread over, as shown in the details text. */
  datatype Spread = WholeWindow | Instantly | Lasting(d: int)

  datatype Response =
    | CheckDisabled | EmptySkipped | InvalidUser | MessageEdit | NoDuplicates
    | Repeated(count: int, spread: Spread, extraDeleteIds: seq<int>)
  {
    predicate Spam() { Repeated? }
  }

  /** Duration.Round(time.Second): to the nearest second, halves away from zero. */
  function RoundToSecond(d: int): (r: int)
    ensures r % SECOND == 0
    ensures if d < 0 then -SECOND <= 2 * (r - d) < SECOND else -SECOND < 2 * (r - d) <= SECOND
  {
    if d < 0 then -((-d + SECOND / 2) / SECOND * SECOND) else (d + SECOND / 2) / SECOND * SECOND
  }

  /** White space as strings.TrimSpace understands it: the Unicode White_Space property. */
  predicate IsSpace(c: char) {
    || '\t' <= c <= '\r' || c == ' ' || c == '\U{85}' || c == '\U{A0}' || c == '\U{1680}'
    || '\U{2000}' <= c <= '\U{200A}' || c == '\U{2028}' || c == '\U{2029}' || c == '\U{202F}'
    || c == '\U{205F}' || c == '\U{3000}'
  }

  /** These are 25 characters. */
  lemma SpacesAre(c: char)
    ensures IsSpace(c)
       <==> c in {'\t', '\n', '\U{0B}', '\U{0C}', '\r', ' ', '\U{85}', '\U{A0}', '\U{1680}', '\U{2000}', '\U{2001}',
                  '\U{2002}', '\U{2003}', '\U{2004}', '\U{2005}', '\U{2006}', '\U{2007}', '\U{2008}', '\U{2009}',
                  '\U{200A}', '\U{2028}', '\U{2029}', '\U{202F}', '\U{205F}', '\U{3000}'}
  {
  }

  predicate IsBlank(msg: string) {
    forall i :: 0 <= i < |msg| ==> IsSpace(msg[i])
  }

  /** What cleaning makes of user u: nothing yet, or only the live entries. */
  ghost predicate CleanedAt(was: map<UserId, History>, cur: map<UserId, History>, u: UserId,
                            pending: bool, window: int, now: Time)
    requires u in was
  {
    var live := Live(was[u].log, window, now);
    if pending then u in cur && cur[u] == was[u]
    else (u in cur <==> live != []) && (u in cur ==> cur[u].log == live && cur[u].touched == now)
  }

  ghost function Users(cache: map<UserId, History>): map<UserId, UserLog> {
    map u | u in cache :: UserLog(cache[u].log, cache[u].touched)
  }

  lemma UsersStore(cache: map<UserId, History>, u: UserId, hist: History)
    ensures Users(cache[u := hist]) == Users(cache)[u := UserLog(hist.log, hist.touched)]
  {
  }

  lemma CleanedEverywhere(was: map<UserId, History>, cur: map<UserId, History>, window: int, now: Time)
    requires cur.Keys <= was.Keys
    requires forall u :: u in was ==> CleanedAt(was, cur, u, false, window, now)
    ensures Users(cur) == Cleaned(Users(was), window, now)
  {
    var cleaned := Cleaned(Users(was), window, now);
    forall u | u in was ensures u in cleaned <==> u in cur {
      assert CleanedAt(was, cur, u, false, window, now);
    }
    forall u | u in cur ensures Users(cur)[u] == cleaned[u] {
      assert CleanedAt(was, cur, u, false, window, now);
    }
  }

  class Detector {
    const threshold: int
    const window: int
    var cache: map<UserId, History>
    var lastCleanup: Option<Time>

    constructor (threshold: int, window: int)
      requires threshold > 0
      ensures this.threshold == threshold && this.window == window
      ensures Valid() && View() == INITIAL
    {
      this.threshold, this.window := threshold, window;
      cache, lastCleanup := map[], None;
    }

    ghost predicate Valid()
      reads this
    {
      forall u :: u in cache ==> HistoryOk(cache[u])
    }

    ghost function View(): State
      reads this
    {
      State(Users(cache), lastCleanup)
    }

    ghost function Settings(): Config {
      Config(threshold, window)
    }

    /** Removes one user's expired entries; forgets a user left without any. */
    method CleanUser(u: UserId, now: Time)
      requires Valid() && u in cache
      modifies `cache
      ensures Valid()
      ensures var live := Live(old(cache)[u].log, window, now);
              if live == [] then cache == old(cache) - {u}
              else u in cache && cache == old(cache)[u := cache[u]] && cache[u].log == live && cache[u].touched == now
    {
      var hist := cache[u];
      var filtered, trackers := FilterExpired(hist.log, window, now);
      FilterKeepsUnique(LiveAt(window, now), hist.log);
      ExactIsStored(trackers, filtered);
      if |filtered| == 0 {
        cache := cache - {u};
      } else {
        cache := cache[u := History(filtered, trackers, now)];
      }
    }

    /** Removes expired entries of every user. */
    method PerformCleanup(now: Time)
      requires Valid()
      modifies `cache
      ensures Valid()
      ensures View() == Step(Settings(), old(View()), Cleanup(now)).0
    {
      var keys := cache.Keys;
      ghost var was := cache;
      while keys != {}
        invariant Valid()
        invariant keys <= cache.Keys <= was.Keys
        invariant forall u :: u in was ==> CleanedAt(was, cache, u, u in keys, window, now)
      {
        var u :| u in keys;
        ghost var before := cache;
        assert CleanedAt(was, before, u, true, window, now);
        CleanUser(u, now);
        keys := keys - {u};
        forall v | v in was ensures CleanedAt(was, cache, v, v in keys, window, now) {
          assert CleanedAt(was, before, v, v in keys + {u}, window, now);
        }
      }
      CleanedEverywhere(was, cache, window, now);
    }

    method TidyUp(now: Time)
      requires Valid()
      modifies `cache, `lastCleanup
      ensures Valid()
      ensures View() == Tidied(old(View()), window, now)
      ensures View() == if old(lastCleanup).None? || now - old(lastCleanup).value > 600_000_000_000
                        then State(Cleaned(old(View()).users, window, now), Some(now)) else old(View())
    {
      if lastCleanup.None? || now - lastCleanup.value > CLEANUP_INTERVAL {
        PerformCleanup(now);
        lastCleanup := Some(now);
      }
    }

    /** Records a message and reports how often its content occurs in the window, which other
        messages repeat it, and whether it is a same-content edit. */
    method TrackMessage(user: UserId, h: Hash, id: int, now: Time) returns (r: Outcome)
      requires Valid()
      modifies `cache, `lastCleanup
      ensures Valid()
      ensures (View(), Some(r)) == Step(Settings(), old(View()), Track(user, h, id, now))
      ensures user in cache && CurrentTracked(cache[user], h, now)
      ensures r.count == |Copies(cache[user].log, h)| && LogOf(View(), user) == cache[user].log
    {
      TidyUp(now);
      var log := if user in cache then cache[user].log else [];
      assert user in cache ==> HistoryOk(cache[user]);
      assert log == LogOf(View(), user);
      var hist;
      hist, r := TrackInHistory(log, threshold, window, h, id, now);
      UsersStore(cache, user, hist);
      cache := cache[user := hist];
    }

    method FormatDuration(user: UserId, h: Hash) returns (s: Spread)
      ensures user !in cache || h !in cache[user].trackers ==> s == WholeWindow
      ensures user in cache && h in cache[user].trackers ==>
                var t := cache[user].trackers[h];
                s == if t.first.None? || t.last.None? then WholeWindow
                     else if t.last.value == t.first.value then Instantly
                     else Lasting(RoundToSecond(t.last.value - t.first.value))
    {
      if user !in cache || h !in cache[user].trackers {
        return WholeWindow;
      }
      var t := cache[user].trackers[h];
      if t.first.None? || t.last.None? {
        return WholeWindow;
      }
      var d := t.last.value - t.first.value;
      return if d == 0 then Instantly else Lasting(RoundToSecond(d));
    }

    /** The response to a message that was just tracked. */
    method Respond(r: Outcome, user: UserId, h: Hash, now: Time) returns (resp: Response)
      requires user in cache && CurrentTracked(cache[user], h, now)
      ensures var own := Own(cache[user].log, h);
              resp == if r.isEdit then MessageEdit
                      else if r.count < threshold then NoDuplicates
                      else Repeated(r.count,
                                    if own[0].time == now then Instantly else Lasting(RoundToSecond(now - own[0].time)),
                                    r.extraIds)
    {
      if r.isEdit {
        return MessageEdit;
      }
      if r.count >= threshold {
        var spread := FormatDuration(user, h);
        return Repeated(r.count, spread, r.extraIds);
      }
      return NoDuplicates;
    }

    /** The response to a message: none to an edit; spam exactly when the user's log then holds
        `threshold` copies of it, with their number and the time since the first. */
    ghost predicate Answers(resp: Response, o: Outcome, user: UserId, h: Hash, now: Time)
      reads this
    {
      && user in cache && LogOf(View(), user) == cache[user].log
      && var log := cache[user].log;
         if o.isEdit then resp == MessageEdit
         else if |Copies(log, h)| < threshold then resp == NoDuplicates
         else
           && resp.Repeated? && resp.count == |Copies(log, h)| && resp.extraDeleteIds == o.extraIds
           && var own := Own(log, h);
              && own != []
              && resp.spread == if own[0].time == now then Instantly else Lasting(RoundToSecond(now - own[0].time))
    }

    method CheckMessage(user: UserId, h: Hash, id: int, now: Time) returns (resp: Response, ghost o: Outcome)
      requires Valid()
      modifies this
      ensures Valid() && (View(), Some(o)) == Step(Settings(), old(View()), Track(user, h, id, now))
      ensures Answers(resp, o, user, h, now)
    {
      var r := TrackMessage(user, h, id, now);
      o := r;
      resp := Respond(r, user, h, now);
    }

    /** The check as the message pipeline calls it; the detector is null when disabled. Blank messages
        and users that are no numbers are skipped. */
    static method Check(d: Detector?, req: Request, now: Time) returns (resp: Response, ghost o: Outcome)
      requires d != null ==> d.Valid()
      modifies if d == null then {} else {d}
      ensures d != null ==> d.Valid()
      ensures resp.CheckDisabled? <==> d == null || d.threshold <= 0 || req.user.NoUser?
      ensures resp.EmptySkipped? <==>
                !resp.CheckDisabled? && forall i :: 0 <= i < |req.msg| ==> IsSpace(req.msg[i])
      ensures resp.InvalidUser? <==> !resp.CheckDisabled? && !resp.EmptySkipped? && req.user.NotANumber?
      ensures d != null && (resp.CheckDisabled? || resp.EmptySkipped? || resp.InvalidUser?) ==>
                d.View() == old(d.View())
      ensures !resp.CheckDisabled? && !resp.EmptySkipped? && !resp.InvalidUser? ==>
                && (d.View(), Some(o))
                   == Step(d.Settings(), old(d.View()), Track(req.user.id, req.msg, req.messageId, now))
                && d.Answers(resp, o, req.user.id, req.msg, now)
    {
      o := Outcome(0, [], false);
      if d == null || d.threshold <= 0 || req.user.NoUser? {
        resp := CheckDisabled;
        return;
      }
      if IsBlank(req.msg) {
        resp := EmptySkipped;
        return;
      }
      if req.user.NotANumber? {
        resp := InvalidUser;
        return;
      }
      resp, o := d.CheckMessage(req.user.id, req.msg, req.messageId, now);
    }
  }
}
