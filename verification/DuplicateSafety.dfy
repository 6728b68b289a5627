/** What holds in every state the duplicate detector can reach, whatever the clock, the cleanup
    and the cache do. */
module DuplicateSafety {
  import opened Sequences
  import opened DuplicateLog
  import opened DuplicateTrackers
  import opened DuplicateRuns

  ghost predicate LogOk(log: seq<Entry>) {
    UniqueIds(log) && |log| <= MAX_ENTRIES
  }

  ghost predicate Ok(st: State) {
    forall u :: u in st.users ==> LogOk(st.users[u].log) && st.users[u].log != []
  }

  lemma LiveOk(log: seq<Entry>, window: int, now: Time)
    requires LogOk(log)
    ensures LogOk(Live(log, window, now))
  {
    FilterKeepsUnique(LiveAt(window, now), log);
  }

  lemma CleanedOk(st: State, window: int, now: Time)
    requires Ok(st)
    ensures Ok(State(Cleaned(st.users, window, now), st.lastCleanup))
  {
    forall u | u in st.users ensures LogOk(Live(st.users[u].log, window, now)) {
      LiveOk(st.users[u].log, window, now);
    }
  }

  /** The reported count is that of a real, bounded set of entries. */
  lemma CountInRange(live: seq<Entry>, threshold: int, h: Hash, id: int, now: Time)
    requires LogOk(live)
    ensures 1 <= OutcomeOf(live, threshold, h, id, now).count <= MAX_ENTRIES
  {
    NextLogHasMessage(live, h, id, now);
    var e :| e in NextLog(live, h, id, now) && e.hash == h && e.id == id;
    OwnOfNonEmpty(NextLog(live, h, id, now), e);
  }

  lemma StepOk(cfg: Config, st: State, ev: Event)
    requires Ok(st)
    ensures Ok(Step(cfg, st, ev).0)
    ensures ev.Track? ==> Step(cfg, st, ev).1.Some? && 1 <= Step(cfg, st, ev).1.value.count <= MAX_ENTRIES
  {
    match ev
    case Track(u, h, id, now) =>
      CleanedOk(st, cfg.window, now);
      var tidy := Tidied(st, cfg.window, now);
      assert LogOk(LogOf(tidy, u));
      LiveOk(LogOf(tidy, u), cfg.window, now);
      var live := Live(LogOf(tidy, u), cfg.window, now);
      NextLogUnique(live, h, id, now);
      NextLogHasMessage(live, h, id, now);
      CountInRange(live, cfg.threshold, h, id, now);
    case Cleanup(now) => CleanedOk(st, cfg.window, now);
    case Expire(u, now) =>
    case Forget(u) =>
  }

  /** Over every run: ids stay unique, logs bounded, and every count lies in 1..200. */
  lemma {:induction false} RunOk(cfg: Config, st: State, evs: seq<Event>)
    requires Ok(st)
    ensures Ok(Run(cfg, st, evs).0)
    ensures |Run(cfg, st, evs).1| == |evs|
    ensures forall i :: 0 <= i < |evs| && evs[i].Track? ==>
              var o := Run(cfg, st, evs).1[i];
              o.Some? && 1 <= o.value.count <= MAX_ENTRIES
    decreases |evs|
  {
    if evs != [] {
      var (st1, o) := Step(cfg, st, evs[0]);
      StepOk(cfg, st, evs[0]);
      RunOk(cfg, st1, evs[1..]);
      var os := Run(cfg, st1, evs[1..]).1;
      assert Run(cfg, st, evs).1 == [o] + os;
      forall i | 0 <= i < |evs| && evs[i].Track?
        ensures ([o] + os)[i].Some? && 1 <= ([o] + os)[i].value.count <= MAX_ENTRIES
      {
        if i > 0 {
          assert evs[1..][i - 1] == evs[i];
        }
      }
    }
  }

  // The ids offered for deletion.

  /** ps are increasing positions before the last entry of the log, where h was posted as ids. */
  ghost predicate Embeds(ps: seq<nat>, ids: seq<int>, log: seq<Entry>, h: Hash) {
    && |ps| == |ids|
    && (forall i, j :: 0 <= i < j < |ps| ==> ps[i] < ps[j])
    && (forall i :: 0 <= i < |ps| ==> ps[i] < |log| && log[ps[i]].hash == h && log[ps[i]].id == ids[i])
  }

  lemma EmbedsSnoc(ps: seq<nat>, ids: seq<int>, front: seq<Entry>, x: Entry, h: Hash)
    requires Embeds(ps, ids, front, h)
    ensures Embeds(ps, ids, front + [x], h)
    ensures x.hash == h ==> Embeds(ps + [|front|], ids + [x.id], front + [x], h)
  {
  }

  lemma LastNAt<T>(s: seq<T>, n: nat, i: nat)
    requires i < |LastN(s, n)|
    ensures LastN(s, n)[i] == s[|s| - |LastN(s, n)| + i]
  {
  }

  lemma EmbedsSuffix(ps: seq<nat>, ids: seq<int>, log: seq<Entry>, h: Hash, n: nat)
    requires Embeds(ps, ids, log, h)
    ensures Embeds(LastN(ps, n), LastN(ids, n), log, h)
  {
    var qs, cut := LastN(ps, n), LastN(ids, n);
    var skipped := |ps| - |qs|;
    forall i, j | 0 <= i < j < |qs| ensures qs[i] < qs[j] {
      LastNAt(ps, n, i);
      LastNAt(ps, n, j);
      assert ps[skipped + i] < ps[skipped + j];
    }
    forall i | 0 <= i < |qs| ensures qs[i] < |log| && log[qs[i]].hash == h && log[qs[i]].id == cut[i] {
      LastNAt(ps, n, i);
      LastNAt(ids, n, i);
      assert ps[skipped + i] < |log|;
    }
  }

  lemma {:induction false} OwnIdsEmbed(log: seq<Entry>, h: Hash) returns (ps: seq<nat>)
    ensures Embeds(ps, PositiveIds(Own(log, h)), log, h)
  {
    ps := [];
    if log != [] {
      var front, x := log[..|log| - 1], log[|log| - 1];
      ps := OwnIdsEmbed(front, h);
      EmbedsSnoc(ps, PositiveIds(Own(front, h)), front, x, h);
      assert log == front + [x];
      OwnSnoc(front, x, h);
      PositiveIdsSnoc(Own(front, h), x);
      if x.hash == h && x.id > 0 {
        ps := ps + [|front|];
      }
    }
  }

  /** The log without its last entry, which for a new message is the message itself. */
  function Earlier(log: seq<Entry>): seq<Entry> {
    if log == [] then [] else log[..|log| - 1]
  }

  lemma NewMessageIsLast(live: seq<Entry>, h: Hash, id: int, now: Time)
    requires !IsRepeat(live, h, id)
    ensures NextLog(live, h, id, now) != []
    ensures NextLog(live, h, id, now) == Earlier(NextLog(live, h, id, now)) + [Entry(h, now, id)]
    ensures forall e :: e in Earlier(NextLog(live, h, id, now)) ==> e in live
  {
    var log := NextLog(live, h, id, now);
    assert log[|log| - 1] == Entry(h, now, id);
    forall e | e in Earlier(log) ensures e in live {
      assert e in Kept(live, h, id);
      FilterMember(NotMoved(h, id), live, e);
    }
  }

  lemma AllButLastOfSuffix(ids: seq<int>, id: int)
    ensures var cut := AllButLast(LastN(ids + [id], MAX_IDS));
            cut == LastN(ids, MAX_IDS - 1)
  {
  }

  /** The ids of the earlier copies that a spam report may offer for deletion: the latest 99. */
  function Offered(earlier: seq<Entry>, h: Hash): seq<int> {
    LastN(PositiveIds(Own(earlier, h)), MAX_IDS - 1)
  }

  predicate Reports(live: seq<Entry>, threshold: int, h: Hash, id: int, now: Time) {
    !IsRepeat(live, h, id) && OutcomeOf(live, threshold, h, id, now).count >= threshold
  }

  /** For a message that carries an id, all of them are offered when it is reported, and nothing
      otherwise. */
  lemma ExtraIdsExactly(live: seq<Entry>, threshold: int, h: Hash, id: int, now: Time)
    requires id > 0
    ensures OutcomeOf(live, threshold, h, id, now).extraIds
         == if Reports(live, threshold, h, id, now) then Offered(Earlier(NextLog(live, h, id, now)), h) else []
  {
    if !IsRepeat(live, h, id) {
      NewIdsAre(live, h, id, now);
      AllButLastOfSuffix(PositiveIds(Own(Earlier(NextLog(live, h, id, now)), h)), id);
    }
  }

  lemma NewIdsAre(live: seq<Entry>, h: Hash, id: int, now: Time)
    requires id > 0 && !IsRepeat(live, h, id)
    ensures PositiveIds(Own(NextLog(live, h, id, now), h))
         == PositiveIds(Own(Earlier(NextLog(live, h, id, now)), h)) + [id]
  {
    var earlier := Earlier(NextLog(live, h, id, now));
    NewMessageIsLast(live, h, id, now);
    OwnSnoc(earlier, Entry(h, now, id), h);
    PositiveIdsSnoc(Own(earlier, h), Entry(h, now, id));
  }

  predicate AllDistinct(ids: seq<int>) {
    forall i, j :: 0 <= i < j < |ids| ==> ids[i] != ids[j]
  }

  /** For a real message id: what is offered are at most 99 ids, all distinct, in log order, each
      of an earlier live message of the same content, and never the current one. They are all
      such ids, or the latest 99, when the message is reported; otherwise there are none. */
  lemma ExtraIdsAreEarlierCopies(live: seq<Entry>, threshold: int, h: Hash, id: int, now: Time)
    returns (ps: seq<nat>)
    requires LogOk(live) && id > 0
    ensures var ids := OutcomeOf(live, threshold, h, id, now).extraIds;
            var earlier := Earlier(NextLog(live, h, id, now));
            && |ids| <= MAX_IDS - 1 && id !in ids && AllDistinct(ids)
            && Embeds(ps, ids, earlier, h)
            && (forall i :: 0 <= i < |ps| ==> earlier[ps[i]] in live)
            && ids == if Reports(live, threshold, h, id, now) then Offered(earlier, h) else []
  {
    ps := [];
    ExtraIdsExactly(live, threshold, h, id, now);
    if Reports(live, threshold, h, id, now) {
      NewMessageIsLast(live, h, id, now);
      OfferedDistinct(live, h, id, now);
      ps := OfferedEmbed(Earlier(NextLog(live, h, id, now)), h);
    }
  }

  lemma OfferedDistinct(live: seq<Entry>, h: Hash, id: int, now: Time)
    requires UniqueIds(live) && id > 0 && !IsRepeat(live, h, id)
    ensures var ids := Offered(Earlier(NextLog(live, h, id, now)), h);
            |ids| <= MAX_IDS - 1 && id !in ids && AllDistinct(ids)
  {
    var log := NextLog(live, h, id, now);
    NextLogUnique(live, h, id, now);
    FilterKeepsUnique(OfHash(h), log);
    UniqueIdsList(Own(log, h));
    NewIdsAre(live, h, id, now);
    DistinctSnoc(PositiveIds(Own(Earlier(log), h)), id);
  }

  lemma OfferedEmbed(earlier: seq<Entry>, h: Hash) returns (ps: seq<nat>)
    ensures Embeds(ps, Offered(earlier, h), earlier, h)
  {
    var qs := OwnIdsEmbed(earlier, h);
    EmbedsSuffix(qs, PositiveIds(Own(earlier, h)), earlier, h, MAX_IDS - 1);
    ps := LastN(qs, MAX_IDS - 1);
  }

  lemma DistinctSnoc(ids: seq<int>, id: int)
    requires forall i, j :: 0 <= i < j < |ids + [id]| ==> (ids + [id])[i] != (ids + [id])[j]
    ensures var cut := LastN(ids, MAX_IDS - 1);
            id !in cut && AllDistinct(cut)
  {
    var all := ids + [id];
    forall i | 0 <= i < |ids| ensures ids[i] != id {
      assert all[i] == ids[i] && all[|ids|] == id;
    }
    forall i, j | 0 <= i < j < |ids| ensures ids[i] != ids[j] {
      assert all[i] == ids[i] && all[j] == ids[j];
    }
  }

  /** The same for the next message in any reachable state: the positions are in the log as it
      then stands, and their entries are inside the window. */
  lemma ReachableExtraIds(cfg: Config, evs: seq<Event>, u: UserId, h: Hash, id: int, now: Time)
    returns (ps: seq<nat>)
    requires id > 0
    ensures var (st, o) := Step(cfg, Run(cfg, INITIAL, evs).0, Track(u, h, id, now));
            var earlier := Earlier(LogOf(st, u));
            && o.Some? && |o.value.extraIds| <= MAX_IDS - 1 && id !in o.value.extraIds && AllDistinct(o.value.extraIds)
            && Embeds(ps, o.value.extraIds, earlier, h)
            && (forall i :: 0 <= i < |ps| ==> earlier[ps[i]].time > now - cfg.window)
            && o.value.extraIds == if !o.value.isEdit && o.value.count >= cfg.threshold then Offered(earlier, h) else []
  {
    RunOk(cfg, INITIAL, evs);
    var before := Run(cfg, INITIAL, evs).0;
    CleanedOk(before, cfg.window, now);
    var log := LogOf(Tidied(before, cfg.window, now), u);
    LiveOk(log, cfg.window, now);
    var live := Live(log, cfg.window, now);
    ps := ExtraIdsAreEarlierCopies(live, cfg.threshold, h, id, now);
    var (st, o) := Step(cfg, before, Track(u, h, id, now));
    assert LogOf(st, u) == NextLog(live, h, id, now);
    forall i | 0 <= i < |ps| ensures Earlier(LogOf(st, u))[ps[i]].time > now - cfg.window {
      FilterMember(LiveAt(cfg.window, now), log, Earlier(LogOf(st, u))[ps[i]]);
    }
  }

  /** A message without an id is not among the tracked ids, yet the last of them is still left
      out: the latest earlier copy is never offered for deletion. */
  lemma NoIdSparesTheLatestCopy(live: seq<Entry>, threshold: int, h: Hash, id: int, now: Time)
    requires LogOk(live) && id <= 0
    ensures var o := OutcomeOf(live, threshold, h, id, now);
            var own := PositiveIds(Own(Earlier(NextLog(live, h, id, now)), h));
            o.count >= threshold && own != [] ==>
              o.extraIds == own[..|own| - 1] && own[|own| - 1] !in o.extraIds
  {
    var log := NextLog(live, h, id, now);
    NewMessageIsLast(live, h, id, now);
    OwnSnoc(Earlier(log), Entry(h, now, id), h);
    PositiveIdsSnoc(Own(Earlier(log), h), Entry(h, now, id));
    NextLogUnique(live, h, id, now);
    FilterKeepsUnique(OfHash(h), log);
    UniqueIdsList(Own(log, h));
  }
}
