/** What one tracked message does and reports, said of the entries of the user's log alone. */
module DuplicateMeaning {
  import opened Sequences
  import opened DuplicateLog
  import opened DuplicateTrackers
  import opened DuplicateRuns
  import opened DuplicateSafety

  /** The entry outlives the message: it is inside the window, and does not record the same message
      under another content. */
  predicate Stays(window: int, e: Entry, h: Hash, id: int, now: Time) {
    e.time > now - window && !(id > 0 && e.id == id && e.hash != h)
  }

  /** The positions behind i whose entries stay. */
  ghost function StayingBehind(window: int, log: seq<Entry>, h: Hash, id: int, now: Time, i: int): set<int> {
    set j | 0 <= j < |log| && i < j && Stays(window, log[j], h, id, now)
  }

  function Staying(window: int, h: Hash, id: int, now: Time): Entry -> bool {
    (e: Entry) => Stays(window, e, h, id, now)
  }

  lemma LiveOfTidied(cfg: Config, st: State, u: UserId, now: Time)
    ensures Live(LogOf(Tidied(st, cfg.window, now), u), cfg.window, now) == Live(LogOf(st, u), cfg.window, now)
  {
    FilterAbsorbs(LiveAt(cfg.window, now), LiveAt(cfg.window, now), LogOf(st, u));
  }

  lemma KeptAre(window: int, log: seq<Entry>, h: Hash, id: int, now: Time)
    ensures Kept(Live(log, window, now), h, id) == Filter(Staying(window, h, id, now), log)
  {
    FilterTwice(LiveAt(window, now), NotMoved(h, id), log);
    FilterSame(Both(LiveAt(window, now), NotMoved(h, id)), Staying(window, h, id, now), log);
  }

  lemma RepeatIs(window: int, log: seq<Entry>, h: Hash, id: int, now: Time)
    ensures IsRepeat(Live(log, window, now), h, id)
       <==> id > 0 && exists i :: 0 <= i < |log| && log[i].hash == h && log[i].id == id && log[i].time > now - window
  {
    var live := Live(log, window, now);
    if e :| e in live && e.hash == h && e.id == id {
      FilterMember(LiveAt(window, now), log, e);
      var i :| 0 <= i < |log| && log[i] == e;
    }
    if i :| 0 <= i < |log| && log[i].hash == h && log[i].id == id && log[i].time > now - window {
      FilterMember(LiveAt(window, now), log, log[i]);
    }
  }

  /** A message is an edit exactly when it has an id and the log holds it, inside the window, under
      the same content. */
  lemma EditMeans(cfg: Config, before: State, u: UserId, h: Hash, id: int, now: Time)
    ensures var (st, o) := Step(cfg, before, Track(u, h, id, now));
            var was := LogOf(before, u);
            && o.Some?
            && (o.value.isEdit <==>
                  id > 0 && exists i :: 0 <= i < |was| && was[i].hash == h && was[i].id == id
                                        && was[i].time > now - cfg.window)
  {
    LiveOfTidied(cfg, before, u, now);
    RepeatIs(cfg.window, LogOf(before, u), h, id, now);
  }

  ghost function Copies(log: seq<Entry>, h: Hash): set<int> {
    set i | 0 <= i < |log| && log[i].hash == h
  }

  lemma CopiesAre(log: seq<Entry>, h: Hash)
    ensures |Own(log, h)| == |Copies(log, h)|
  {
    FilterSize(OfHash(h), log);
    assert Places(OfHash(h), log) == Copies(log, h);
  }

  /** The count reported is the number of entries with the message's content in the log as it
      stands afterwards. */
  lemma CountMeans(cfg: Config, before: State, u: UserId, h: Hash, id: int, now: Time)
    ensures var (st, o) := Step(cfg, before, Track(u, h, id, now));
            o.Some? && o.value.count == |Copies(LogOf(st, u), h)|
  {
    CopiesAre(LogOf(Step(cfg, before, Track(u, h, id, now)).0, u), h);
  }

  /** The log that message leaves of `was`: the entries that stay, in order, then as many new ones
      as were added, and of all these the last 200. An entry that stays is found from the end. */
  ghost predicate Leaves(window: int, was: seq<Entry>, h: Hash, id: int, now: Time, added: nat, log: seq<Entry>) {
    var all := |StayingBehind(window, was, h, id, now, -1)| + added;
    && |log| == (if all <= 200 then all else 200)
    && forall i :: 0 <= i < |was| && Stays(window, was[i], h, id, now) ==>
         LeftAt(log, |StayingBehind(window, was, h, id, now, i)| + added, was[i])
  }

  /** The entry has so many behind it in the log, unless these alone fill it. */
  predicate LeftAt(log: seq<Entry>, behind: nat, e: Entry) {
    behind < 200 ==> behind < |log| && log[|log| - 1 - behind] == e
  }

  lemma FromTheEnd(kept: seq<Entry>, new_: seq<Entry>, log: seq<Entry>, behind: nat, e: Entry)
    requires behind < |kept| && kept[|kept| - 1 - behind] == e && log == LastN(kept + new_, MAX_ENTRIES)
    ensures LeftAt(log, behind + |new_|, e)
  {
    var all := kept + new_;
    assert all[|kept| - 1 - behind] == e;
    if behind + |new_| < 200 {
      LastNAt(all, MAX_ENTRIES, |log| - 1 - (behind + |new_|));
    }
  }

  lemma StayCount(window: int, was: seq<Entry>, h: Hash, id: int, now: Time)
    ensures |Filter(Staying(window, h, id, now), was)| == |StayingBehind(window, was, h, id, now, -1)|
  {
    var p := Staying(window, h, id, now);
    FilterSize(p, was);
    assert Places(p, was) == StayingBehind(window, was, h, id, now, -1);
  }

  lemma StayPlace(window: int, was: seq<Entry>, h: Hash, id: int, now: Time, i: nat)
    requires i < |was| && Stays(window, was[i], h, id, now)
    ensures var kept, behind := Filter(Staying(window, h, id, now), was), |StayingBehind(window, was, h, id, now, i)|;
            behind < |kept| && kept[|kept| - 1 - behind] == was[i]
  {
    var p := Staying(window, h, id, now);
    FilterPlace(p, was, i);
    assert LaterPlaces(p, was, i) == StayingBehind(window, was, h, id, now, i);
  }

  lemma StaysLeft(window: int, was: seq<Entry>, h: Hash, id: int, now: Time, kept: seq<Entry>, new_: seq<Entry>,
                  log: seq<Entry>, i: nat)
    requires i < |was| && Stays(window, was[i], h, id, now)
    requires kept == Filter(Staying(window, h, id, now), was) && log == LastN(kept + new_, MAX_ENTRIES)
    ensures LeftAt(log, |StayingBehind(window, was, h, id, now, i)| + |new_|, was[i])
  {
    StayPlace(window, was, h, id, now, i);
    FromTheEnd(kept, new_, log, |StayingBehind(window, was, h, id, now, i)|, was[i]);
  }

  lemma LeavesKept(window: int, was: seq<Entry>, h: Hash, id: int, now: Time, kept: seq<Entry>, new_: seq<Entry>,
                   log: seq<Entry>)
    requires kept == Filter(Staying(window, h, id, now), was) && log == LastN(kept + new_, MAX_ENTRIES)
    ensures Leaves(window, was, h, id, now, |new_|, log)
  {
    StayCount(window, was, h, id, now);
    forall i | 0 <= i < |was| && Stays(window, was[i], h, id, now)
      ensures LeftAt(log, |StayingBehind(window, was, h, id, now, i)| + |new_|, was[i])
    {
      StaysLeft(window, was, h, id, now, kept, new_, log, i);
    }
  }

  /** So the log after a message: an edit adds nothing, another message adds itself. */
  lemma LogMeans(cfg: Config, before: State, u: UserId, h: Hash, id: int, now: Time)
    ensures var (st, o) := Step(cfg, before, Track(u, h, id, now));
            var log := LogOf(st, u);
            && o.Some? && Leaves(cfg.window, LogOf(before, u), h, id, now, if o.value.isEdit then 0 else 1, log)
            && (!o.value.isEdit ==> log != [] && log[|log| - 1] == Entry(h, now, id))
  {
    var was := LogOf(before, u);
    LiveOfTidied(cfg, before, u, now);
    KeptAre(cfg.window, was, h, id, now);
    LeavesKept(cfg.window, was, h, id, now, Filter(Staying(cfg.window, h, id, now), was),
               if IsRepeat(Live(was, cfg.window, now), h, id) then [] else [Entry(h, now, id)],
               LogOf(Step(cfg, before, Track(u, h, id, now)).0, u));
  }

  // The ids offered for deletion.

  function CopyWithId(h: Hash): Entry -> bool {
    (e: Entry) => e.hash == h && e.id > 0
  }

  function Ids(es: seq<Entry>): (ids: seq<int>)
    ensures |ids| == |es| && forall i :: 0 <= i < |ids| ==> ids[i] == es[i].id
  {
    if es == [] then [] else Ids(es[..|es| - 1]) + [es[|es| - 1].id]
  }

  lemma {:induction false} TrackedAre(log: seq<Entry>, h: Hash)
    ensures PositiveIds(Own(log, h)) == Ids(Filter(CopyWithId(h), log))
  {
    if log != [] {
      var front, x := log[..|log| - 1], log[|log| - 1];
      TrackedAre(front, h);
      assert log == front + [x];
      OwnSnoc(front, x, h);
      PositiveIdsSnoc(Own(front, h), x);
      FilterSnoc(CopyWithId(h), front, x);
      var f := Filter(CopyWithId(h), front);
      assert (f + [x])[..|f|] == f;
    }
  }

  /** The positions behind i of copies that carry an id. */
  ghost function IdsBehind(log: seq<Entry>, h: Hash, i: int): set<int> {
    set j | 0 <= j < |log| && i < j && log[j].hash == h && log[j].id > 0
  }

  lemma IdPlace(log: seq<Entry>, h: Hash, i: nat)
    requires i < |log| && log[i].hash == h && log[i].id > 0
    ensures var ids := PositiveIds(Own(log, h));
            var k := |ids| - 1 - |IdsBehind(log, h, i)|;
            0 <= k && ids[k] == log[i].id
  {
    TrackedAre(log, h);
    FilterPlace(CopyWithId(h), log, i);
    assert LaterPlaces(CopyWithId(h), log, i) == IdsBehind(log, h, i);
  }

  lemma IdCount(log: seq<Entry>, h: Hash)
    ensures |PositiveIds(Own(log, h))| == |IdsBehind(log, h, -1)|
  {
    TrackedAre(log, h);
    FilterSize(CopyWithId(h), log);
    assert Places(CopyWithId(h), log) == IdsBehind(log, h, -1);
  }

  /** ids are those of the copies in the log, in order: without the latest `spared` ones, and of
      the others the latest `most`. */
  ghost predicate IdsOfCopies(ids: seq<int>, log: seq<Entry>, h: Hash, spared: nat, most: nat) {
    var all := |IdsBehind(log, h, -1)|;
    && |ids| == (if all <= spared then 0 else if all - spared <= most then all - spared else most)
    && forall i :: 0 <= i < |log| && log[i].hash == h && log[i].id > 0 ==>
         IdAt(ids, |IdsBehind(log, h, i)|, spared, most, log[i].id)
  }

  predicate IdAt(ids: seq<int>, behind: nat, spared: nat, most: nat, id: int) {
    spared <= behind < spared + most ==>
      behind - spared < |ids| && ids[|ids| - 1 - (behind - spared)] == id
  }

  lemma OfferedAt(own: seq<int>, behind: nat, id: int)
    requires behind < |own| && own[|own| - 1 - behind] == id
    ensures IdAt(LastN(own, MAX_IDS - 1), behind, 0, 99, id)
  {
    if behind < 99 {
      var ids := LastN(own, MAX_IDS - 1);
      LastNAt(own, MAX_IDS - 1, |ids| - 1 - behind);
    }
  }

  lemma SparedAt(own: seq<int>, behind: nat, id: int)
    requires behind < |own| && own[|own| - 1 - behind] == id
    ensures IdAt(AllButLast(own), behind, 1, 200, id)
  {
    if 1 <= behind {
      assert AllButLast(own) == own[..|own| - 1];
    }
  }

  lemma CopiesCounted(log: seq<Entry>, h: Hash, own: seq<int>)
    requires own == PositiveIds(Own(log, h))
    ensures |own| == |IdsBehind(log, h, -1)| <= |log|
  {
    IdCount(log, h);
    TrackedAre(log, h);
  }

  lemma CopyOffered(log: seq<Entry>, h: Hash, own: seq<int>, i: nat)
    requires |log| < 200 && own == PositiveIds(Own(log, h))
    requires i < |log| && log[i].hash == h && log[i].id > 0
    ensures IdAt(LastN(own, MAX_IDS - 1), |IdsBehind(log, h, i)|, 0, 99, log[i].id)
    ensures IdAt(AllButLast(own), |IdsBehind(log, h, i)|, 1, 200, log[i].id)
  {
    var behind := |IdsBehind(log, h, i)|;
    IdPlace(log, h, i);
    assert behind < |own| && own[|own| - 1 - behind] == log[i].id;
    OfferedAt(own, behind, log[i].id);
    SparedAt(own, behind, log[i].id);
  }

  lemma CopiesOffered(log: seq<Entry>, h: Hash, own: seq<int>)
    requires |log| < 200 && own == PositiveIds(Own(log, h))
    ensures IdsOfCopies(LastN(own, MAX_IDS - 1), log, h, 0, 99)
    ensures IdsOfCopies(AllButLast(own), log, h, 1, 200)
  {
    CopiesCounted(log, h, own);
    forall i | 0 <= i < |log| && log[i].hash == h && log[i].id > 0
      ensures IdAt(LastN(own, MAX_IDS - 1), |IdsBehind(log, h, i)|, 0, 99, log[i].id)
      ensures IdAt(AllButLast(own), |IdsBehind(log, h, i)|, 1, 200, log[i].id)
    {
      CopyOffered(log, h, own, i);
    }
  }

  lemma ExtraIdsAre(live: seq<Entry>, threshold: int, h: Hash, id: int, now: Time)
    requires !IsRepeat(live, h, id)
    ensures var log := NextLog(live, h, id, now);
            log != [] && OutcomeOf(live, threshold, h, id, now).extraIds
                      == if |Own(log, h)| < threshold then []
                         else if id > 0 then Offered(Earlier(log), h)
                         else AllButLast(PositiveIds(Own(Earlier(log), h)))
  {
    var log := NextLog(live, h, id, now);
    NewMessageIsLast(live, h, id, now);
    if id > 0 {
      ExtraIdsExactly(live, threshold, h, id, now);
    } else {
      OwnSnoc(Earlier(log), Entry(h, now, id), h);
      PositiveIdsSnoc(Own(Earlier(log), h), Entry(h, now, id));
    }
  }

  /** Nothing is offered for deletion for an edit, or below the threshold. Otherwise it is the
      latest 99 earlier copies, or all but the latest one when the message carries no id. */
  lemma ExtraIdsMean(cfg: Config, before: State, u: UserId, h: Hash, id: int, now: Time)
    ensures var (st, o) := Step(cfg, before, Track(u, h, id, now));
            var log := LogOf(st, u);
            o.Some? &&
            if o.value.isEdit || |Copies(log, h)| < cfg.threshold then o.value.extraIds == []
            else
              && log != []
              && (id > 0 ==> IdsOfCopies(o.value.extraIds, log[..|log| - 1], h, 0, 99))
              && (id <= 0 ==> IdsOfCopies(o.value.extraIds, log[..|log| - 1], h, 1, 200))
  {
    var live := Live(LogOf(Tidied(before, cfg.window, now), u), cfg.window, now);
    var log := NextLog(live, h, id, now);
    CountMeans(cfg, before, u, h, id, now);
    if !IsRepeat(live, h, id) {
      ExtraIdsAre(live, cfg.threshold, h, id, now);
      CopiesOffered(log[..|log| - 1], h, PositiveIds(Own(log[..|log| - 1], h)));
    }
  }
}
