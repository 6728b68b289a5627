/** What holds when the clock never goes back: cleanup and expiry cannot be observed, and the
    time span a report shows is real. */
module DuplicateTime {
  import opened Sequences
  import opened DuplicateLog
  import opened DuplicateRuns

  predicate Timed(ev: Event) { !ev.Forget? }

  /** Event times from t on never decrease. */
  ghost predicate Monotone(evs: seq<Event>, t: Time) {
    evs != [] ==>
      if Timed(evs[0]) then t <= evs[0].now && Monotone(evs[1..], evs[0].now) else Monotone(evs[1..], t)
  }

  // The reference: it only ever tracks messages. It never cleans up and never forgets.

  type Naive = map<UserId, seq<Entry>>

  function NaiveLog(logs: Naive, u: UserId): seq<Entry> {
    if u in logs then logs[u] else []
  }

  function NaiveStep(cfg: Config, logs: Naive, ev: Event): (Naive, Option<Outcome>) {
    match ev
    case Track(u, h, id, now) =>
      var live := Live(NaiveLog(logs, u), cfg.window, now);
      (logs[u := NextLog(live, h, id, now)], Some(OutcomeOf(live, cfg.threshold, h, id, now)))
    case _ => (logs, None)
  }

  function NaiveRun(cfg: Config, logs: Naive, evs: seq<Event>): seq<Option<Outcome>>
    decreases |evs|
  {
    if evs == [] then []
    else
      var (logs1, o) := NaiveStep(cfg, logs, evs[0]);
      [o] + NaiveRun(cfg, logs1, evs[1..])
  }

  ghost predicate Before(log: seq<Entry>, t: Time) {
    forall e :: e in log ==> e.time <= t
  }

  /** User u is the same in both, as far as anyone can tell from time t on. */
  ghost predicate SameAt(st: State, logs: Naive, window: int, t: Time, u: UserId) {
    && Live(LogOf(st, u), window, t) == Live(NaiveLog(logs, u), window, t)
    && Before(LogOf(st, u), t)
    && (u in st.users ==> Before(st.users[u].log, st.users[u].touched) && st.users[u].touched <= t)
  }

  ghost predicate Same(st: State, logs: Naive, window: int, t: Time) {
    forall u :: SameAt(st, logs, window, t, u)
  }

  /** Entries dead at t stay dead. */
  lemma LiveLater(log: seq<Entry>, window: int, t: Time, now: Time)
    requires t <= now
    ensures Live(Live(log, window, t), window, now) == Live(log, window, now)
  {
    FilterAbsorbs(LiveAt(window, t), LiveAt(window, now), log);
  }

  lemma BeforeLive(log: seq<Entry>, window: int, t: Time, now: Time)
    requires Before(log, t)
    ensures Before(Live(log, window, now), t)
  {
    forall e | e in Live(log, window, now) ensures e.time <= t {
      FilterMember(LiveAt(window, now), log, e);
    }
  }

  lemma NothingLive(log: seq<Entry>, window: int, now: Time)
    requires forall e :: e in log ==> e.time <= now - window
    ensures Live(log, window, now) == []
  {
    var live := Live(log, window, now);
    if live != [] {
      FilterMember(LiveAt(window, now), log, live[0]);
    }
  }

  lemma SameLater(st: State, logs: Naive, window: int, t: Time, now: Time)
    requires Same(st, logs, window, t) && t <= now
    ensures Same(st, logs, window, now)
  {
    forall u ensures SameAt(st, logs, window, now, u) {
      assert SameAt(st, logs, window, t, u);
      LiveLater(LogOf(st, u), window, t, now);
      LiveLater(NaiveLog(logs, u), window, t, now);
    }
  }

  lemma SameCleaned(st: State, logs: Naive, window: int, now: Time)
    requires Same(st, logs, window, now)
    ensures Same(State(Cleaned(st.users, window, now), st.lastCleanup), logs, window, now)
  {
    var st' := State(Cleaned(st.users, window, now), st.lastCleanup);
    forall u ensures SameAt(st', logs, window, now, u) {
      assert SameAt(st, logs, window, now, u);
      LiveLater(LogOf(st, u), window, now, now);
      BeforeLive(LogOf(st, u), window, now, now);
    }
  }

  lemma SameExpired(st: State, logs: Naive, window: int, now: Time, u: UserId)
    requires Same(st, logs, window, now)
    requires u in st.users && now > st.users[u].touched + 2 * window
    ensures Same(st.(users := st.users - {u}), logs, window, now)
  {
    var st' := st.(users := st.users - {u});
    forall v ensures SameAt(st', logs, window, now, v) {
      assert SameAt(st, logs, window, now, v);
      if v == u {
        NothingLive(st.users[u].log, window, now);
      }
    }
  }

  lemma BeforeNext(live: seq<Entry>, h: Hash, id: int, now: Time)
    requires Before(live, now)
    ensures Before(NextLog(live, h, id, now), now)
  {
    forall e | e in NextLog(live, h, id, now) ensures e.time <= now {
      if e in Kept(live, h, id) {
        FilterMember(NotMoved(h, id), live, e);
      }
    }
  }

  lemma TrackedAt(cfg: Config, tidy: State, logs: Naive, ev: Event)
    requires ev.Track? && SameAt(tidy, logs, cfg.window, ev.now, ev.user)
    ensures var live := Live(LogOf(tidy, ev.user), cfg.window, ev.now);
            Live(NaiveLog(logs, ev.user), cfg.window, ev.now) == live
            && Before(NextLog(live, ev.hash, ev.id, ev.now), ev.now)
  {
    BeforeLive(LogOf(tidy, ev.user), cfg.window, ev.now, ev.now);
    BeforeNext(Live(LogOf(tidy, ev.user), cfg.window, ev.now), ev.hash, ev.id, ev.now);
  }

  lemma SameStored(st: State, logs: Naive, window: int, now: Time, u: UserId, log: seq<Entry>)
    requires Same(st, logs, window, now) && Before(log, now)
    ensures Same(st.(users := st.users[u := UserLog(log, now)]), logs[u := log], window, now)
  {
    var st' := st.(users := st.users[u := UserLog(log, now)]);
    var logs' := logs[u := log];
    forall v ensures SameAt(st', logs', window, now, v) {
      assert SameAt(st, logs, window, now, v);
    }
  }

  lemma SameTidied(st: State, logs: Naive, window: int, now: Time)
    requires Same(st, logs, window, now)
    ensures Same(Tidied(st, window, now), logs, window, now)
  {
    SameCleaned(st, logs, window, now);
    var tidy := Tidied(st, window, now);
    forall u ensures SameAt(tidy, logs, window, now, u) {
      assert SameAt(st, logs, window, now, u);
      assert SameAt(State(Cleaned(st.users, window, now), st.lastCleanup), logs, window, now, u);
    }
  }

  lemma SameTracked(cfg: Config, st: State, logs: Naive, ev: Event)
    requires ev.Track? && Same(st, logs, cfg.window, ev.now)
    ensures Same(Step(cfg, st, ev).0, NaiveStep(cfg, logs, ev).0, cfg.window, ev.now)
    ensures Step(cfg, st, ev).1 == NaiveStep(cfg, logs, ev).1
  {
    var tidy := Tidied(st, cfg.window, ev.now);
    SameTidied(st, logs, cfg.window, ev.now);
    assert SameAt(tidy, logs, cfg.window, ev.now, ev.user);
    TrackedAt(cfg, tidy, logs, ev);
    var live := Live(LogOf(tidy, ev.user), cfg.window, ev.now);
    SameStored(tidy, logs, cfg.window, ev.now, ev.user, NextLog(live, ev.hash, ev.id, ev.now));
  }

  lemma SameStep(cfg: Config, st: State, logs: Naive, ev: Event)
    requires !ev.Forget? && Same(st, logs, cfg.window, ev.now)
    ensures Same(Step(cfg, st, ev).0, NaiveStep(cfg, logs, ev).0, cfg.window, ev.now)
    ensures Step(cfg, st, ev).1 == NaiveStep(cfg, logs, ev).1
  {
    match ev
    case Track(_, _, _, _) => SameTracked(cfg, st, logs, ev);
    case Cleanup(now) => SameCleaned(st, logs, cfg.window, now);
    case Expire(u, now) =>
      if u in st.users && now > st.users[u].touched + 2 * cfg.window {
        SameExpired(st, logs, cfg.window, now, u);
      }
    case Forget(_) =>
  }

  /** With a clock that never goes back, cleaning up at any moment and losing users whose time
      to live has passed change no result: every message gets the answer of the reference. */
  lemma {:induction false} CleanupUnobservable(cfg: Config, st: State, logs: Naive, evs: seq<Event>, t: Time)
    requires Same(st, logs, cfg.window, t) && Monotone(evs, t)
    requires forall i :: 0 <= i < |evs| ==> !evs[i].Forget?
    ensures Run(cfg, st, evs).1 == NaiveRun(cfg, logs, evs)
    decreases |evs|
  {
    if evs != [] {
      var ev := evs[0];
      SameLater(st, logs, cfg.window, t, ev.now);
      SameStep(cfg, st, logs, ev);
      CleanupUnobservable(cfg, Step(cfg, st, ev).0, NaiveStep(cfg, logs, ev).0, evs[1..], ev.now);
    }
  }

  /** From the start, for every run. */
  lemma RunMatchesReference(cfg: Config, evs: seq<Event>, t: Time)
    requires Monotone(evs, t)
    requires forall i :: 0 <= i < |evs| ==> !evs[i].Forget?
    ensures Run(cfg, INITIAL, evs).1 == NaiveRun(cfg, map[], evs)
  {
    forall u ensures SameAt(INITIAL, map[], cfg.window, t, u) {
    }
    CleanupUnobservable(cfg, INITIAL, map[], evs, t);
  }

  // The span of a report.

  /** Times never decrease along the log and none lies after t. */
  ghost predicate Ordered(log: seq<Entry>, t: Time) {
    && (forall i, j :: 0 <= i < j < |log| ==> log[i].time <= log[j].time)
    && Before(log, t)
  }

  ghost predicate AllOrdered(st: State, t: Time) {
    forall u :: u in st.users ==> Ordered(st.users[u].log, t)
  }

  lemma {:induction false} FilterOrdered(p: Entry -> bool, log: seq<Entry>, t: Time)
    requires Ordered(log, t)
    ensures Ordered(Filter(p, log), t)
  {
    if log != [] {
      var front, x := log[..|log| - 1], log[|log| - 1];
      FilterOrdered(p, front, t);
      forall e | e in Filter(p, front) ensures e.time <= x.time {
        FilterMember(p, front, e);
      }
    }
  }

  lemma NextOrdered(live: seq<Entry>, h: Hash, id: int, now: Time)
    requires Ordered(live, now)
    ensures Ordered(NextLog(live, h, id, now), now)
  {
    FilterOrdered(NotMoved(h, id), live, now);
  }

  lemma TidyOrdered(st: State, window: int, now: Time)
    requires AllOrdered(st, now)
    ensures AllOrdered(State(Cleaned(st.users, window, now), st.lastCleanup), now)
  {
    forall u | u in st.users ensures Ordered(Live(st.users[u].log, window, now), now) {
      FilterOrdered(LiveAt(window, now), st.users[u].log, now);
    }
  }

  lemma StepOrdered(cfg: Config, st: State, ev: Event, t: Time)
    requires AllOrdered(st, t) && (Timed(ev) ==> t <= ev.now)
    ensures AllOrdered(Step(cfg, st, ev).0, if Timed(ev) then ev.now else t)
  {
    match ev
    case Track(u, h, id, now) =>
      TidyOrdered(st, cfg.window, now);
      var log := LogOf(Tidied(st, cfg.window, now), u);
      FilterOrdered(LiveAt(cfg.window, now), log, now);
      NextOrdered(Live(log, cfg.window, now), h, id, now);
    case Cleanup(now) => TidyOrdered(st, cfg.window, now);
    case Expire(_, _) =>
    case Forget(_) =>
  }

  /** The last event time of a run that started at t. */
  function EndTime(evs: seq<Event>, t: Time): Time
    decreases |evs|
  {
    if evs == [] then t else EndTime(evs[1..], if Timed(evs[0]) then evs[0].now else t)
  }

  lemma {:induction false} RunOrdered(cfg: Config, st: State, evs: seq<Event>, t: Time)
    requires AllOrdered(st, t) && Monotone(evs, t)
    ensures AllOrdered(Run(cfg, st, evs).0, EndTime(evs, t))
    decreases |evs|
  {
    if evs != [] {
      StepOrdered(cfg, st, evs[0], t);
      RunOrdered(cfg, Step(cfg, st, evs[0]).0, evs[1..], if Timed(evs[0]) then evs[0].now else t);
    }
  }

  /** The first entry of the reported content is its earliest, lies in the past, and is still
      inside the window, so the span shown is never negative and below the window. */
  lemma SpanWithinWindow(live: seq<Entry>, window: int, h: Hash, id: int, now: Time)
    requires Ordered(live, now) && (forall e :: e in live ==> e.time > now - window)
    ensures var own := Own(NextLog(live, h, id, now), h);
            own != [] ==>
              && (forall e :: e in own ==> own[0].time <= e.time)
              && 0 <= now - own[0].time && (window > 0 ==> now - own[0].time < window)
  {
    var log := NextLog(live, h, id, now);
    NextOrdered(live, h, id, now);
    FilterOrdered(OfHash(h), log, now);
    var own := Own(log, h);
    if own != [] {
      FilterMember(OfHash(h), log, own[0]);
      if own[0] in Kept(live, h, id) {
        FilterMember(NotMoved(h, id), live, own[0]);
      }
      forall e | e in own ensures own[0].time <= e.time {
        var k :| 0 <= k < |own| && own[k] == e;
      }
    }
  }

  /** The same for the next message of any run, also when users were forgotten on the way. */
  lemma ReachableSpan(cfg: Config, evs: seq<Event>, t: Time, u: UserId, h: Hash, id: int, now: Time)
    requires Monotone(evs, t) && EndTime(evs, t) <= now && cfg.window > 0
    ensures var st := Step(cfg, Run(cfg, INITIAL, evs).0, Track(u, h, id, now)).0;
            var own := Own(LogOf(st, u), h);
            own != [] ==>
              (forall e :: e in own ==> own[0].time <= e.time) && 0 <= now - own[0].time < cfg.window
  {
    RunOrdered(cfg, INITIAL, evs, t);
    var before := Run(cfg, INITIAL, evs).0;
    forall v | v in before.users ensures Ordered(before.users[v].log, now) {
      assert Ordered(before.users[v].log, EndTime(evs, t));
    }
    TidyOrdered(before, cfg.window, now);
    var log := LogOf(Tidied(before, cfg.window, now), u);
    FilterOrdered(LiveAt(cfg.window, now), log, now);
    var live := Live(log, cfg.window, now);
    forall e | e in live ensures e.time > now - cfg.window {
      FilterMember(LiveAt(cfg.window, now), log, e);
    }
    SpanWithinWindow(live, cfg.window, h, id, now);
  }
}
