/** The duplicate detector as a state machine over all users: tracked messages, the periodic
    cleanup, and what the expiring cache may do on its own. */
module DuplicateRuns {
  import opened Sequences
  import opened DuplicateLog

  type UserId = int

  /** Ten minutes, in nanoseconds. */
  const CLEANUP_INTERVAL: int := 600_000_000_000

  datatype Config = Config(threshold: int, window: int)

  /** touched is when the cache last stored the user, from which its time to live counts. */
  datatype UserLog = UserLog(log: seq<Entry>, touched: Time)

  datatype State = State(users: map<UserId, UserLog>, lastCleanup: Option<Time>)

  const INITIAL := State(map[], None)

  datatype Event =
    | Track(user: UserId, hash: Hash, id: int, now: Time)
    | Cleanup(now: Time)
    | Expire(user: UserId, now: Time)
    | Forget(user: UserId)

  function LogOf(st: State, u: UserId): seq<Entry> {
    if u in st.users then st.users[u].log else []
  }

  function Cleaned(users: map<UserId, UserLog>, window: int, now: Time): map<UserId, UserLog> {
    map u | u in users && Live(users[u].log, window, now) != [] :: UserLog(Live(users[u].log, window, now), now)
  }

  predicate CleanupDue(st: State, now: Time) {
    st.lastCleanup.None? || now - st.lastCleanup.value > CLEANUP_INTERVAL
  }

  function Tidied(st: State, window: int, now: Time): State {
    if CleanupDue(st, now) then State(Cleaned(st.users, window, now), Some(now)) else st
  }

  function Step(cfg: Config, st: State, ev: Event): (State, Option<Outcome>) {
    match ev
    case Track(u, h, id, now) =>
      var tidy := Tidied(st, cfg.window, now);
      var live := Live(LogOf(tidy, u), cfg.window, now);
      (tidy.(users := tidy.users[u := UserLog(NextLog(live, h, id, now), now)]),
       Some(OutcomeOf(live, cfg.threshold, h, id, now)))
    case Cleanup(now) => (st.(users := Cleaned(st.users, cfg.window, now)), None)
    case Expire(u, now) =>
      if u in st.users && now > st.users[u].touched + 2 * cfg.window
      then (st.(users := st.users - {u}), None) else (st, None)
    case Forget(u) => (st.(users := st.users - {u}), None)
  }

  /** The states a run goes through end in the first component; the second lists what each
      tracked message returned. */
  function Run(cfg: Config, st: State, evs: seq<Event>): (State, seq<Option<Outcome>>)
    decreases |evs|
  {
    if evs == [] then (st, [])
    else
      var (st1, o) := Step(cfg, st, evs[0]);
      var (st2, os) := Run(cfg, st1, evs[1..]);
      (st2, [o] + os)
  }
}
