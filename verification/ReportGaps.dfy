/** Where the report protocol does not do what it is for, each time with the exact condition. */
module ReportGaps {
  import opened Sequences
  import opened ReportTable
  import opened ReportProtocol
  import opened ReportSafety
  import opened ReportBans

  // The rate limit over closed periods.

  /** The reports of one reporter in [lo, lo + period], both ends included. */
  function InClosed(cfg: Config, rows: seq<Report>, reporter: UserId, lo: Time): nat {
    CountBy(rows, reporter, lo, lo + cfg.period + 1)
  }

  predicate ReportedAt(rows: seq<Report>, reporter: UserId, t: Time) {
    exists r :: r in rows && r.reporter == reporter && r.time == t
  }

  lemma NoneAtStart(rows: seq<Report>, reporter: UserId, lo: Time, hi: Time)
    requires !ReportedAt(rows, reporter, lo)
    ensures CountBy(rows, reporter, lo, hi) <= CountBy(rows, reporter, lo + 1, hi)
  {
    FilterImplies(By(reporter, lo, hi), By(reporter, lo + 1, hi), rows);
  }

  lemma NoneAtEnd(rows: seq<Report>, reporter: UserId, lo: Time, hi: Time)
    requires !ReportedAt(rows, reporter, hi)
    ensures CountBy(rows, reporter, lo, hi + 1) <= CountBy(rows, reporter, lo, hi)
  {
    FilterImplies(By(reporter, lo, hi + 1), By(reporter, lo, hi), rows);
  }

  lemma ClosedEnds(cfg: Config, rows: seq<Report>, reporter: UserId, lo: Time)
    requires InPeriod(cfg, rows, reporter, lo) <= cfg.rateLimit
    requires InPeriod(cfg, rows, reporter, lo + 1) <= cfg.rateLimit
    requires InClosed(cfg, rows, reporter, lo) > cfg.rateLimit
    ensures ReportedAt(rows, reporter, lo) && ReportedAt(rows, reporter, lo + cfg.period)
  {
    var hi := lo + cfg.period;
    assert lo + 1 + cfg.period == hi + 1;
    if !ReportedAt(rows, reporter, lo) {
      NoneAtStart(rows, reporter, lo, hi + 1);
    } else if !ReportedAt(rows, reporter, hi) {
      NoneAtEnd(rows, reporter, lo, hi);
    }
  }

  /** Over every run a closed period holds more than the limit only with reports at both its ends. */
  lemma ClosedNeedsBothEnds(cfg: Config, evs: seq<Event>, rows: seq<Report>, reporter: UserId, lo: Time)
    requires cfg.rateLimit > 0 && CheckedFirst(evs) && rows == Run(cfg, [], evs)
    requires InClosed(cfg, rows, reporter, lo) > cfg.rateLimit
    ensures ReportedAt(rows, reporter, lo) && ReportedAt(rows, reporter, lo + cfg.period)
  {
    RateBound(cfg, evs, reporter, lo);
    RateBound(cfg, evs, reporter, lo + 1);
    ClosedEnds(cfg, rows, reporter, lo);
  }

  /** The reports at lo, which the check at lo + period does not count, and those after it. */
  function AtAndAfter(cfg: Config, rows: seq<Report>, reporter: UserId, lo: Time): nat {
    CountBy(rows, reporter, lo, lo + 1) + CountBy(rows, reporter, lo + 1, lo + cfg.period + 1)
  }

  lemma {:induction false} ClosedSplits(cfg: Config, rows: seq<Report>, reporter: UserId, lo: Time)
    requires cfg.period >= 0
    ensures InClosed(cfg, rows, reporter, lo) == AtAndAfter(cfg, rows, reporter, lo)
  {
    if rows != [] {
      ClosedSplits(cfg, rows[..|rows| - 1], reporter, lo);
    }
  }

  /** The accepted report breaks the limit over the closed period that starts at lo: it is new, it
      is checked and stored exactly one period after lo, and what was reported at lo and since
      then already reaches the limit. */
  predicate Breaks(cfg: Config, rows: seq<Report>, ev: Event, lo: Time)
    requires ev.Submit?
  {
    && ev.checked == ev.report.time == lo + cfg.period && cfg.period >= 0
    && !HasKey(rows, ev.report.msg, ev.report.reporter)
    && AtAndAfter(cfg, rows, ev.report.reporter, lo) >= cfg.rateLimit
  }

  /** What came after the moment that the check counts from is below the limit. */
  lemma CheckedBelow(cfg: Config, rows: seq<Report>, ev: Event, lo: Time)
    requires cfg.rateLimit > 0 && Accepted(cfg, rows, ev) && lo > ev.checked - cfg.period
    ensures InClosed(cfg, rows, ev.report.reporter, lo) < cfg.rateLimit
  {
    CountSince(rows, ev.report.reporter, ev.checked - cfg.period, lo, lo + cfg.period + 1);
  }

  lemma WithinClosed(cfg: Config, rows: seq<Report>, reporter: UserId, lo: Time, hi: Time)
    requires hi == lo + cfg.period + 1
    ensures InClosed(cfg, rows, reporter, lo) == CountBy(rows, reporter, lo, hi)
  {
  }

  lemma BrokenIff(cfg: Config, rows: seq<Report>, ev: Event, lo: Time, hi: Time)
    requires cfg.rateLimit > 0 && Accepted(cfg, rows, ev) && ev.checked <= ev.report.time
    requires hi == lo + cfg.period + 1 && CountBy(rows, ev.report.reporter, lo, hi) <= cfg.rateLimit
    ensures CountBy(Inserted(rows, ev.report), ev.report.reporter, lo, hi) > cfg.rateLimit
       <==> Breaks(cfg, rows, ev, lo)
  {
    WithinClosed(cfg, rows, ev.report.reporter, lo, hi);
    InsertedCount(rows, ev.report, ev.report.reporter, lo, hi);
    if lo > ev.checked - cfg.period {
      CheckedBelow(cfg, rows, ev, lo);
    } else if cfg.period >= 0 {
      ClosedSplits(cfg, rows, ev.report.reporter, lo);
    }
  }

  /** The step that breaks a limit kept so far is just such a report. */
  lemma ClosedBrokenIff(cfg: Config, rows: seq<Report>, ev: Event, lo: Time)
    requires cfg.rateLimit > 0 && Accepted(cfg, rows, ev) && ev.checked <= ev.report.time
    requires InClosed(cfg, rows, ev.report.reporter, lo) <= cfg.rateLimit
    ensures InClosed(cfg, Inserted(rows, ev.report), ev.report.reporter, lo) > cfg.rateLimit
       <==> Breaks(cfg, rows, ev, lo)
  {
    BrokenIff(cfg, rows, ev, lo, lo + cfg.period + 1);
  }

  /** No report of the run breaks the limit over the closed period from lo. */
  predicate NeverBreaks(cfg: Config, rows: seq<Report>, evs: seq<Event>, reporter: UserId, lo: Time)
    decreases |evs|
  {
    evs == [] ||
      (!(Accepted(cfg, rows, evs[0]) && evs[0].report.reporter == reporter && Breaks(cfg, rows, evs[0], lo))
       && NeverBreaks(cfg, Step(cfg, rows, evs[0]).rows, evs[1..], reporter, lo))
  }

  lemma AcceptedInClosed(cfg: Config, rows: seq<Report>, ev: Event, reporter: UserId, lo: Time, hi: Time)
    requires cfg.rateLimit > 0 && hi == lo + cfg.period + 1 && CountBy(rows, reporter, lo, hi) <= cfg.rateLimit
    requires Accepted(cfg, rows, ev) && ev.checked <= ev.report.time
    requires ev.report.reporter != reporter || !Breaks(cfg, rows, ev, lo)
    ensures CountBy(Inserted(rows, ev.report), reporter, lo, hi) <= cfg.rateLimit
  {
    if ev.report.reporter == reporter {
      BrokenIff(cfg, rows, ev, lo, hi);
    } else {
      InsertedCount(rows, ev.report, reporter, lo, hi);
    }
  }

  lemma GrownInClosed(cfg: Config, rows: seq<Report>, ev: Event, reporter: UserId, lo: Time, hi: Time)
    requires cfg.rateLimit > 0 && hi == lo + cfg.period + 1 && CountBy(rows, reporter, lo, hi) <= cfg.rateLimit
    requires ev.Submit? ==> ev.checked <= ev.report.time
    requires !(Accepted(cfg, rows, ev) && ev.report.reporter == reporter && Breaks(cfg, rows, ev, lo))
    ensures CountBy(Grown(cfg, rows, ev), reporter, lo, hi) <= cfg.rateLimit
  {
    if Accepted(cfg, rows, ev) {
      AcceptedInClosed(cfg, rows, ev, reporter, lo, hi);
    }
  }

  lemma StepInClosed(cfg: Config, rows: seq<Report>, ev: Event, next: seq<Report>, reporter: UserId, lo: Time, hi: Time)
    requires cfg.rateLimit > 0 && hi == lo + cfg.period + 1 && CountBy(rows, reporter, lo, hi) <= cfg.rateLimit
    requires ev.Submit? ==> ev.checked <= ev.report.time
    requires !(Accepted(cfg, rows, ev) && ev.report.reporter == reporter && Breaks(cfg, rows, ev, lo))
    requires next == Step(cfg, rows, ev).rows
    ensures CountBy(next, reporter, lo, hi) <= cfg.rateLimit
  {
    GrownInClosed(cfg, rows, ev, reporter, lo, hi);
    StepCount(cfg, rows, ev, next, reporter, lo, hi);
  }

  lemma {:induction false} RunInClosed(cfg: Config, rows: seq<Report>, evs: seq<Event>, reporter: UserId,
                                       lo: Time, hi: Time)
    requires cfg.rateLimit > 0 && hi == lo + cfg.period + 1 && CountBy(rows, reporter, lo, hi) <= cfg.rateLimit
    requires CheckedFirst(evs) && NeverBreaks(cfg, rows, evs, reporter, lo)
    ensures CountBy(Run(cfg, rows, evs), reporter, lo, hi) <= cfg.rateLimit
    decreases |evs|
  {
    if evs != [] {
      var next := Step(cfg, rows, evs[0]).rows;
      StepInClosed(cfg, rows, evs[0], next, reporter, lo, hi);
      RunInClosed(cfg, next, evs[1..], reporter, lo, hi);
    }
  }

  lemma BoundKept(cfg: Config, rows: seq<Report>, evs: seq<Event>, after: seq<Report>, reporter: UserId,
                  lo: Time, hi: Time)
    requires cfg.rateLimit > 0 && hi == lo + cfg.period + 1 && InClosed(cfg, rows, reporter, lo) <= cfg.rateLimit
    requires CheckedFirst(evs) && NeverBreaks(cfg, rows, evs, reporter, lo) && after == Run(cfg, rows, evs)
    ensures InClosed(cfg, after, reporter, lo) <= cfg.rateLimit
  {
    WithinClosed(cfg, rows, reporter, lo, hi);
    RunInClosed(cfg, rows, evs, reporter, lo, hi);
    WithinClosed(cfg, after, reporter, lo, hi);
  }

  /** Over every run without such a report the limit holds for the closed period too. */
  lemma ClosedBound(cfg: Config, rows: seq<Report>, evs: seq<Event>, reporter: UserId, lo: Time)
    requires cfg.rateLimit > 0 && CheckedFirst(evs) && NeverBreaks(cfg, rows, evs, reporter, lo)
    requires InClosed(cfg, rows, reporter, lo) <= cfg.rateLimit
    ensures InClosed(cfg, Run(cfg, rows, evs), reporter, lo) <= cfg.rateLimit
  {
    BoundKept(cfg, rows, evs, Run(cfg, rows, evs), reporter, lo, lo + cfg.period + 1);
  }

  // A run that breaks it, for every limit and period.

  const ORDINARY: Command := Command(0, true, true, false, false, false, true)

  /** Counting and inserting work; nothing is read, so nothing else happens. */
  const STORING: Io := Io(true, true, false, false, false, false, false, false, false, 1)

  function ReportOf(msg: MsgId, t: Time): Report {
    Report(msg, 1, 2, "", t, false, 0)
  }

  function Submission(msg: MsgId, t: Time): Event {
    Submit(ReportOf(msg, t), ORDINARY, t, t, STORING)
  }

  /** One user reports n messages at time 0. */
  function Burst(n: nat): seq<Event> {
    if n == 0 then [] else Burst(n - 1) + [Submission(n - 1, 0)]
  }

  function BurstRows(n: nat): (rows: seq<Report>)
    ensures |rows| == n && forall i :: 0 <= i < n ==> rows[i] == ReportOf(i, 0)
  {
    if n == 0 then [] else BurstRows(n - 1) + [ReportOf(n - 1, 0)]
  }

  lemma {:induction false} RunSnoc(cfg: Config, rows: seq<Report>, evs: seq<Event>, ev: Event)
    ensures Run(cfg, rows, evs + [ev]) == Step(cfg, Run(cfg, rows, evs), ev).rows
    decreases |evs|
  {
    if evs == [] {
      assert [] + [ev] == [ev] && [ev][1..] == [];
      assert Run(cfg, Step(cfg, rows, ev).rows, []) == Step(cfg, rows, ev).rows;
    } else {
      RunSnoc(cfg, Step(cfg, rows, evs[0]).rows, evs[1..], ev);
      assert (evs + [ev])[1..] == evs[1..] + [ev];
    }
  }

  lemma {:induction false} BurstNew(m: nat, n: nat)
    requires m <= n
    ensures !HasKey(BurstRows(m), n, 1)
  {
    if m > 0 {
      BurstNew(m - 1, n);
    }
  }

  lemma StoringStep(cfg: Config, rows: seq<Report>, n: nat, t: Time)
    requires cfg.rateLimit <= 0 || |Filter(ByAfter(1, t - cfg.period), rows)| < cfg.rateLimit
    ensures Step(cfg, rows, Submission(n, t)).rows == Inserted(rows, ReportOf(n, t))
  {
    assert Accepted(cfg, rows, Submission(n, t));
  }

  lemma SubmissionStores(cfg: Config, n: nat, t: Time)
    requires cfg.rateLimit <= 0 || |Filter(ByAfter(1, t - cfg.period), BurstRows(n))| < cfg.rateLimit
    ensures Step(cfg, BurstRows(n), Submission(n, t)).rows == BurstRows(n) + [ReportOf(n, t)]
  {
    BurstNew(n, n);
    StoringStep(cfg, BurstRows(n), n, t);
  }

  lemma BurstStep(cfg: Config, n: nat)
    requires n < cfg.rateLimit
    ensures Step(cfg, BurstRows(n), Submission(n, 0)).rows == BurstRows(n + 1)
  {
    SubmissionStores(cfg, n, 0);
  }

  lemma {:induction false} BurstRun(cfg: Config, n: nat)
    requires n <= cfg.rateLimit
    ensures Run(cfg, [], Burst(n)) == BurstRows(n)
  {
    if n > 0 {
      BurstRun(cfg, n - 1);
      RunSnoc(cfg, [], Burst(n - 1), Submission(n - 1, 0));
      BurstStep(cfg, n - 1);
    }
  }

  lemma {:induction false} BurstChecked(n: nat)
    ensures CheckedFirst(Burst(n)) && |Burst(n)| == n
  {
    if n > 0 {
      BurstChecked(n - 1);
    }
  }

  /** The limit's worth of reports, and another one a period later. */
  function Overfull(cfg: Config): seq<Event>
    requires cfg.rateLimit > 0
  {
    Burst(cfg.rateLimit) + [Submission(cfg.rateLimit, cfg.period)]
  }

  lemma OverfullRun(cfg: Config)
    requires cfg.rateLimit > 0
    ensures Run(cfg, [], Overfull(cfg)) == BurstRows(cfg.rateLimit) + [ReportOf(cfg.rateLimit, cfg.period)]
  {
    var n := cfg.rateLimit;
    BurstRun(cfg, n);
    RunSnoc(cfg, [], Burst(n), Submission(n, cfg.period));
    BurstNotCounted(cfg, n);
    SubmissionStores(cfg, n, cfg.period);
  }

  lemma OverfullChecked(cfg: Config)
    requires cfg.rateLimit > 0
    ensures CheckedFirst(Overfull(cfg))
  {
    BurstChecked(cfg.rateLimit);
  }

  /** For every limit and period a run from an empty table, checked in order, ends with one report
      more than the limit in a closed period. */
  lemma ClosedPeriodOverfull(cfg: Config)
    requires cfg.rateLimit > 0 && cfg.period >= 0
    ensures CheckedFirst(Overfull(cfg)) && InClosed(cfg, Run(cfg, [], Overfull(cfg)), 1, 0) == cfg.rateLimit + 1
  {
    OverfullChecked(cfg);
    OverfullRun(cfg);
    BurstWithin(cfg.rateLimit, cfg.period);
  }

  lemma BurstNotCounted(cfg: Config, n: nat)
    ensures Filter(ByAfter(1, cfg.period - cfg.period), BurstRows(n)) == []
  {
    FilterNone(ByAfter(1, cfg.period - cfg.period), BurstRows(n));
  }

  lemma BurstWithin(n: nat, period: int)
    requires period >= 0
    ensures CountBy(BurstRows(n) + [ReportOf(n, period)], 1, 0, period + 1) == n + 1
  {
    FilterAll(By(1, 0, period + 1), BurstRows(n) + [ReportOf(n, period)]);
  }

  lemma {:induction false} FilterNone(p: Report -> bool, rows: seq<Report>)
    requires forall r :: r in rows ==> !p(r)
    ensures Filter(p, rows) == []
  {
    var kept := Filter(p, rows);
    if kept != [] {
      FilterMember(p, rows, kept[0]);
    }
  }

  // What the rate limit counts.

  /** What the reporter has stored after the moment for other messages. */
  function CountedOtherwise(rows: seq<Report>, msg: MsgId, reporter: UserId, since: Time): nat {
    |Filter(NotOf(msg), Filter(ByAfter(reporter, since), rows))|
  }

  /** Only stored reports count towards the limit. Once a message is resolved, a reporter is
      limited exactly when the other reports of the period reach the limit alone. */
  lemma LimitedAfterResolutionIff(cfg: Config, rows: seq<Report>, msg: MsgId, query: int, io: Io,
                                  reporter: UserId, now: Time, since: Time)
    requires io.readOk && io.deleteOk && since == now - cfg.period
    ensures RateLimited(cfg, Step(cfg, rows, Reject(msg, query, io)).rows, reporter, now)
       <==> cfg.rateLimit > 0 && CountedOtherwise(rows, msg, reporter, since) >= cfg.rateLimit
  {
    LimitedWhenResolved(cfg, rows, Resolved(rows, msg, io), msg, io, reporter, now, since);
  }

  lemma LimitedWhenResolved(cfg: Config, rows: seq<Report>, next: seq<Report>, msg: MsgId, io: Io,
                            reporter: UserId, now: Time, since: Time)
    requires io.readOk && io.deleteOk && next == Resolved(rows, msg, io) && since == now - cfg.period
    ensures RateLimited(cfg, next, reporter, now)
       <==> cfg.rateLimit > 0 && CountedOtherwise(rows, msg, reporter, since) >= cfg.rateLimit
  {
    ResolvedCount(rows, msg, io, reporter, since);
    LimitedSince(cfg, next, reporter, now, since);
  }

  lemma LimitedSince(cfg: Config, rows: seq<Report>, reporter: UserId, now: Time, since: Time)
    requires since == now - cfg.period
    ensures RateLimited(cfg, rows, reporter, now)
       <==> cfg.rateLimit > 0 && |Filter(ByAfter(reporter, since), rows)| >= cfg.rateLimit
  {
  }

  lemma ResolvedCount(rows: seq<Report>, msg: MsgId, io: Io, reporter: UserId, since: Time)
    requires io.readOk && io.deleteOk
    ensures Filter(ByAfter(reporter, since), Resolved(rows, msg, io))
         == Filter(NotOf(msg), Filter(ByAfter(reporter, since), rows))
  {
    FilterCommutes(NotOf(msg), ByAfter(reporter, since), rows);
    ResolvedRows(rows, msg, io);
  }

  lemma ResolvedRows(rows: seq<Report>, msg: MsgId, io: Io)
    requires io.readOk && io.deleteOk
    ensures Resolved(rows, msg, io) == Filter(NotOf(msg), rows)
  {
    if OfMessage(rows, msg) == [] {
      forall r | r in rows ensures r.msg != msg {
        OfMessageMember(rows, msg, r);
      }
      FilterAll(NotOf(msg), rows);
    }
  }

  // Bans that repeat.

  /** A ban clears the reports exactly when the admins heard of it (or there are none to tell)
      and the deletion worked. */
  lemma BanKeepsReportsIff(cfg: Config, rows: seq<Report>, ev: Event, e: Effect)
    requires Named(rows) && e in Step(cfg, rows, ev).effects && e.AutoBan?
    ensures ev.Submit?
    ensures Step(cfg, rows, ev).rows == Stored(rows, ev) <==> (cfg.adminChat && !ev.io.sendOk) || !ev.io.deleteOk
  {
    BanSource(cfg, rows, ev, e);
    AddNamed(rows, ev.report, ev.cleaned, ev.io.cleanOk);
    KeptIff(cfg, Stored(rows, ev), e.msg, ev.io);
  }

  lemma KeptIff(cfg: Config, rows: seq<Report>, msg: MsgId, io: Io)
    requires Named(rows) && cfg.autoBan > 0 && |OfMessage(rows, msg)| >= cfg.autoBan && io.readOk
    ensures AfterThreshold(cfg, rows, msg, io).rows == rows <==> (cfg.adminChat && !io.sendOk) || !io.deleteOk
  {
    var reports := OfMessage(rows, msg);
    FirstOf(rows, msg);
    FilterMember(NotOf(msg), rows, reports[0]);
    BanLeaves(cfg, rows, reports, io);
  }

  predicate BansFor(effects: seq<Effect>, msg: MsgId) {
    exists e :: e in effects && e.AutoBan? && e.msg == msg
  }

  /** An accepted report bans exactly when the rows can be read and are enough, whether or not it
      was stored itself. */
  lemma AcceptedBansIff(cfg: Config, rows: seq<Report>, ev: Event)
    requires Accepted(cfg, rows, ev)
    ensures BansFor(Step(cfg, rows, ev).effects, ev.report.msg)
       <==> ev.io.readOk && |OfMessage(Stored(rows, ev), ev.report.msg)| >= cfg.autoBan > 0
  {
    var msg, stored := ev.report.msg, Stored(rows, ev);
    if BansFor(Step(cfg, rows, ev).effects, msg) {
      var e :| e in Step(cfg, rows, ev).effects && e.AutoBan? && e.msg == msg;
      StepEffects(cfg, rows, ev, e);
      ThresholdEffects(cfg, stored, msg, ev.io, e);
    }
    if ev.io.readOk && |OfMessage(stored, msg)| >= cfg.autoBan > 0 {
      FirstOf(stored, msg);
      var e := ThresholdBans(cfg, stored, msg, ev.io);
      assert e in Step(cfg, rows, ev).effects;
    }
  }

  lemma ThresholdBans(cfg: Config, rows: seq<Report>, msg: MsgId, io: Io) returns (e: Effect)
    requires io.readOk && |OfMessage(rows, msg)| >= cfg.autoBan > 0
    ensures e in AfterThreshold(cfg, rows, msg, io).effects && e.AutoBan? && e.msg == OfMessage(rows, msg)[0].msg
  {
    var reports := OfMessage(rows, msg);
    e := AutoBan(reports[0].reported, reports[0].msg, Reporters(reports));
    assert AfterAutoBan(cfg, rows, reports, io).effects[0] == e;
  }

  /** So while the rows of a ban stay and do not expire, a repeated report, which the table
      ignores, bans again exactly when they can be read. */
  lemma IgnoredReportBansIff(cfg: Config, rows: seq<Report>, again: Event)
    requires Accepted(cfg, rows, again) && HasKey(rows, again.report.msg, again.report.reporter)
    requires forall r :: r in rows ==> r.time >= again.cleaned - RETENTION
    requires |OfMessage(rows, again.report.msg)| >= cfg.autoBan > 0
    ensures BansFor(Step(cfg, rows, again).effects, again.report.msg) <==> again.io.readOk
  {
    NothingExpires(rows, again);
    AcceptedBansIff(cfg, rows, again);
  }

  lemma NothingExpires(rows: seq<Report>, again: Event)
    requires again.Submit? && HasKey(rows, again.report.msg, again.report.reporter)
    requires forall r :: r in rows ==> r.time >= again.cleaned - RETENTION
    ensures Stored(rows, again) == rows
  {
    FilterAll(Since(again.cleaned - RETENTION), rows);
  }

  // Reporters banned by an admin.

  /** When an admin bans one reporter, another reporter's row survives exactly when the handler
      stops at once, manages to read what remains, or cannot delete: a failed second read counts
      as nothing remaining. */
  lemma OthersSurviveIff(rows: seq<Report>, reporter: UserId, msg: MsgId, io: Io, r: Report)
    requires r in rows && r.msg == msg && r.reporter != reporter
    ensures r in WithoutReporter(rows, reporter, msg, io) <==> !io.readOk || io.rereadOk || !io.deleteOk
  {
    var left := Filter(NotBy(reporter, msg), rows);
    OfMessageMember(rows, msg, r);
    FilterMember(NotBy(reporter, msg), rows, r);
    OfMessageMember(left, msg, r);
    FilterMember(NotOf(msg), Remaining(rows, reporter, msg, io), r);
  }

  /** The banned reporter's own row stays exactly when the handler stops at once, or fails to
      delete it and then does not delete all rows either. */
  lemma BannedReporterStaysIff(rows: seq<Report>, reporter: UserId, msg: MsgId, io: Io)
    ensures HasKey(WithoutReporter(rows, reporter, msg, io), msg, reporter)
       <==> HasKey(rows, msg, reporter) && (!io.readOk || (!io.removeOk && (io.rereadOk || !io.deleteOk)))
  {
    var left := Remaining(rows, reporter, msg, io);
    FilterKey(NotBy(reporter, msg), rows, msg, reporter);
    FilterKey(NotOf(msg), left, msg, reporter);
    RemovedKey(rows, reporter, msg);
    NoneOf(left, msg, reporter);
    if r :| r in rows && r.msg == msg && r.reporter == reporter {
      OfMessageMember(rows, msg, r);
    }
  }

  lemma RemovedKey(rows: seq<Report>, reporter: UserId, msg: MsgId)
    ensures !HasKey(Filter(NotBy(reporter, msg), rows), msg, reporter)
  {
    if r :| r in Filter(NotBy(reporter, msg), rows) && r.msg == msg && r.reporter == reporter {
      FilterMember(NotBy(reporter, msg), rows, r);
    }
  }

  lemma NoneOf(rows: seq<Report>, msg: MsgId, reporter: UserId)
    ensures !HasKey(Filter(NotOf(msg), rows), msg, reporter)
  {
    if r :| r in Filter(NotOf(msg), rows) && r.msg == msg && r.reporter == reporter {
      FilterMember(NotOf(msg), rows, r);
    }
  }
}
