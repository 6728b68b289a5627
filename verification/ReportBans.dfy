/** When user reports ban someone, how often, and where the protocol loses or keeps too much. */
module ReportBans {
  import opened Sequences
  import opened ReportTable
  import opened ReportProtocol
  import opened ReportSafety

  // Who stands behind an automatic ban.

  predicate DistinctReporters(reports: seq<Report>) {
    forall i, j :: 0 <= i < j < |reports| ==> reports[i].reporter != reports[j].reporter
  }

  lemma {:induction false} PlaceDistinct(s: seq<Report>, r: Report)
    requires DistinctReporters(s) && forall x :: x in s ==> x.reporter != r.reporter
    ensures DistinctReporters(Place(s, r))
  {
    if s != [] && s[|s| - 1].time > r.time {
      var front, last := s[..|s| - 1], s[|s| - 1];
      PlaceDistinct(front, r);
      PlaceMembers(front, r);
      forall x | x in Place(front, r) ensures x.reporter != last.reporter {
        assert x in multiset(Place(front, r));
        assert x == r || x in front;
      }
    }
  }

  lemma {:induction false} ByTimeDistinct(rows: seq<Report>)
    requires DistinctReporters(rows)
    ensures DistinctReporters(ByTime(rows))
  {
    if rows != [] {
      var front, last := rows[..|rows| - 1], rows[|rows| - 1];
      ByTimeDistinct(front);
      ByTimeAnswers(front);
      forall x | x in ByTime(front) ensures x.reporter != last.reporter {
        assert x in multiset(ByTime(front));
        assert x in front;
      }
      PlaceDistinct(ByTime(front), last);
    }
  }

  lemma QueryDistinct(rows: seq<Report>, msg: MsgId)
    requires Sound(rows)
    ensures DistinctReporters(OfMessage(rows, msg))
  {
    var own := Filter(Of(msg), rows);
    FilterSound(Of(msg), rows);
    forall i, j | 0 <= i < j < |own| ensures own[i].reporter != own[j].reporter {
      FilterMember(Of(msg), rows, own[i]);
      FilterMember(Of(msg), rows, own[j]);
      assert Ahead(own[i], own[j]);
    }
    ByTimeDistinct(own);
  }

  /** The table when the threshold is looked at. */
  function Stored(rows: seq<Report>, ev: Event): seq<Report>
    requires ev.Submit?
  {
    Added(rows, ev.report, ev.cleaned, ev.io.cleanOk)
  }

  predicate Distinct(users: seq<UserId>) {
    forall i, j :: 0 <= i < j < |users| ==> users[i] != users[j]
  }

  /** The earliest row of the message is about this user. */
  ghost predicate EarliestNames(rows: seq<Report>, msg: MsgId, user: UserId) {
    exists r :: Earliest(rows, msg, r) && r.reported == user
  }

  ghost predicate ReportersOf(rows: seq<Report>, msg: MsgId, users: seq<UserId>) {
    Distinct(users) && forall u :: u in users <==> HasKey(rows, msg, u)
  }

  /** Where the ban came from. */
  lemma BanSource(cfg: Config, rows: seq<Report>, ev: Event, e: Effect)
    requires e in Step(cfg, rows, ev).effects && e.AutoBan?
    ensures Accepted(cfg, rows, ev) && ev.report.msg == e.msg && cfg.autoBan > 0
    ensures var reports := OfMessage(Stored(rows, ev), e.msg);
            |reports| >= cfg.autoBan && e.reporters == Reporters(reports) && e.user == reports[0].reported
  {
    StepEffects(cfg, rows, ev, e);
    ThresholdEffects(cfg, Stored(rows, ev), ev.report.msg, ev.io, e);
    FirstOf(Stored(rows, ev), ev.report.msg);
  }

  /** In every reachable state an automatic ban follows a report of the message, names at least
      the configured number of reporters, all different, who are just the users with a live row
      for it, and bans the user whom the earliest of these rows is about. */
  lemma AutoBanIsBacked(cfg: Config, evs: seq<Event>, ev: Event, e: Effect)
    requires e in Step(cfg, Run(cfg, [], evs), ev).effects && e.AutoBan?
    ensures ev.Submit? && ev.report.msg == e.msg && |e.reporters| >= cfg.autoBan > 0
    ensures ReportersOf(Stored(Run(cfg, [], evs), ev), e.msg, e.reporters)
    ensures EarliestNames(Stored(Run(cfg, [], evs), ev), e.msg, e.user)
  {
    var before := Run(cfg, [], evs);
    RunSound(cfg, [], evs);
    BanSource(cfg, before, ev, e);
    AddSound(before, ev.report, ev.cleaned, ev.io.cleanOk);
    BanNames(Stored(before, ev), e.msg);
  }

  lemma BanNames(rows: seq<Report>, msg: MsgId)
    requires Sound(rows) && OfMessage(rows, msg) != []
    ensures ReportersOf(rows, msg, Reporters(OfMessage(rows, msg)))
    ensures EarliestNames(rows, msg, OfMessage(rows, msg)[0].reported)
  {
    var reports := OfMessage(rows, msg);
    var reporters := Reporters(reports);
    FirstOf(rows, msg);
    QueryDistinct(rows, msg);
    ByTimeAnswers(Filter(Of(msg), rows));
    forall r ensures r in reports <==> r in rows && r.msg == msg {
      OfMessageMember(rows, msg, r);
    }
    forall u ensures u in reporters <==> HasKey(rows, msg, u) {
      if u in reporters {
        var i :| 0 <= i < |reporters| && reporters[i] == u;
        assert reports[i] in reports;
      }
      if HasKey(rows, msg, u) {
        var r :| r in rows && r.msg == msg && r.reporter == u;
        var i :| 0 <= i < |reports| && reports[i] == r;
        assert reporters[i] == u;
      }
    }
    assert reports[0] in reports;
  }

  // A quiet run: no message keeps enough reports for a ban.

  predicate Smooth(io: Io) {
    io.countOk && io.insertOk && io.cleanOk && io.readOk && io.sendOk && io.updateOk && io.deleteOk
    && io.removeOk && io.rereadOk && io.posted != 0
  }

  function CountOf(rows: seq<Report>, msg: MsgId): nat {
    |Filter(Of(msg), rows)|
  }

  /** Notified rows know their admin message. */
  predicate Named(rows: seq<Report>) {
    forall r :: r in rows && r.notified ==> r.adminId != 0
  }

  lemma FilterNamed(p: Report -> bool, rows: seq<Report>)
    requires Named(rows)
    ensures Named(Filter(p, rows))
  {
    forall r | r in Filter(p, rows) ensures r in rows {
      FilterMember(p, rows, r);
    }
  }

  lemma AddNamed(rows: seq<Report>, r: Report, later: Time, cleanOk: bool)
    requires Named(rows)
    ensures Named(Added(rows, r, later, cleanOk))
  {
    assert Named(Inserted(rows, r));
    FilterNamed(Since(later - RETENTION), Inserted(rows, r));
  }

  lemma MarkNamed(rows: seq<Report>, msg: MsgId, adminId: int)
    requires Named(rows) && adminId != 0
    ensures Named(Notified(rows, msg, adminId))
  {
    var marked := Notified(rows, msg, adminId);
    forall r | r in marked && r.notified ensures r.adminId != 0 {
      var i :| 0 <= i < |marked| && marked[i] == r;
      assert rows[i] in rows;
    }
  }

  lemma ThresholdNamed(cfg: Config, rows: seq<Report>, msg: MsgId, io: Io)
    requires Named(rows) && io.posted != 0
    ensures Named(AfterThreshold(cfg, rows, msg, io).rows)
  {
    var reports := OfMessage(rows, msg);
    if reports != [] {
      FilterNamed(NotOf(reports[0].msg), rows);
      MarkNamed(rows, reports[0].msg, io.posted);
    }
  }

  lemma StepNamed(cfg: Config, rows: seq<Report>, ev: Event)
    requires Named(rows) && ev.io.posted != 0
    ensures Named(Step(cfg, rows, ev).rows)
  {
    match ev
    case Submit(report, _, _, cleaned, io) =>
      AddNamed(rows, report, cleaned, io.cleanOk);
      ThresholdNamed(cfg, Added(rows, report, cleaned, io.cleanOk), report.msg, io);
    case ApproveBan(_, msg, _, _) => FilterNamed(NotOf(msg), rows);
    case Reject(msg, _, _) => FilterNamed(NotOf(msg), rows);
    case BanReporter(reporter, msg, _, io) =>
      FilterNamed(NotBy(reporter, msg), rows);
      FilterNamed(NotOf(msg), rows);
      FilterNamed(NotOf(msg), Filter(NotBy(reporter, msg), rows));
  }

  lemma {:induction false} NoneLeft(rows: seq<Report>, msg: MsgId)
    ensures Filter(Of(msg), Filter(NotOf(msg), rows)) == []
  {
    var left := Filter(Of(msg), Filter(NotOf(msg), rows));
    if left != [] {
      FilterMember(Of(msg), Filter(NotOf(msg), rows), left[0]);
      FilterMember(NotOf(msg), rows, left[0]);
    }
  }

  lemma AddCount(rows: seq<Report>, r: Report, later: Time, cleanOk: bool, msg: MsgId)
    ensures CountOf(Added(rows, r, later, cleanOk), msg) <= CountOf(rows, msg) + if r.msg == msg then 1 else 0
  {
    FilterSnoc(Of(msg), rows, r.(notified := false, adminId := 0));
    FilterShrinks(Since(later - RETENTION), Of(msg), Inserted(rows, r));
  }

  /** What the threshold check leaves of each message. */
  lemma ThresholdCount(cfg: Config, rows: seq<Report>, reported: MsgId, io: Io, msg: MsgId)
    requires cfg.autoBan > 0 && Named(rows) && Smooth(io)
    ensures CountOf(AfterThreshold(cfg, rows, reported, io).rows, msg) <= CountOf(rows, msg)
    ensures msg == reported && CountOf(rows, msg) >= cfg.autoBan ==>
              CountOf(AfterThreshold(cfg, rows, reported, io).rows, msg) == 0
  {
    var reports := OfMessage(rows, reported);
    OfMessageSize(rows, reported);
    if reports != [] {
      FirstOf(rows, reported);
      FilterShrinks(NotOf(reported), Of(msg), rows);
      NoneLeft(rows, reported);
      if |reports| >= cfg.autoBan {
        BanLeaves(cfg, rows, reports, io);
      } else {
        MarkingKeepsCounts(Of(msg), rows, reported, io.posted);
      }
    }
  }

  lemma FirstOf(rows: seq<Report>, msg: MsgId)
    requires OfMessage(rows, msg) != []
    ensures OfMessage(rows, msg)[0] in rows && OfMessage(rows, msg)[0].msg == msg
  {
    assert OfMessage(rows, msg)[0] in OfMessage(rows, msg);
    OfMessageMember(rows, msg, OfMessage(rows, msg)[0]);
  }

  lemma BanLeaves(cfg: Config, rows: seq<Report>, reports: seq<Report>, io: Io)
    requires reports != [] && (reports[0].notified ==> reports[0].adminId != 0)
    ensures AfterAutoBan(cfg, rows, reports, io).rows ==
            if (cfg.adminChat && !io.sendOk) || !io.deleteOk then rows else Filter(NotOf(reports[0].msg), rows)
  {
  }

  lemma StepQuiet(cfg: Config, rows: seq<Report>, ev: Event, msg: MsgId)
    requires cfg.autoBan > 0 && Named(rows) && Smooth(ev.io) && CountOf(rows, msg) < cfg.autoBan
    ensures CountOf(Step(cfg, rows, ev).rows, msg) < cfg.autoBan
  {
    match ev
    case Submit(report, _, _, cleaned, io) =>
      AddNamed(rows, report, cleaned, io.cleanOk);
      AddCount(rows, report, cleaned, io.cleanOk, msg);
      ThresholdCount(cfg, Added(rows, report, cleaned, io.cleanOk), report.msg, io, msg);
    case ApproveBan(_, resolved, _, _) => FilterShrinks(NotOf(resolved), Of(msg), rows);
    case Reject(resolved, _, _) => FilterShrinks(NotOf(resolved), Of(msg), rows);
    case BanReporter(reporter, about, _, io) =>
      FilterShrinks(NotBy(reporter, about), Of(msg), rows);
      FilterShrinks(NotOf(about), Of(msg), Filter(NotBy(reporter, about), rows));
  }

  predicate AllSmooth(evs: seq<Event>) {
    forall i :: 0 <= i < |evs| ==> Smooth(evs[i].io)
  }

  lemma {:induction false} RunQuiet(cfg: Config, rows: seq<Report>, evs: seq<Event>, msg: MsgId)
    requires cfg.autoBan > 0 && Named(rows) && AllSmooth(evs) && CountOf(rows, msg) < cfg.autoBan
    ensures CountOf(Run(cfg, rows, evs), msg) < cfg.autoBan && Named(Run(cfg, rows, evs))
    decreases |evs|
  {
    if evs != [] {
      StepQuiet(cfg, rows, evs[0], msg);
      StepNamed(cfg, rows, evs[0]);
      RunQuiet(cfg, Step(cfg, rows, evs[0]).rows, evs[1..], msg);
    }
  }

  /** When every call succeeds, no message holds enough reports for a ban between steps; a ban
      comes exactly with the report that makes their number full, names just that many
      reporters, and leaves no report of the message. */
  lemma QuietBetweenBans(cfg: Config, evs: seq<Event>, ev: Event, msg: MsgId)
    requires cfg.autoBan > 0 && AllSmooth(evs) && Smooth(ev.io)
    ensures CountOf(Run(cfg, [], evs), msg) < cfg.autoBan
    ensures forall e :: e in Step(cfg, Run(cfg, [], evs), ev).effects && e.AutoBan? && e.msg == msg ==>
              |e.reporters| == cfg.autoBan && CountOf(Step(cfg, Run(cfg, [], evs), ev).rows, msg) == 0
  {
    RunQuiet(cfg, [], evs, msg);
    var rows := Run(cfg, [], evs);
    forall e | e in Step(cfg, rows, ev).effects && e.AutoBan? && e.msg == msg
      ensures |e.reporters| == cfg.autoBan && CountOf(Step(cfg, rows, ev).rows, msg) == 0 {
      BanEmpties(cfg, rows, ev, e);
      AddCount(rows, ev.report, ev.cleaned, true, msg);
      OfMessageSize(Stored(rows, ev), msg);
    }
  }

  /** A ban that the admins hear of removes every report of the message. */
  lemma BanEmpties(cfg: Config, rows: seq<Report>, ev: Event, e: Effect)
    requires Named(rows) && Smooth(ev.io) && e in Step(cfg, rows, ev).effects && e.AutoBan?
    ensures ev.Submit? && ev.report.msg == e.msg && cfg.autoBan > 0 && |e.reporters| >= cfg.autoBan
    ensures |e.reporters| == |OfMessage(Stored(rows, ev), e.msg)|
    ensures CountOf(Step(cfg, rows, ev).rows, e.msg) == 0
  {
    BanSource(cfg, rows, ev, e);
    AddNamed(rows, ev.report, ev.cleaned, ev.io.cleanOk);
    OfMessageSize(Stored(rows, ev), e.msg);
    ThresholdCount(cfg, Stored(rows, ev), e.msg, ev.io, e.msg);
  }

  // A second ban takes fresh reports.

  /** Telegram numbers its messages from 1. */
  predicate RealIds(evs: seq<Event>) {
    forall i :: 0 <= i < |evs| ==> evs[i].io.posted != 0
  }

  lemma {:induction false} RunNamed(cfg: Config, rows: seq<Report>, evs: seq<Event>)
    requires Named(rows) && RealIds(evs)
    ensures Named(Run(cfg, rows, evs))
    decreases |evs|
  {
    if evs != [] {
      StepNamed(cfg, rows, evs[0]);
      RunNamed(cfg, Step(cfg, rows, evs[0]).rows, evs[1..]);
    }
  }

  function Submitters(evs: seq<Event>, msg: MsgId): set<UserId> {
    if evs == [] then {}
    else
      (if evs[0].Submit? && evs[0].report.msg == msg then {evs[0].report.reporter} else {}) + Submitters(evs[1..], msg)
  }

  lemma FilterKey(p: Report -> bool, rows: seq<Report>, msg: MsgId, u: UserId)
    ensures HasKey(Filter(p, rows), msg, u) ==> HasKey(rows, msg, u)
  {
    if r :| r in Filter(p, rows) && r.msg == msg && r.reporter == u {
      FilterMember(p, rows, r);
    }
  }

  lemma MarkKey(rows: seq<Report>, marked: MsgId, adminId: int, msg: MsgId, u: UserId)
    ensures HasKey(Notified(rows, marked, adminId), msg, u) ==> HasKey(rows, msg, u)
  {
    var after := Notified(rows, marked, adminId);
    if r :| r in after && r.msg == msg && r.reporter == u {
      var i :| 0 <= i < |after| && after[i] == r;
      assert rows[i] in rows;
    }
  }

  lemma ThresholdKey(cfg: Config, rows: seq<Report>, reported: MsgId, io: Io, msg: MsgId, u: UserId)
    ensures HasKey(AfterThreshold(cfg, rows, reported, io).rows, msg, u) ==> HasKey(rows, msg, u)
  {
    var reports := OfMessage(rows, reported);
    if reports != [] {
      FilterKey(NotOf(reports[0].msg), rows, msg, u);
      MarkKey(rows, reports[0].msg, io.posted, msg, u);
    }
  }

  lemma StepKey(cfg: Config, rows: seq<Report>, ev: Event, msg: MsgId, u: UserId)
    requires HasKey(Step(cfg, rows, ev).rows, msg, u) && !HasKey(rows, msg, u)
    ensures ev.Submit? && ev.report.msg == msg && ev.report.reporter == u
  {
    match ev
    case Submit(report, _, _, cleaned, io) =>
      FilterKey(Since(cleaned - RETENTION), Inserted(rows, report), msg, u);
      ThresholdKey(cfg, Added(rows, report, cleaned, io.cleanOk), report.msg, io, msg, u);
    case ApproveBan(_, resolved, _, _) => FilterKey(NotOf(resolved), rows, msg, u);
    case Reject(resolved, _, _) => FilterKey(NotOf(resolved), rows, msg, u);
    case BanReporter(reporter, about, _, io) =>
      FilterKey(NotBy(reporter, about), rows, msg, u);
      FilterKey(NotOf(about), rows, msg, u);
      FilterKey(NotOf(about), Filter(NotBy(reporter, about), rows), msg, u);
  }

  lemma {:induction false} RunKey(cfg: Config, rows: seq<Report>, evs: seq<Event>, msg: MsgId, u: UserId)
    requires HasKey(Run(cfg, rows, evs), msg, u) && !HasKey(rows, msg, u)
    ensures u in Submitters(evs, msg)
    decreases |evs|
  {
    assert evs != [];
    var next := Step(cfg, rows, evs[0]).rows;
    if HasKey(next, msg, u) {
      StepKey(cfg, rows, evs[0], msg, u);
    } else {
      RunKey(cfg, next, evs[1..], msg, u);
    }
  }

  lemma {:induction false} DistinctFit(users: seq<UserId>, s: set<UserId>)
    requires Distinct(users) && forall u :: u in users ==> u in s
    ensures |users| <= |s|
  {
    if users != [] {
      var last := users[|users| - 1];
      DistinctFit(users[..|users| - 1], s - {last});
    }
  }

  /** After a ban that the admins heard of, the same message is banned again only when at least
      the configured number of different users report it anew. */
  lemma RepeatBanIsFresh(cfg: Config, first: seq<Event>, ban: Event, between: seq<Event>, again: Event,
                         e: Effect, f: Effect)
    requires RealIds(first) && Smooth(ban.io)
    requires e in Step(cfg, Run(cfg, [], first), ban).effects && e.AutoBan?
    requires var after := Step(cfg, Run(cfg, [], first), ban).rows;
             f in Step(cfg, Run(cfg, after, between), again).effects && f.AutoBan? && f.msg == e.msg
    ensures |Submitters(between + [again], e.msg)| >= cfg.autoBan > 0
  {
    var before := Run(cfg, [], first);
    RunNamed(cfg, [], first);
    BanEmpties(cfg, before, ban, e);
    RunSound(cfg, [], first);
    StepSound(cfg, before, ban);
    BanFromScratch(cfg, Step(cfg, before, ban).rows, between, again, f);
  }

  lemma BanFromScratch(cfg: Config, after: seq<Report>, between: seq<Event>, again: Event, f: Effect)
    requires f in Step(cfg, Run(cfg, after, between), again).effects && f.AutoBan?
    requires Sound(after) && CountOf(after, f.msg) == 0
    ensures |Submitters(between + [again], f.msg)| >= cfg.autoBan > 0
  {
    var rows := Run(cfg, after, between);
    RunSound(cfg, after, between);
    BanSource(cfg, rows, again, f);
    AddSound(rows, again.report, again.cleaned, again.io.cleanOk);
    BanNames(Stored(rows, again), f.msg);
    forall u | u in f.reporters ensures u in Submitters(between + [again], f.msg) {
      assert HasKey(Stored(rows, again), f.msg, u);
      FreshReporter(cfg, after, between, again, f.msg, u);
    }
    DistinctFit(f.reporters, Submitters(between + [again], f.msg));
  }

  lemma FreshReporter(cfg: Config, after: seq<Report>, between: seq<Event>, again: Event, msg: MsgId, u: UserId)
    requires CountOf(after, msg) == 0 && again.Submit?
    requires HasKey(Stored(Run(cfg, after, between), again), msg, u)
    ensures u in Submitters(between + [again], msg)
  {
    var rows := Run(cfg, after, between);
    SubmittersSnoc(between, again, msg);
    FilterKey(Since(again.cleaned - RETENTION), Inserted(rows, again.report), msg, u);
    if HasKey(rows, msg, u) {
      if r :| r in after && r.msg == msg && r.reporter == u {
        FilterMember(Of(msg), after, r);
        assert false;
      }
      RunKey(cfg, after, between, msg, u);
    }
  }

  lemma {:induction false} SubmittersSnoc(evs: seq<Event>, ev: Event, msg: MsgId)
    ensures Submitters(evs + [ev], msg) == Submitters(evs, msg) + Submitters([ev], msg)
  {
    if evs != [] {
      SubmittersSnoc(evs[1..], ev, msg);
      assert (evs + [ev])[1..] == evs[1..] + [ev];
    } else {
      assert evs + [ev] == [ev];
    }
  }
}
