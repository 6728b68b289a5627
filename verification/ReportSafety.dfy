/** What holds of the reports table in every reachable state, whatever calls fail. */
module ReportSafety {
  import opened Sequences
  import opened ReportTable
  import opened ReportProtocol

  // One row per message and reporter; notified rows first.

  /** a may stand anywhere before b. */
  predicate Ahead(a: Report, b: Report) {
    a.msg == b.msg ==> a.reporter != b.reporter && (b.notified ==> a.notified && a.adminId == b.adminId)
  }

  predicate Sound(rows: seq<Report>) {
    && (forall i, j :: 0 <= i < j < |rows| ==> Ahead(rows[i], rows[j]))
    && (forall r :: r in rows ==> r.notified || r.adminId == 0)
  }

  lemma {:induction false} FilterSound(p: Report -> bool, rows: seq<Report>)
    requires Sound(rows)
    ensures Sound(Filter(p, rows))
  {
    if rows != [] {
      var front, last := rows[..|rows| - 1], rows[|rows| - 1];
      FilterSound(p, front);
      forall x | x in Filter(p, front) ensures Ahead(x, last) && (x.notified || x.adminId == 0) {
        FilterMember(p, front, x);
        var i :| 0 <= i < |front| && front[i] == x;
        assert Ahead(rows[i], rows[|rows| - 1]);
      }
    }
  }

  lemma AddSound(rows: seq<Report>, r: Report, later: Time, cleanOk: bool)
    requires Sound(rows)
    ensures Sound(Added(rows, r, later, cleanOk))
  {
    var inserted := Inserted(rows, r);
    assert Sound(inserted);
    if cleanOk {
      FilterSound(Since(later - RETENTION), inserted);
    }
  }

  lemma MarkSound(rows: seq<Report>, msg: MsgId, adminId: int)
    requires Sound(rows)
    ensures Sound(Notified(rows, msg, adminId))
  {
    var marked := Notified(rows, msg, adminId);
    forall i, j | 0 <= i < j < |marked| ensures Ahead(marked[i], marked[j]) {
      assert Ahead(rows[i], rows[j]);
    }
  }

  lemma ThresholdSound(cfg: Config, rows: seq<Report>, msg: MsgId, io: Io)
    requires Sound(rows)
    ensures Sound(AfterThreshold(cfg, rows, msg, io).rows)
  {
    var reports := OfMessage(rows, msg);
    if reports != [] {
      FilterSound(NotOf(reports[0].msg), rows);
      MarkSound(rows, reports[0].msg, io.posted);
    }
  }

  lemma StepSound(cfg: Config, rows: seq<Report>, ev: Event)
    requires Sound(rows)
    ensures Sound(Step(cfg, rows, ev).rows)
  {
    match ev
    case Submit(report, _, _, cleaned, io) =>
      AddSound(rows, report, cleaned, io.cleanOk);
      ThresholdSound(cfg, Added(rows, report, cleaned, io.cleanOk), report.msg, io);
    case ApproveBan(_, msg, _, _) => FilterSound(NotOf(msg), rows);
    case Reject(msg, _, _) => FilterSound(NotOf(msg), rows);
    case BanReporter(reporter, msg, _, io) =>
      FilterSound(NotBy(reporter, msg), rows);
      FilterSound(NotOf(msg), rows);
      FilterSound(NotOf(msg), Filter(NotBy(reporter, msg), rows));
  }

  lemma {:induction false} RunSound(cfg: Config, rows: seq<Report>, evs: seq<Event>)
    requires Sound(rows)
    ensures Sound(Run(cfg, rows, evs))
    decreases |evs|
  {
    if evs != [] {
      StepSound(cfg, rows, evs[0]);
      RunSound(cfg, Step(cfg, rows, evs[0]).rows, evs[1..]);
    }
  }

  // Rows stand in time order when the clock does not run back.

  predicate NoLater(rows: seq<Report>, now: Time) {
    forall r :: r in rows ==> r.time <= now
  }

  /** No report is added before `now`, nor before one that was added earlier. */
  predicate Timely(evs: seq<Event>, now: Time)
    decreases |evs|
  {
    evs == [] ||
      (if evs[0].Submit? then now <= evs[0].report.time && Timely(evs[1..], evs[0].report.time)
       else Timely(evs[1..], now))
  }

  predicate Ordered(rows: seq<Report>, now: Time) {
    InOrder(rows) && NoLater(rows, now)
  }

  lemma FilterOrdered(p: Report -> bool, rows: seq<Report>, now: Time)
    requires Ordered(rows, now)
    ensures Ordered(Filter(p, rows), now)
  {
    FilterInOrder(p, rows);
    forall x | x in Filter(p, rows) ensures x.time <= now {
      FilterMember(p, rows, x);
    }
  }

  lemma AddOrdered(rows: seq<Report>, r: Report, later: Time, cleanOk: bool)
    requires Ordered(rows, r.time)
    ensures Ordered(Added(rows, r, later, cleanOk), r.time)
  {
    assert Ordered(Inserted(rows, r), r.time);
    FilterOrdered(Since(later - RETENTION), Inserted(rows, r), r.time);
  }

  lemma MarkOrdered(rows: seq<Report>, msg: MsgId, adminId: int, now: Time)
    requires Ordered(rows, now)
    ensures Ordered(Notified(rows, msg, adminId), now)
  {
    var marked := Notified(rows, msg, adminId);
    forall i, j | 0 <= i < j < |marked| ensures marked[i].time <= marked[j].time {
      assert rows[i].time <= rows[j].time;
    }
  }

  lemma ThresholdOrdered(cfg: Config, rows: seq<Report>, msg: MsgId, io: Io, now: Time)
    requires Ordered(rows, now)
    ensures Ordered(AfterThreshold(cfg, rows, msg, io).rows, now)
  {
    var reports := OfMessage(rows, msg);
    if reports != [] {
      FilterOrdered(NotOf(reports[0].msg), rows, now);
      MarkOrdered(rows, reports[0].msg, io.posted, now);
    }
  }

  lemma StepOrdered(cfg: Config, rows: seq<Report>, ev: Event, now: Time)
    requires Ordered(rows, now) && (ev.Submit? ==> now <= ev.report.time)
    ensures Ordered(Step(cfg, rows, ev).rows, if ev.Submit? then ev.report.time else now)
  {
    match ev
    case Submit(report, _, _, cleaned, io) =>
      AddOrdered(rows, report, cleaned, io.cleanOk);
      ThresholdOrdered(cfg, Added(rows, report, cleaned, io.cleanOk), report.msg, io, report.time);
    case ApproveBan(_, msg, _, _) => FilterOrdered(NotOf(msg), rows, now);
    case Reject(msg, _, _) => FilterOrdered(NotOf(msg), rows, now);
    case BanReporter(reporter, msg, _, io) =>
      FilterOrdered(NotBy(reporter, msg), rows, now);
      FilterOrdered(NotOf(msg), rows, now);
      FilterOrdered(NotOf(msg), Filter(NotBy(reporter, msg), rows), now);
  }

  lemma {:induction false} RunInOrder(cfg: Config, rows: seq<Report>, evs: seq<Event>, now: Time)
    requires Ordered(rows, now) && Timely(evs, now)
    ensures InOrder(Run(cfg, rows, evs))
    decreases |evs|
  {
    if evs != [] {
      StepOrdered(cfg, rows, evs[0], now);
      RunInOrder(cfg, Step(cfg, rows, evs[0]).rows, evs[1..], if evs[0].Submit? then evs[0].report.time else now);
    }
  }

  /** The notified reports come first and share one admin message; the others have none. */
  predicate NotifiedFirst(reports: seq<Report>) {
    && (forall i, j :: 0 <= i < j < |reports| && reports[j].notified ==>
          reports[i].notified && reports[i].adminId == reports[j].adminId)
    && (forall i :: 0 <= i < |reports| && !reports[i].notified ==> reports[i].adminId == 0)
  }

  lemma OrderedQuery(rows: seq<Report>, msg: MsgId)
    requires Sound(rows) && InOrder(rows)
    ensures OfMessage(rows, msg) == Filter(Of(msg), rows) && NotifiedFirst(OfMessage(rows, msg))
  {
    var own := Filter(Of(msg), rows);
    FilterInOrder(Of(msg), rows);
    ByTimeOfOrdered(own);
    FilterSound(Of(msg), rows);
    forall r | r in own ensures r.msg == msg {
      FilterMember(Of(msg), rows, r);
    }
    forall i, j | 0 <= i < j < |own| && own[j].notified ensures own[i].notified && own[i].adminId == own[j].adminId {
      assert Ahead(own[i], own[j]);
    }
  }

  /** A notified row for the message. */
  ghost predicate AnyNotified(rows: seq<Report>, msg: MsgId) {
    exists r :: r in rows && r.msg == msg && r.notified
  }

  lemma HeadNotified(rows: seq<Report>, msg: MsgId)
    requires OfMessage(rows, msg) != [] && OfMessage(rows, msg)[0].notified
    ensures AnyNotified(rows, msg)
  {
    var first := OfMessage(rows, msg)[0];
    assert first in OfMessage(rows, msg);
    OfMessageMember(rows, msg, first);
  }

  lemma HeadLeads(rows: seq<Report>, msg: MsgId, r: Report)
    requires NotifiedFirst(OfMessage(rows, msg)) && r in rows && r.msg == msg && r.notified
    ensures OfMessage(rows, msg) != [] && OfMessage(rows, msg)[0].notified
    ensures r.adminId == OfMessage(rows, msg)[0].adminId
  {
    OfMessageMember(rows, msg, r);
    var reports := OfMessage(rows, msg);
    var j :| 0 <= j < |reports| && reports[j] == r;
  }

  lemma HeadTells(rows: seq<Report>, msg: MsgId)
    requires NotifiedFirst(OfMessage(rows, msg))
    ensures OfMessage(rows, msg) != [] && OfMessage(rows, msg)[0].notified <==> AnyNotified(rows, msg)
  {
    if AnyNotified(rows, msg) {
      var r :| r in rows && r.msg == msg && r.notified;
      HeadLeads(rows, msg, r);
    } else if OfMessage(rows, msg) != [] && OfMessage(rows, msg)[0].notified {
      HeadNotified(rows, msg);
    }
  }

  /** In every reachable state the notified reports of a message come first in the query's
      answer, so testing its first report for a notification tests them all. */
  lemma HeadDecides(cfg: Config, evs: seq<Event>, now: Time, msg: MsgId)
    requires Timely(evs, now)
    ensures var rows := Run(cfg, [], evs);
            var reports := OfMessage(rows, msg);
            NotifiedFirst(reports) && (reports != [] && reports[0].notified <==> AnyNotified(rows, msg))
  {
    var rows := Run(cfg, [], evs);
    RunSound(cfg, [], evs);
    RunInOrder(cfg, [], evs, now);
    OrderedQuery(rows, msg);
    HeadTells(rows, msg);
  }

  /** No two rows of the message have the same report time. */
  ghost predicate TimesDiffer(rows: seq<Report>, msg: MsgId) {
    forall i, j :: 0 <= i < j < |rows| && rows[i].msg == msg && rows[j].msg == msg ==> rows[i].time != rows[j].time
  }

  lemma {:induction false} FilterStrict(rows: seq<Report>, msg: MsgId)
    requires InOrder(rows) && TimesDiffer(rows, msg)
    ensures StrictlyInOrder(Filter(Of(msg), rows))
  {
    if rows != [] {
      var front, last := rows[..|rows| - 1], rows[|rows| - 1];
      FilterStrict(front, msg);
      forall x | x in Filter(Of(msg), front) && last.msg == msg ensures x.time < last.time {
        FilterMember(Of(msg), front, x);
        var i :| 0 <= i < |front| && front[i] == x;
        assert rows[i].time <= rows[|rows| - 1].time;
      }
    }
  }

  /** And that does not lean on how the model breaks ties: where the reports of the message have
      different times, it holds of every answer in time order. */
  lemma AnyAnswerDecides(cfg: Config, evs: seq<Event>, now: Time, msg: MsgId, answer: seq<Report>)
    requires Timely(evs, now) && TimesDiffer(Run(cfg, [], evs), msg)
    requires Answers(answer, Filter(Of(msg), Run(cfg, [], evs)))
    ensures NotifiedFirst(answer) && (answer != [] && answer[0].notified <==> AnyNotified(Run(cfg, [], evs), msg))
  {
    var rows := Run(cfg, [], evs);
    HeadDecides(cfg, evs, now, msg);
    RunSound(cfg, [], evs);
    RunInOrder(cfg, [], evs, now);
    OrderedQuery(rows, msg);
    FilterStrict(rows, msg);
    AnswerUnique(OfMessage(rows, msg), answer);
  }

  /** No row of the message is older. */
  ghost predicate Earliest(rows: seq<Report>, msg: MsgId, r: Report) {
    r in rows && r.msg == msg && forall x :: x in rows && x.msg == msg ==> r.time <= x.time
  }

  /** The first row of the answer tells whether any row of the message is notified. */
  ghost predicate Decides(answer: seq<Report>, rows: seq<Report>, msg: MsgId) {
    answer != [] && answer[0].notified <==> AnyNotified(rows, msg)
  }

  lemma AnswerMember(answer: seq<Report>, rows: seq<Report>, msg: MsgId, r: Report)
    requires Answers(answer, Filter(Of(msg), rows))
    ensures r in answer <==> r in rows && r.msg == msg
  {
    FilterMember(Of(msg), rows, r);
    assert r in answer <==> r in multiset(answer);
    assert r in Filter(Of(msg), rows) <==> r in multiset(Filter(Of(msg), rows));
  }

  lemma FirstIsEarliest(answer: seq<Report>, rows: seq<Report>, msg: MsgId)
    requires Answers(answer, Filter(Of(msg), rows)) && answer != []
    ensures Earliest(rows, msg, answer[0])
  {
    AnswerMember(answer, rows, msg, answer[0]);
    forall x | x in rows && x.msg == msg ensures answer[0].time <= x.time {
      AnswerMember(answer, rows, msg, x);
    }
  }

  /** Every earliest row is first in some answer. */
  lemma EarliestCanLead(rows: seq<Report>, msg: MsgId, r: Report) returns (answer: seq<Report>)
    requires Earliest(rows, msg, r)
    ensures Answers(answer, Filter(Of(msg), rows)) && answer != [] && answer[0] == r
  {
    var own := Filter(Of(msg), rows);
    FilterMember(Of(msg), rows, r);
    var i :| 0 <= i < |own| && own[i] == r;
    var rest := own[..i] + own[i + 1..];
    SplitAround(own, i);
    assert multiset(own) == multiset{r} + multiset(rest);
    ByTimeAnswers(rest);
    answer := [r] + ByTime(rest);
    forall x | x in ByTime(rest) ensures r.time <= x.time {
      assert x in multiset(rest);
      assert x in own;
      FilterMember(Of(msg), rows, x);
    }
  }

  /** Where times may be equal, every answer in time order decides exactly when no row of the
      message is notified, or all its earliest rows are. */
  lemma AnswersDecideIff(rows: seq<Report>, msg: MsgId)
    ensures (forall answer :: Answers(answer, Filter(Of(msg), rows)) ==> Decides(answer, rows, msg))
       <==> !AnyNotified(rows, msg) || forall r :: Earliest(rows, msg, r) ==> r.notified
  {
    if (forall r :: Earliest(rows, msg, r) ==> r.notified) || !AnyNotified(rows, msg) {
      forall answer | Answers(answer, Filter(Of(msg), rows)) ensures Decides(answer, rows, msg) {
        EveryAnswerDecides(answer, rows, msg);
      }
    } else {
      var r :| Earliest(rows, msg, r) && !r.notified;
      var answer := EarliestCanLead(rows, msg, r);
      assert !Decides(answer, rows, msg);
    }
  }

  lemma EveryAnswerDecides(answer: seq<Report>, rows: seq<Report>, msg: MsgId)
    requires Answers(answer, Filter(Of(msg), rows))
    requires !AnyNotified(rows, msg) || forall r :: Earliest(rows, msg, r) ==> r.notified
    ensures Decides(answer, rows, msg)
  {
    if answer != [] {
      FirstIsEarliest(answer, rows, msg);
    }
    if AnyNotified(rows, msg) {
      var r :| r in rows && r.msg == msg && r.notified;
      AnswerMember(answer, rows, msg, r);
    }
  }

  // What the handlers do besides.

  lemma PunishedKinds(cfg: Config, user: UserId, msg: MsgId, text: string, e: Effect)
    requires e in Punished(cfg, user, msg, text)
    ensures !e.AutoBan? && !e.Post? && !e.Edit?
  {
  }

  /** A notice depends on the first report. */
  predicate Notices(e: Effect, first: Report) {
    && (e.Post? ==> !first.notified)
    && (e.Edit? ==> first.notified && e.adminId == first.adminId)
  }

  lemma NoticeKinds(cfg: Config, reports: seq<Report>, e: Effect)
    requires reports != [] && e in Notice(cfg, reports)
    ensures !e.AutoBan? && Notices(e, reports[0])
  {
  }

  lemma InThree(a: seq<Effect>, b: seq<Effect>, c: seq<Effect>, e: Effect)
    requires e in a + b + c
    ensures e in a || e in b || e in c
  {
  }

  lemma BanEffects(cfg: Config, rows: seq<Report>, reports: seq<Report>, io: Io, e: Effect)
    requires reports != [] && e in AfterAutoBan(cfg, rows, reports, io).effects
    ensures Notices(e, reports[0])
    ensures e.AutoBan? ==> e == AutoBan(reports[0].reported, reports[0].msg, Reporters(reports))
  {
    var first := reports[0];
    var ban := AutoBan(first.reported, first.msg, Reporters(reports));
    var punished := Punished(cfg, first.reported, first.msg, first.text);
    InThree([ban], punished, Notice(cfg, reports), e);
    if e in punished {
      PunishedKinds(cfg, first.reported, first.msg, first.text, e);
    } else if e in Notice(cfg, reports) {
      NoticeKinds(cfg, reports, e);
    }
  }

  predicate ReachesBan(cfg: Config, reports: seq<Report>) {
    cfg.autoBan > 0 && |reports| >= cfg.autoBan
  }

  lemma OtherEffects(cfg: Config, rows: seq<Report>, msg: MsgId, io: Io, e: Effect)
    requires !ReachesBan(cfg, OfMessage(rows, msg)) && e in AfterThreshold(cfg, rows, msg, io).effects
    ensures OfMessage(rows, msg) != [] && !e.AutoBan? && Notices(e, OfMessage(rows, msg)[0])
  {
  }

  lemma ThresholdEffects(cfg: Config, rows: seq<Report>, msg: MsgId, io: Io, e: Effect)
    requires e in AfterThreshold(cfg, rows, msg, io).effects
    ensures var reports := OfMessage(rows, msg);
            && reports != [] && Notices(e, reports[0])
            && (e.AutoBan? ==> ReachesBan(cfg, reports)
                               && e == AutoBan(reports[0].reported, reports[0].msg, Reporters(reports)))
  {
    var reports := OfMessage(rows, msg);
    if ReachesBan(cfg, reports) {
      if io.readOk {
        BanEffects(cfg, rows, reports, io, e);
      }
    } else {
      OtherEffects(cfg, rows, msg, io, e);
    }
  }

  lemma AnswerKinds(cfg: Config, rows: seq<Report>, ev: Event, e: Effect)
    requires !ev.Submit? && e in Answered(cfg, rows, ev)
    ensures !e.AutoBan? && !e.Post? && !e.Edit?
  {
    if ev.ApproveBan? {
      var text := OfMessage(rows, ev.msg)[0].text;
      if e in Punished(cfg, ev.user, ev.msg, text) {
        PunishedKinds(cfg, ev.user, ev.msg, text, e);
      }
    }
  }

  /** Bans by number, notifications and their edits come from the threshold check only. */
  lemma StepEffects(cfg: Config, rows: seq<Report>, ev: Event, e: Effect)
    requires e in Step(cfg, rows, ev).effects && (e.AutoBan? || e.Post? || e.Edit?)
    ensures ev.Submit? && Accepted(cfg, rows, ev)
    ensures e in AfterThreshold(cfg, Added(rows, ev.report, ev.cleaned, ev.io.cleanOk), ev.report.msg, ev.io).effects
  {
    if !ev.Submit? {
      AnswerKinds(cfg, rows, ev, e);
    }
  }

  /** The admins get a new message about a report only when no stored report of the message was
      ever notified, and otherwise the message that all notified ones share is edited. */
  lemma NotificationMatches(cfg: Config, rows: seq<Report>, ev: Event, e: Effect)
    requires Sound(rows) && (ev.Submit? ==> Ordered(rows, ev.report.time))
    requires e in Step(cfg, rows, ev).effects && (e.Post? || e.Edit?)
    ensures ev.Submit?
    ensures var stored := Added(rows, ev.report, ev.cleaned, ev.io.cleanOk);
            && (e.Post? <==> !AnyNotified(stored, ev.report.msg))
            && forall r :: r in stored && r.msg == ev.report.msg && r.notified ==> e.Edit? && r.adminId == e.adminId
  {
    StepEffects(cfg, rows, ev, e);
    AddOrdered(rows, ev.report, ev.cleaned, ev.io.cleanOk);
    AddSound(rows, ev.report, ev.cleaned, ev.io.cleanOk);
    var stored := Added(rows, ev.report, ev.cleaned, ev.io.cleanOk);
    OrderedQuery(stored, ev.report.msg);
    HeadTells(stored, ev.report.msg);
    ThresholdEffects(cfg, stored, ev.report.msg, ev.io, e);
    forall r | r in stored && r.msg == ev.report.msg && r.notified ensures e.Edit? && r.adminId == e.adminId {
      HeadLeads(stored, ev.report.msg, r);
    }
  }

  // The rate limit.

  /** How many reports one reporter has stored with lo <= time < hi. */
  function CountBy(rows: seq<Report>, reporter: UserId, lo: Time, hi: Time): nat {
    |Filter(By(reporter, lo, hi), rows)|
  }

  /** The reports of one reporter in [lo, lo + period). */
  function InPeriod(cfg: Config, rows: seq<Report>, reporter: UserId, lo: Time): nat {
    CountBy(rows, reporter, lo, lo + cfg.period)
  }

  lemma {:induction false} FilterImplies(p: Report -> bool, q: Report -> bool, rows: seq<Report>)
    requires forall r :: r in rows && p(r) ==> q(r)
    ensures |Filter(p, rows)| <= |Filter(q, rows)|
  {
    if rows != [] {
      FilterImplies(p, q, rows[..|rows| - 1]);
    }
  }

  lemma InsertedCount(rows: seq<Report>, r: Report, reporter: UserId, lo: Time, hi: Time)
    ensures CountBy(Inserted(rows, r), reporter, lo, hi)
         == CountBy(rows, reporter, lo, hi)
            + if !HasKey(rows, r.msg, r.reporter) && r.reporter == reporter && lo <= r.time < hi then 1 else 0
  {
    FilterSnoc(By(reporter, lo, hi), rows, r.(notified := false, adminId := 0));
  }

  lemma CountSince(rows: seq<Report>, reporter: UserId, since: Time, lo: Time, hi: Time)
    requires since < lo
    ensures CountBy(rows, reporter, lo, hi) <= |Filter(ByAfter(reporter, since), rows)|
  {
    FilterImplies(By(reporter, lo, hi), ByAfter(reporter, since), rows);
  }

  lemma FilterCount(p: Report -> bool, rows: seq<Report>, reporter: UserId, lo: Time, hi: Time)
    ensures CountBy(Filter(p, rows), reporter, lo, hi) <= CountBy(rows, reporter, lo, hi)
  {
    FilterShrinks(p, By(reporter, lo, hi), rows);
  }

  lemma MarkCount(rows: seq<Report>, msg: MsgId, adminId: int, reporter: UserId, lo: Time, hi: Time)
    ensures CountBy(Notified(rows, msg, adminId), reporter, lo, hi) == CountBy(rows, reporter, lo, hi)
  {
    MarkingKeepsCounts(By(reporter, lo, hi), rows, msg, adminId);
  }

  lemma ThresholdCounts(cfg: Config, rows: seq<Report>, msg: MsgId, io: Io, reporter: UserId, lo: Time, hi: Time)
    ensures CountBy(AfterThreshold(cfg, rows, msg, io).rows, reporter, lo, hi) <= CountBy(rows, reporter, lo, hi)
  {
    var reports := OfMessage(rows, msg);
    if reports != [] {
      FilterCount(NotOf(reports[0].msg), rows, reporter, lo, hi);
      MarkCount(rows, reports[0].msg, io.posted, reporter, lo, hi);
    }
  }

  /** Nothing behind the insertion adds to a count. */
  lemma AcceptedCount(cfg: Config, rows: seq<Report>, ev: Event, reporter: UserId, lo: Time, hi: Time)
    requires Accepted(cfg, rows, ev)
    ensures CountBy(Step(cfg, rows, ev).rows, reporter, lo, hi) <= CountBy(Inserted(rows, ev.report), reporter, lo, hi)
  {
    var added := Added(rows, ev.report, ev.cleaned, ev.io.cleanOk);
    FilterCount(Since(ev.cleaned - RETENTION), Inserted(rows, ev.report), reporter, lo, hi);
    ThresholdCounts(cfg, added, ev.report.msg, ev.io, reporter, lo, hi);
    assert Step(cfg, rows, ev).rows == AfterThreshold(cfg, added, ev.report.msg, ev.io).rows;
  }

  lemma WithoutCount(rows: seq<Report>, banned: UserId, msg: MsgId, io: Io, reporter: UserId, lo: Time, hi: Time)
    ensures CountBy(WithoutReporter(rows, banned, msg, io), reporter, lo, hi) <= CountBy(rows, reporter, lo, hi)
  {
    FilterCount(NotBy(banned, msg), rows, reporter, lo, hi);
    FilterCount(NotOf(msg), Remaining(rows, banned, msg, io), reporter, lo, hi);
  }

  lemma OtherCount(cfg: Config, rows: seq<Report>, ev: Event, reporter: UserId, lo: Time, hi: Time)
    requires !Accepted(cfg, rows, ev)
    ensures CountBy(Step(cfg, rows, ev).rows, reporter, lo, hi) <= CountBy(rows, reporter, lo, hi)
  {
    match ev
    case Submit(_, _, _, _, _) =>
    case ApproveBan(_, msg, _, _) => FilterCount(NotOf(msg), rows, reporter, lo, hi);
    case Reject(msg, _, _) => FilterCount(NotOf(msg), rows, reporter, lo, hi);
    case BanReporter(banned, msg, _, io) => WithoutCount(rows, banned, msg, io, reporter, lo, hi);
  }

  /** The table before anything is deleted or marked. */
  function Grown(cfg: Config, rows: seq<Report>, ev: Event): seq<Report> {
    if Accepted(cfg, rows, ev) then Inserted(rows, ev.report) else rows
  }

  /** Only an insertion adds to a count. */
  lemma StepCount(cfg: Config, rows: seq<Report>, ev: Event, next: seq<Report>, reporter: UserId, lo: Time, hi: Time)
    requires next == Step(cfg, rows, ev).rows
    ensures CountBy(next, reporter, lo, hi) <= CountBy(Grown(cfg, rows, ev), reporter, lo, hi)
  {
    if Accepted(cfg, rows, ev) {
      AcceptedCount(cfg, rows, ev, reporter, lo, hi);
    } else {
      OtherCount(cfg, rows, ev, reporter, lo, hi);
    }
  }

  lemma AcceptedInPeriod(cfg: Config, rows: seq<Report>, ev: Event, reporter: UserId, lo: Time)
    requires cfg.rateLimit > 0 && InPeriod(cfg, rows, reporter, lo) <= cfg.rateLimit
    requires Accepted(cfg, rows, ev) && ev.checked <= ev.report.time
    ensures InPeriod(cfg, Inserted(rows, ev.report), reporter, lo) <= cfg.rateLimit
  {
    var hi := lo + cfg.period;
    InsertedCount(rows, ev.report, reporter, lo, hi);
    if ev.report.reporter == reporter && lo <= ev.report.time < hi {
      CountSince(rows, reporter, ev.checked - cfg.period, lo, hi);
    }
  }

  lemma GrownInPeriod(cfg: Config, rows: seq<Report>, ev: Event, reporter: UserId, lo: Time, hi: Time)
    requires cfg.rateLimit > 0 && hi == lo + cfg.period && CountBy(rows, reporter, lo, hi) <= cfg.rateLimit
    requires ev.Submit? ==> ev.checked <= ev.report.time
    ensures CountBy(Grown(cfg, rows, ev), reporter, lo, hi) <= cfg.rateLimit
  {
    if Accepted(cfg, rows, ev) {
      AcceptedInPeriod(cfg, rows, ev, reporter, lo);
    }
  }

  lemma StepInPeriod(cfg: Config, rows: seq<Report>, ev: Event, next: seq<Report>, reporter: UserId, lo: Time, hi: Time)
    requires cfg.rateLimit > 0 && hi == lo + cfg.period && CountBy(rows, reporter, lo, hi) <= cfg.rateLimit
    requires ev.Submit? ==> ev.checked <= ev.report.time
    requires next == Step(cfg, rows, ev).rows
    ensures CountBy(next, reporter, lo, hi) <= cfg.rateLimit
  {
    GrownInPeriod(cfg, rows, ev, reporter, lo, hi);
    StepCount(cfg, rows, ev, next, reporter, lo, hi);
  }

  /** Every check precedes its insertion. Nothing else is asked of the clock. */
  predicate CheckedFirst(evs: seq<Event>) {
    forall i :: 0 <= i < |evs| && evs[i].Submit? ==> evs[i].checked <= evs[i].report.time
  }

  lemma {:induction false} RunInPeriod(cfg: Config, rows: seq<Report>, evs: seq<Event>, reporter: UserId,
                                       lo: Time, hi: Time)
    requires cfg.rateLimit > 0 && hi == lo + cfg.period && CountBy(rows, reporter, lo, hi) <= cfg.rateLimit
    requires CheckedFirst(evs)
    ensures CountBy(Run(cfg, rows, evs), reporter, lo, hi) <= cfg.rateLimit
    decreases |evs|
  {
    if evs != [] {
      var next := Step(cfg, rows, evs[0]).rows;
      StepInPeriod(cfg, rows, evs[0], next, reporter, lo, hi);
      RunInPeriod(cfg, next, evs[1..], reporter, lo, hi);
    }
  }

  lemma WithinPeriod(cfg: Config, rows: seq<Report>, reporter: UserId, lo: Time, hi: Time)
    requires hi == lo + cfg.period
    ensures InPeriod(cfg, rows, reporter, lo) == CountBy(rows, reporter, lo, hi)
  {
  }

  lemma BoundFromEmpty(cfg: Config, evs: seq<Event>, rows: seq<Report>, reporter: UserId, lo: Time, hi: Time)
    requires cfg.rateLimit > 0 && hi == lo + cfg.period && CheckedFirst(evs) && rows == Run(cfg, [], evs)
    ensures InPeriod(cfg, rows, reporter, lo) <= cfg.rateLimit
  {
    RunInPeriod(cfg, [], evs, reporter, lo, hi);
    WithinPeriod(cfg, rows, reporter, lo, hi);
  }

  /** Over every run, no reporter ever has more than the limit stored within any period. */
  lemma RateBound(cfg: Config, evs: seq<Event>, reporter: UserId, lo: Time)
    requires cfg.rateLimit > 0 && CheckedFirst(evs)
    ensures InPeriod(cfg, Run(cfg, [], evs), reporter, lo) <= cfg.rateLimit
  {
    BoundFromEmpty(cfg, evs, Run(cfg, [], evs), reporter, lo, lo + cfg.period);
  }
}
