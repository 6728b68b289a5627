/** What a handler stores, deletes and asks of the chats, said of the rows and the settings alone. */
module ReportMeaning {
  import opened Sequences
  import opened ReportTable
  import opened ReportProtocol
  import opened ReportSafety
  import opened ReportBans

  ghost function RowsOf(rows: seq<Report>, msg: MsgId): set<int> {
    set i | 0 <= i < |rows| && rows[i].msg == msg
  }

  /** users are the reporters of the message, one for each of its rows. */
  ghost predicate Names(users: seq<UserId>, rows: seq<Report>, msg: MsgId) {
    && |users| == |RowsOf(rows, msg)|
    && forall u :: u in users <==> exists x :: x in rows && x.msg == msg && x.reporter == u
  }

  // Reports.

  /** Which reports are taken: the command is a reply in the chat itself to an ordinary user, by an
      approved user who is no super user, the reporter has fewer reports than the limit since one
      period before, and the row can be inserted. */
  lemma AcceptedIff(cfg: Config, rows: seq<Report>, ev: Event, since: Time)
    requires ev.Submit? && since == ev.checked - cfg.period
    ensures Accepted(cfg, rows, ev)
       <==> var c := ev.command;
            && c.isReply && c.hasSender && !c.isTopic && !c.bySuper && !c.ofSuper && c.byApproved && ev.io.insertOk
            && (cfg.rateLimit <= 0
                || (ev.io.countOk && |PlacesSince(rows, ev.report.reporter, since)| < cfg.rateLimit))
  {
    CountIsPlaces(rows, ev.report.reporter, since);
  }

  /** A report that is not taken changes no row; at most the command is removed. */
  lemma RefusedMeans(cfg: Config, rows: seq<Report>, ev: Event)
    requires ev.Submit? && !Accepted(cfg, rows, ev)
    ensures Step(cfg, rows, ev).rows == rows
    ensures var c := ev.command;
            Step(cfg, rows, ev).effects
            == if c.isReply && c.hasSender && !c.isTopic && !c.bySuper && !c.ofSuper
                  && (!c.byApproved || cfg.rateLimit <= 0 || ev.io.countOk)
               then [Delete(c.id)] else []
  {
  }

  /** The table once a report was stored: the new row without marks, unless its reporter has one for
      the message; and nothing older than seven days, when the clean-up works. */
  lemma StoredMeans(rows: seq<Report>, ev: Event, x: Report)
    requires ev.Submit?
    ensures x in Stored(rows, ev)
       <==> && (x in rows ||
                  (x == ev.report.(notified := false, adminId := 0)
                   && !exists y :: y in rows && y.msg == ev.report.msg && y.reporter == ev.report.reporter))
            && (ev.io.cleanOk ==> x.time >= ev.cleaned - 604_800_000_000_000)
  {
    AddedMeans(rows, ev.report, ev.cleaned, ev.io.cleanOk, x);
  }

  // The rows of a message, as the query answers.

  lemma QueryFirst(rows: seq<Report>, msg: MsgId)
    requires OfMessage(rows, msg) != []
    ensures Earliest(rows, msg, OfMessage(rows, msg)[0])
  {
    ByTimeAnswers(Filter(Of(msg), rows));
    FirstIsEarliest(OfMessage(rows, msg), rows, msg);
  }

  lemma QuerySize(rows: seq<Report>, msg: MsgId)
    ensures |OfMessage(rows, msg)| == |RowsOf(rows, msg)|
  {
    OfMessageSize(rows, msg);
    FilterSize(Of(msg), rows);
    assert Places(Of(msg), rows) == RowsOf(rows, msg);
  }

  lemma QueryNames(rows: seq<Report>, msg: MsgId)
    ensures Names(Reporters(OfMessage(rows, msg)), rows, msg)
  {
    var reports := OfMessage(rows, msg);
    QuerySize(rows, msg);
    forall u ensures u in Reporters(reports) <==> exists x :: x in rows && x.msg == msg && x.reporter == u {
      if u in Reporters(reports) {
        var i :| 0 <= i < |reports| && Reporters(reports)[i] == u;
        assert reports[i] in reports;
        OfMessageMember(rows, msg, reports[i]);
      }
      if x :| x in rows && x.msg == msg && x.reporter == u {
        OfMessageMember(rows, msg, x);
        var i :| 0 <= i < |reports| && reports[i] == x;
        assert Reporters(reports)[i] == u;
      }
    }
  }

  // Bans.

  /** What befalls the author of a reported message, in this order. */
  lemma PunishedIs(cfg: Config, user: UserId, msg: MsgId, text: string)
    ensures Punished(cfg, user, msg, text)
         == [Disapprove(user)]
            + (if cfg.dry || text == "" then [] else [LearnSpam(text)])
            + (if cfg.dry then [] else [Delete(msg)])
            + (if cfg.dry || cfg.training then [] else [Ban(user, cfg.soft)])
  {
  }

  lemma BanEffectsAre(cfg: Config, rows: seq<Report>, msg: MsgId, io: Io)
    requires io.readOk && cfg.autoBan > 0 && |OfMessage(rows, msg)| >= cfg.autoBan && OfMessage(rows, msg)[0].msg == msg
    ensures var r, users := OfMessage(rows, msg)[0], Reporters(OfMessage(rows, msg));
            AfterThreshold(cfg, rows, msg, io).effects
            == [AutoBan(r.reported, msg, users)] + Punished(cfg, r.reported, msg, r.text)
               + (if !cfg.adminChat then [] else if !r.notified then [Post(msg, users, true)]
                  else if r.adminId != 0 then [Edit(r.adminId, users, true)] else [])
  {
  }

  /** An automatic ban bans: the command goes, the author loses the approval, the text of the
      earliest row is learned, the message is deleted and the author banned, and the admins are
      told. */
  lemma AutoBanPunishes(cfg: Config, rows: seq<Report>, ev: Event, u: UserId, m: MsgId, users: seq<UserId>)
    returns (r: Report)
    requires AutoBan(u, m, users) in Step(cfg, rows, ev).effects
    ensures ev.Submit? && Earliest(Stored(rows, ev), m, r) && r.reported == u && Names(users, Stored(rows, ev), m)
    ensures Step(cfg, rows, ev).effects
         == [Delete(ev.command.id), AutoBan(u, m, users), Disapprove(u)]
            + (if cfg.dry || r.text == "" then [] else [LearnSpam(r.text)])
            + (if cfg.dry then [] else [Delete(m)])
            + (if cfg.dry || cfg.training then [] else [Ban(u, cfg.soft)])
            + (if !cfg.adminChat then [] else if !r.notified then [Post(m, users, true)]
               else if r.adminId != 0 then [Edit(r.adminId, users, true)] else [])
  {
    BanSource(cfg, rows, ev, AutoBan(u, m, users));
    var stored := Stored(rows, ev);
    BanComesFrom(cfg, rows, ev, u, m, users, OfMessage(stored, m));
    BanWasRead(cfg, rows, ev, AutoBan(u, m, users));
    QueryFirst(stored, m);
    QueryNames(stored, m);
    r := OfMessage(stored, m)[0];
    AcceptedEffects(cfg, rows, ev);
    BanMessage(cfg, rows, ev, u, m, users);
    BanEffectsChained(cfg, stored, m, ev.io, ev.command.id, r, users, Step(cfg, rows, ev).effects);
  }

  lemma BanWasRead(cfg: Config, rows: seq<Report>, ev: Event, e: Effect)
    requires Accepted(cfg, rows, ev) && e in Step(cfg, rows, ev).effects && e.AutoBan?
    ensures ev.io.readOk
  {
    if !ev.io.readOk {
      UnreadMeans(cfg, rows, ev);
    }
  }

  lemma BanComesFrom(cfg: Config, rows: seq<Report>, ev: Event, u: UserId, m: MsgId, users: seq<UserId>,
                     reports: seq<Report>)
    requires Accepted(cfg, rows, ev) && AutoBan(u, m, users) in Step(cfg, rows, ev).effects
    requires reports == OfMessage(Stored(rows, ev), m)
    ensures cfg.autoBan > 0 && |reports| >= cfg.autoBan
    ensures reports[0].msg == m && reports[0].reported == u && users == Reporters(reports)
  {
    BanSource(cfg, rows, ev, AutoBan(u, m, users));
    FirstOf(Stored(rows, ev), m);
  }

  lemma BanMessage(cfg: Config, rows: seq<Report>, ev: Event, u: UserId, m: MsgId, users: seq<UserId>)
    requires Accepted(cfg, rows, ev) && AutoBan(u, m, users) in Step(cfg, rows, ev).effects
    ensures ev.report.msg == m
  {
    BanSource(cfg, rows, ev, AutoBan(u, m, users));
  }

  lemma BanEffectsChained(cfg: Config, stored: seq<Report>, m: MsgId, io: Io, id: MsgId,
                          r: Report, users: seq<UserId>, all: seq<Effect>)
    requires io.readOk && cfg.autoBan > 0 && |OfMessage(stored, m)| >= cfg.autoBan
    requires r == OfMessage(stored, m)[0] && r.msg == m && users == Reporters(OfMessage(stored, m))
    requires all == [Delete(id)] + AfterThreshold(cfg, stored, m, io).effects
    ensures all
         == [Delete(id), AutoBan(r.reported, m, users), Disapprove(r.reported)]
            + (if cfg.dry || r.text == "" then [] else [LearnSpam(r.text)])
            + (if cfg.dry then [] else [Delete(m)])
            + (if cfg.dry || cfg.training then [] else [Ban(r.reported, cfg.soft)])
            + (if !cfg.adminChat then [] else if !r.notified then [Post(m, users, true)]
               else if r.adminId != 0 then [Edit(r.adminId, users, true)] else [])
  {
    var learn := if cfg.dry || r.text == "" then [] else [LearnSpam(r.text)];
    var delete := if cfg.dry then [] else [Delete(m)];
    var ban := if cfg.dry || cfg.training then [] else [Ban(r.reported, cfg.soft)];
    var told := if !cfg.adminChat then [] else if !r.notified then [Post(m, users, true)]
                else if r.adminId != 0 then [Edit(r.adminId, users, true)] else [];
    BanEffectsAre(cfg, stored, m, io);
    PunishedIs(cfg, r.reported, m, r.text);
    Chain(Delete(id), AutoBan(r.reported, m, users), Disapprove(r.reported), learn, delete, ban, told);
  }

  /** So just the author is banned, exactly outside dry and training mode; and so on. */
  lemma AutoBanAsks(cfg: Config, rows: seq<Report>, ev: Event, u: UserId, m: MsgId, users: seq<UserId>, e: Effect)
    returns (r: Report)
    requires AutoBan(u, m, users) in Step(cfg, rows, ev).effects
    ensures ev.Submit? && Earliest(Stored(rows, ev), m, r)
    ensures e.Disapprove? ==> (e in Step(cfg, rows, ev).effects <==> e.user == u)
    ensures e.Ban? ==> (e in Step(cfg, rows, ev).effects
                        <==> !cfg.dry && !cfg.training && e.user == u && e.restrict == cfg.soft)
    ensures e.Delete? ==> (e in Step(cfg, rows, ev).effects <==> e.msg == ev.command.id || (!cfg.dry && e.msg == m))
    ensures e.LearnSpam? ==> (e in Step(cfg, rows, ev).effects <==> !cfg.dry && e.text != "" && e.text == r.text)
  {
    r := AutoBanPunishes(cfg, rows, ev, u, m, users);
    var learn := if cfg.dry || r.text == "" then [] else [LearnSpam(r.text)];
    var delete := if cfg.dry then [] else [Delete(m)];
    var ban := if cfg.dry || cfg.training then [] else [Ban(u, cfg.soft)];
    var told := if !cfg.adminChat then [] else if !r.notified then [Post(m, users, true)]
                else if r.adminId != 0 then [Edit(r.adminId, users, true)] else [];
    var front := [Delete(ev.command.id), AutoBan(u, m, users), Disapprove(u)];
    assert Step(cfg, rows, ev).effects == front + learn + delete + ban + told;
    InOneOf(e, front, learn, delete, ban, told, Step(cfg, rows, ev).effects);
  }

  lemma InOneOf(e: Effect, front: seq<Effect>, l: seq<Effect>, d: seq<Effect>, b: seq<Effect>, t: seq<Effect>,
                all: seq<Effect>)
    requires all == front + l + d + b + t
    ensures e in all <==> e in front || e in l || e in d || e in b || e in t
  {
  }

  /** The rows of a message stay after its ban exactly when the admins could not be told of it or the
      deletion fails. */
  lemma AutoBanDeletes(cfg: Config, rows: seq<Report>, ev: Event, u: UserId, m: MsgId, users: seq<UserId>, x: Report)
    returns (r: Report)
    requires AutoBan(u, m, users) in Step(cfg, rows, ev).effects
    ensures ev.Submit? && Earliest(Stored(rows, ev), m, r)
    ensures x in Step(cfg, rows, ev).rows
       <==> x in Stored(rows, ev)
            && (x.msg != m || !ev.io.deleteOk
                || (cfg.adminChat && (!ev.io.sendOk || (r.notified && r.adminId == 0))))
  {
    var stored := Stored(rows, ev);
    BanSource(cfg, rows, ev, AutoBan(u, m, users));
    FirstOf(stored, m);
    QueryFirst(stored, m);
    r := OfMessage(stored, m)[0];
    AcceptedEffects(cfg, rows, ev);
    FilterMember(NotOf(m), stored, x);
    BanRowsAre(cfg, stored, m, ev.io);
  }

  lemma BanRowsAre(cfg: Config, rows: seq<Report>, msg: MsgId, io: Io)
    requires io.readOk && cfg.autoBan > 0 && |OfMessage(rows, msg)| >= cfg.autoBan && OfMessage(rows, msg)[0].msg == msg
    ensures var r := OfMessage(rows, msg)[0];
            AfterThreshold(cfg, rows, msg, io).rows
            == if io.deleteOk && (!cfg.adminChat || (io.sendOk && !(r.notified && r.adminId == 0)))
               then Filter(NotOf(msg), rows) else rows
  {
  }

  // Notifications.

  /** Below the number for a ban the admins are told from the threshold on, when there is a chat for
      them: in the message they have, if the earliest report of the query is notified, and otherwise
      in a new one, which then all reports of the message are marked with. */
  lemma NotificationMeans(cfg: Config, rows: seq<Report>, ev: Event) returns (r: Option<Report>, users: seq<UserId>)
    requires Accepted(cfg, rows, ev) && ev.io.readOk
    requires var n := |RowsOf(Stored(rows, ev), ev.report.msg)|; cfg.autoBan <= 0 || n < cfg.autoBan
    ensures r.None? <==> RowsOf(Stored(rows, ev), ev.report.msg) == {}
    ensures r.Some? ==> Earliest(Stored(rows, ev), ev.report.msg, r.value)
    ensures Names(users, Stored(rows, ev), ev.report.msg)
    ensures var stored, msg := Stored(rows, ev), ev.report.msg;
            var step := Step(cfg, rows, ev);
            if |RowsOf(stored, msg)| < cfg.threshold || r.None? || !cfg.adminChat then
              step == Outcome(stored, [Delete(ev.command.id)])
            else if r.value.notified then
              step == Outcome(stored, [Delete(ev.command.id), Edit(r.value.adminId, users, false)])
            else
              && step.effects == [Delete(ev.command.id), Post(msg, users, false)]
              && |step.rows| == |stored|
              && forall i :: 0 <= i < |stored| ==>
                   step.rows[i] == if ev.io.sendOk && ev.io.updateOk && stored[i].msg == msg
                                   then stored[i].(notified := true, adminId := ev.io.posted) else stored[i]
  {
    var stored, msg := Stored(rows, ev), ev.report.msg;
    AcceptedEffects(cfg, rows, ev);
    QuerySize(stored, msg);
    QueryNames(stored, msg);
    users := Reporters(OfMessage(stored, msg));
    if OfMessage(stored, msg) == [] {
      r := None;
    } else {
      QueryFirst(stored, msg);
      r := Some(OfMessage(stored, msg)[0]);
    }
    NoticeIs(cfg, stored, msg, ev.io);
  }

  lemma NoticeIs(cfg: Config, rows: seq<Report>, msg: MsgId, io: Io)
    requires io.readOk && (cfg.autoBan <= 0 || |OfMessage(rows, msg)| < cfg.autoBan)
    requires OfMessage(rows, msg) != [] ==> OfMessage(rows, msg)[0].msg == msg
    ensures var reports := OfMessage(rows, msg);
            AfterThreshold(cfg, rows, msg, io)
            == if |reports| < cfg.threshold || reports == [] || !cfg.adminChat then Outcome(rows, [])
               else if reports[0].notified then Outcome(rows, [Edit(reports[0].adminId, Reporters(reports), false)])
               else Outcome(if io.sendOk && io.updateOk then Notified(rows, msg, io.posted) else rows,
                            [Post(msg, Reporters(reports), false)])
  {
  }

  /** Rows that cannot be read change nothing more. */
  lemma UnreadMeans(cfg: Config, rows: seq<Report>, ev: Event)
    requires Accepted(cfg, rows, ev) && !ev.io.readOk
    ensures Step(cfg, rows, ev) == Outcome(Stored(rows, ev), [Delete(ev.command.id)])
  {
    AcceptedEffects(cfg, rows, ev);
  }

  // Answers of an admin.

  /** An answer to a message without rows, or whose rows cannot be read, does nothing. */
  lemma NothingToAnswer(cfg: Config, rows: seq<Report>, ev: Event)
    requires !ev.Submit? && (!ev.io.readOk || forall x :: x in rows ==> x.msg != ev.msg)
    ensures Step(cfg, rows, ev) == Outcome(rows, [])
  {
    if OfMessage(rows, ev.msg) != [] {
      FirstOf(rows, ev.msg);
    }
  }

  /** An approved ban bans whom the admin approved it for, learns the text of the earliest row,
      deletes the message and its rows, and closes the admin message. */
  lemma ApprovalPunishes(cfg: Config, rows: seq<Report>, user: UserId, msg: MsgId, query: int, io: Io, x: Report)
    returns (r: Report)
    requires io.readOk && exists y :: y in rows && y.msg == msg
    ensures Earliest(rows, msg, r)
    ensures Step(cfg, rows, ApproveBan(user, msg, query, io)).effects
         == [Disapprove(user)]
            + (if cfg.dry || r.text == "" then [] else [LearnSpam(r.text)])
            + (if cfg.dry then [] else [Delete(msg)])
            + (if cfg.dry || cfg.training then [] else [Ban(user, cfg.soft)])
            + [Close(query)]
    ensures x in Step(cfg, rows, ApproveBan(user, msg, query, io)).rows <==> x in rows && (x.msg != msg || !io.deleteOk)
  {
    AnswerHasRows(rows, msg);
    QueryFirst(rows, msg);
    r := OfMessage(rows, msg)[0];
    PunishedIs(cfg, user, msg, r.text);
    FilterMember(NotOf(msg), rows, x);
  }

  lemma AnswerHasRows(rows: seq<Report>, msg: MsgId)
    requires exists y :: y in rows && y.msg == msg
    ensures OfMessage(rows, msg) != []
  {
    var y :| y in rows && y.msg == msg;
    OfMessageMember(rows, msg, y);
  }

  lemma RejectionMeans(cfg: Config, rows: seq<Report>, msg: MsgId, query: int, io: Io, x: Report)
    requires io.readOk && exists y :: y in rows && y.msg == msg
    ensures Step(cfg, rows, Reject(msg, query, io)).effects == [Close(query)]
    ensures x in Step(cfg, rows, Reject(msg, query, io)).rows <==> x in rows && (x.msg != msg || !io.deleteOk)
  {
    AnswerHasRows(rows, msg);
    FilterMember(NotOf(msg), rows, x);
  }

  /** A reporter is banned for good. The admin message is closed when nobody else reported the
      message, or that cannot be read; otherwise it names who remains. */
  lemma ReporterPunished(cfg: Config, rows: seq<Report>, reporter: UserId, msg: MsgId, query: int, io: Io)
    returns (users: seq<UserId>)
    requires io.readOk && exists y :: y in rows && y.msg == msg
    ensures forall u :: u in users <==>
              exists x :: x in rows && x.msg == msg && x.reporter == u && !(io.removeOk && u == reporter)
    ensures Step(cfg, rows, BanReporter(reporter, msg, query, io)).effects
         == (if cfg.dry || cfg.training then [] else [Ban(reporter, false)])
            + [if io.rereadOk && users != [] then Refresh(query, users) else Close(query)]
  {
    AnswerHasRows(rows, msg);
    var left := Remaining(rows, reporter, msg, io);
    QueryNames(left, msg);
    users := Reporters(OfMessage(left, msg));
    forall x ensures x in left <==> x in rows && !(io.removeOk && x.msg == msg && x.reporter == reporter) {
      FilterMember(NotBy(reporter, msg), rows, x);
    }
  }

  /** The reporter's row goes, unless that fails, and all rows of the message go when nobody else
      seems to have reported it, unless that fails. */
  lemma ReporterRowsGo(cfg: Config, rows: seq<Report>, reporter: UserId, msg: MsgId, query: int, io: Io, x: Report)
    requires io.readOk && exists y :: y in rows && y.msg == msg
    ensures var others := exists y :: y in rows && y.msg == msg && !(io.removeOk && y.reporter == reporter);
            x in Step(cfg, rows, BanReporter(reporter, msg, query, io)).rows <==>
              x in rows
              && (x.msg != msg
                  || (!(io.removeOk && x.reporter == reporter) && (!io.deleteOk || (io.rereadOk && others))))
  {
    AnswerHasRows(rows, msg);
    var left := Remaining(rows, reporter, msg, io);
    forall y ensures y in left <==> y in rows && !(io.removeOk && y.msg == msg && y.reporter == reporter) {
      FilterMember(NotBy(reporter, msg), rows, y);
    }
    FilterMember(NotOf(msg), left, x);
    if OfMessage(left, msg) != [] {
      FirstOf(left, msg);
    }
    forall y | y in left && y.msg == msg ensures OfMessage(left, msg) != [] {
      OfMessageMember(left, msg, y);
    }
  }

  lemma AcceptedEffects(cfg: Config, rows: seq<Report>, ev: Event)
    requires Accepted(cfg, rows, ev)
    ensures Step(cfg, rows, ev).rows == AfterThreshold(cfg, Stored(rows, ev), ev.report.msg, ev.io).rows
    ensures Step(cfg, rows, ev).effects
         == [Delete(ev.command.id)] + AfterThreshold(cfg, Stored(rows, ev), ev.report.msg, ev.io).effects
  {
  }

  lemma Chain<T>(c: T, a: T, d: T, l: seq<T>, m: seq<T>, b: seq<T>, t: seq<T>)
    ensures [c] + ([a] + ([d] + l + m + b) + t) == [c, a, d] + l + m + b + t
  {
    assert [c, a, d] == [c] + ([a] + [d]);
  }
}
