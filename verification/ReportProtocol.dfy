/** How user reports and the admins' answers to them change the reports table. */
module ReportProtocol {
  import opened Sequences
  import opened ReportTable

  /** adminChat says whether there is one. In dry and in training mode nobody is banned; a soft ban
      only restricts. */
  datatype Config = Config(threshold: int, autoBan: int, rateLimit: int, period: int,
                           adminChat: bool, dry: bool, training: bool, soft: bool)

  /** Which of a handler's calls succeed, and the id the admin chat gives to a new message. */
  datatype Io = Io(countOk: bool, insertOk: bool, cleanOk: bool, readOk: bool, sendOk: bool, updateOk: bool,
                   deleteOk: bool, removeOk: bool, rereadOk: bool, posted: int)

  /** What a handler decides and asks of the bot and the chats. AutoBan is the decision that enough
      users reported a message. A final notification carries no buttons; Close takes the buttons
      off the admin message that was answered, and Refresh restores them. */
  datatype Effect =
    | AutoBan(user: UserId, msg: MsgId, reporters: seq<UserId>)
    | Disapprove(user: UserId)
    | LearnSpam(text: string)
    | Delete(msg: MsgId)
    | Ban(user: UserId, restrict: bool)
    | Post(msg: MsgId, reporters: seq<UserId>, final: bool)
    | Edit(adminId: int, reporters: seq<UserId>, final: bool)
    | Close(query: int)
    | Refresh(query: int, reporters: seq<UserId>)

  /** The message that carries the report command. */
  datatype Command = Command(id: MsgId, isReply: bool, hasSender: bool, isTopic: bool,
                             bySuper: bool, ofSuper: bool, byApproved: bool)

  /** A report's rate is checked, it is added, and old rows are deleted, in that order. The other
      events are answers to an admin message, whose id is query. */
  datatype Event =
    | Submit(report: Report, command: Command, checked: Time, cleaned: Time, io: Io)
    | ApproveBan(user: UserId, msg: MsgId, query: int, io: Io)
    | Reject(msg: MsgId, query: int, io: Io)
    | BanReporter(reporter: UserId, msg: MsgId, query: int, io: Io)

  function Reporters(reports: seq<Report>): (users: seq<UserId>)
    ensures |users| == |reports| && forall i :: 0 <= i < |users| ==> users[i] == reports[i].reporter
  {
    if reports == [] then [] else Reporters(reports[..|reports| - 1]) + [reports[|reports| - 1].reporter]
  }

  // What the handlers do to the table.

  datatype Outcome = Outcome(rows: seq<Report>, effects: seq<Effect>)

  predicate RateLimited(cfg: Config, rows: seq<Report>, reporter: UserId, now: Time) {
    cfg.rateLimit > 0 && |Filter(ByAfter(reporter, now - cfg.period), rows)| >= cfg.rateLimit
  }

  /** The command replies to a message of an ordinary user and does not come from a super user. */
  predicate Proper(c: Command) {
    c.isReply && c.hasSender && !c.isTopic && !c.bySuper && !c.ofSuper
  }

  /** A proper command is removed from the chat, unless the rate could not be checked. */
  function Tidying(cfg: Config, ev: Event): seq<Effect>
    requires ev.Submit?
  {
    if Proper(ev.command) && (!ev.command.byApproved || cfg.rateLimit <= 0 || ev.io.countOk)
    then [Delete(ev.command.id)] else []
  }

  /** The report reaches the table. */
  predicate Accepted(cfg: Config, rows: seq<Report>, ev: Event) {
    ev.Submit? && Proper(ev.command) && ev.command.byApproved && ev.io.insertOk && (cfg.rateLimit <= 0 || ev.io.countOk)
    && !RateLimited(cfg, rows, ev.report.reporter, ev.checked)
  }

  function Banned(cfg: Config, user: UserId, restrict: bool): seq<Effect> {
    if cfg.dry || cfg.training then [] else [Ban(user, restrict)]
  }

  /** What befalls the author of a reported message. */
  function Punished(cfg: Config, user: UserId, msg: MsgId, text: string): seq<Effect> {
    [Disapprove(user)]
    + (if !cfg.dry && text != "" then [LearnSpam(text)] else [])
    + (if !cfg.dry then [Delete(msg)] else [])
    + Banned(cfg, user, cfg.soft)
  }

  function Notice(cfg: Config, reports: seq<Report>): seq<Effect>
    requires reports != []
  {
    var first := reports[0];
    if !cfg.adminChat then []
    else if !first.notified then [Post(first.msg, Reporters(reports), true)]
    else if first.adminId != 0 then [Edit(first.adminId, Reporters(reports), true)]
    else []
  }

  /** The rows go only when the admin chat has been told, or there is none. */
  function AfterAutoBan(cfg: Config, rows: seq<Report>, reports: seq<Report>, io: Io): Outcome
    requires reports != []
  {
    var notice := Notice(cfg, reports);
    var told := !cfg.adminChat || (notice != [] && io.sendOk);
    Outcome(if told && io.deleteOk then Filter(NotOf(reports[0].msg), rows) else rows,
            [AutoBan(reports[0].reported, reports[0].msg, Reporters(reports))]
            + Punished(cfg, reports[0].reported, reports[0].msg, reports[0].text) + notice)
  }

  function AfterThreshold(cfg: Config, rows: seq<Report>, msg: MsgId, io: Io): Outcome {
    var reports := OfMessage(rows, msg);
    var users := Reporters(reports);
    if !io.readOk then Outcome(rows, [])
    else if cfg.autoBan > 0 && |reports| >= cfg.autoBan then AfterAutoBan(cfg, rows, reports, io)
    else if |reports| < cfg.threshold || reports == [] || !cfg.adminChat then Outcome(rows, [])
    else if reports[0].notified then Outcome(rows, [Edit(reports[0].adminId, users, false)])
    else Outcome(if io.sendOk && io.updateOk then Notified(rows, reports[0].msg, io.posted) else rows,
                 [Post(reports[0].msg, users, false)])
  }

  function Resolved(rows: seq<Report>, msg: MsgId, io: Io): seq<Report> {
    if io.readOk && OfMessage(rows, msg) != [] && io.deleteOk then Filter(NotOf(msg), rows) else rows
  }

  function Remaining(rows: seq<Report>, reporter: UserId, msg: MsgId, io: Io): seq<Report> {
    if io.removeOk then Filter(NotBy(reporter, msg), rows) else rows
  }

  /** A failed second read counts as no reporters remaining. */
  predicate NoneRemain(rows: seq<Report>, reporter: UserId, msg: MsgId, io: Io) {
    !io.rereadOk || OfMessage(Remaining(rows, reporter, msg, io), msg) == []
  }

  function WithoutReporter(rows: seq<Report>, reporter: UserId, msg: MsgId, io: Io): seq<Report> {
    if !io.readOk || OfMessage(rows, msg) == [] then rows
    else
      var left := Remaining(rows, reporter, msg, io);
      if NoneRemain(rows, reporter, msg, io) && io.deleteOk then Filter(NotOf(msg), left) else left
  }

  /** What an answer to an admin message does besides the table; nothing without reports. */
  function Answered(cfg: Config, rows: seq<Report>, ev: Event): seq<Effect>
    requires !ev.Submit?
  {
    var reports := OfMessage(rows, ev.msg);
    if !ev.io.readOk || reports == [] then []
    else
      match ev
      case ApproveBan(user, msg, query, _) => Punished(cfg, user, msg, reports[0].text) + [Close(query)]
      case Reject(_, query, _) => [Close(query)]
      case BanReporter(reporter, msg, query, io) =>
        Banned(cfg, reporter, false) +
        [if NoneRemain(rows, reporter, msg, io) then Close(query)
         else Refresh(query, Reporters(OfMessage(Remaining(rows, reporter, msg, io), msg)))]
  }

  function Step(cfg: Config, rows: seq<Report>, ev: Event): Outcome {
    match ev
    case Submit(report, _, _, cleaned, io) =>
      if !Accepted(cfg, rows, ev) then Outcome(rows, Tidying(cfg, ev))
      else
        var after := AfterThreshold(cfg, Added(rows, report, cleaned, io.cleanOk), report.msg, io);
        Outcome(after.rows, Tidying(cfg, ev) + after.effects)
    case ApproveBan(_, msg, _, io) => Outcome(Resolved(rows, msg, io), Answered(cfg, rows, ev))
    case Reject(msg, _, io) => Outcome(Resolved(rows, msg, io), Answered(cfg, rows, ev))
    case BanReporter(reporter, msg, _, io) =>
      Outcome(WithoutReporter(rows, reporter, msg, io), Answered(cfg, rows, ev))
  }

  function Run(cfg: Config, rows: seq<Report>, evs: seq<Event>): seq<Report>
    decreases |evs|
  {
    if evs == [] then rows else Run(cfg, Step(cfg, rows, evs[0]).rows, evs[1..])
  }

  // The handlers.

  class UserReports {
    const cfg: Config
    const storage: Reports
    var effects: seq<Effect>

    constructor (cfg: Config, storage: Reports)
      ensures this.cfg == cfg && this.storage == storage && effects == []
    {
      this.cfg, this.storage, effects := cfg, storage, [];
    }

    method DirectUserReport(report: Report, command: Command, checked: Time, cleaned: Time, io: Io)
      modifies this, storage
      ensures var did := Step(cfg, old(storage.rows), Submit(report, command, checked, cleaned, io));
              storage.rows == did.rows && effects == old(effects) + did.effects
    {
      if !command.isReply {
        return;
      }
      if !command.hasSender || command.isTopic {
        return;
      }
      if command.bySuper || command.ofSuper {
        return;
      }
      if !command.byApproved {
        effects := effects + [Delete(command.id)];
        return;
      }
      var limited := CheckReportRateLimit(report.reporter, checked, io);
      if limited.None? {
        return;
      }
      effects := effects + [Delete(command.id)];
      if limited.value {
        return;
      }
      var ok := storage.Add(report, cleaned, io.insertOk, io.cleanOk);
      if !ok {
        return;
      }
      ghost var after := AfterThreshold(cfg, storage.rows, report.msg, io);
      Reassociate(old(effects), [Delete(command.id)], after.effects);
      CheckReportThreshold(report.msg, io);
    }

    /** None when the count could not be had. */
    method CheckReportRateLimit(reporter: UserId, now: Time, io: Io) returns (limited: Option<bool>)
      ensures limited == if cfg.rateLimit > 0 && !io.countOk then None
                         else Some(RateLimited(cfg, storage.rows, reporter, now))
    {
      if cfg.rateLimit <= 0 {
        return Some(false);
      }
      var count := storage.GetReporterCountSince(reporter, now - cfg.period, io.countOk);
      if count.None? {
        return None;
      }
      return Some(count.value >= cfg.rateLimit);
    }

    method CheckReportThreshold(msg: MsgId, io: Io)
      modifies this, storage
      ensures var did := AfterThreshold(cfg, old(storage.rows), msg, io);
              storage.rows == did.rows && effects == old(effects) + did.effects
    {
      var read := storage.GetByMessage(msg, io.readOk);
      if read.None? {
        return;
      }
      var reports := read.value;
      if cfg.autoBan > 0 && |reports| >= cfg.autoBan {
        ExecuteAutoBan(reports, io);
        return;
      }
      if |reports| < cfg.threshold {
        return;
      }
      if |reports| > 0 && reports[0].notified {
        UpdateReportNotification(reports);
        return;
      }
      SendReportNotification(reports, io);
    }

    method ExecuteAutoBan(reports: seq<Report>, io: Io)
      requires reports != []
      modifies this, storage
      ensures var did := AfterAutoBan(cfg, old(storage.rows), reports, io);
              storage.rows == did.rows && effects == old(effects) + did.effects
    {
      var first := reports[0];
      var ban := AutoBan(first.reported, first.msg, Reporters(reports));
      effects := effects + [ban];
      Punish(first.reported, first.msg, first.text);
      ghost var punished := Punished(cfg, first.reported, first.msg, first.text);
      Reassociate(old(effects), [ban], punished);
      Reassociate(old(effects), [ban] + punished, Notice(cfg, reports));
      if cfg.adminChat {
        var failed;
        if first.notified {
          failed := UpdateNotificationForAutoBan(reports, io);
        } else {
          effects := effects + [Post(first.msg, Reporters(reports), true)];
          failed := !io.sendOk;
        }
        if failed {
          return;
        }
      }
      storage.DeleteByMessage(first.msg, io.deleteOk);
    }

    /** Neither failing to learn, nor to delete, nor to ban stops the handler. */
    method Punish(user: UserId, msg: MsgId, text: string)
      modifies `effects
      ensures effects == old(effects) + Punished(cfg, user, msg, text)
    {
      effects := effects + [Disapprove(user)];
      if !cfg.dry && text != "" {
        effects := effects + [LearnSpam(text)];
      }
      if !cfg.dry {
        effects := effects + [Delete(msg)];
      }
      BanUser(user, cfg.soft);
    }

    method BanUser(user: UserId, restrict: bool)
      modifies `effects
      ensures effects == old(effects) + Banned(cfg, user, restrict)
    {
      if cfg.dry {
        return;
      }
      if cfg.training {
        return;
      }
      effects := effects + [Ban(user, restrict)];
    }

    method UpdateNotificationForAutoBan(reports: seq<Report>, io: Io) returns (failed: bool)
      requires reports != []
      modifies this
      ensures failed <==> reports[0].adminId == 0 || !io.sendOk
      ensures effects == old(effects) +
                         if reports[0].adminId == 0 then [] else [Edit(reports[0].adminId, Reporters(reports), true)]
    {
      if reports[0].adminId == 0 {
        return true;
      }
      effects := effects + [Edit(reports[0].adminId, Reporters(reports), true)];
      return !io.sendOk;
    }

    method UpdateReportNotification(reports: seq<Report>)
      modifies this
      ensures effects == old(effects) + if reports == [] || !cfg.adminChat then []
                                        else [Edit(reports[0].adminId, Reporters(reports), false)]
    {
      if |reports| == 0 || !cfg.adminChat {
        return;
      }
      effects := effects + [Edit(reports[0].adminId, Reporters(reports), false)];
    }

    method SendReportNotification(reports: seq<Report>, io: Io)
      modifies this, storage
      ensures var did := if reports == [] || !cfg.adminChat then Outcome(old(storage.rows), [])
                         else Outcome(if io.sendOk && io.updateOk
                                      then Notified(old(storage.rows), reports[0].msg, io.posted)
                                      else old(storage.rows),
                                      [Post(reports[0].msg, Reporters(reports), false)]);
              storage.rows == did.rows && effects == old(effects) + did.effects
    {
      if |reports| == 0 || !cfg.adminChat {
        return;
      }
      effects := effects + [Post(reports[0].msg, Reporters(reports), false)];
      if !io.sendOk {
        return;
      }
      storage.UpdateAdminMsgID(reports[0].msg, io.posted, io.updateOk);
    }

    method CallbackReportBan(user: UserId, msg: MsgId, query: int, io: Io)
      modifies this, storage
      ensures var did := Step(cfg, old(storage.rows), ApproveBan(user, msg, query, io));
              storage.rows == did.rows && effects == old(effects) + did.effects
    {
      var reports := storage.GetByMessage(msg, io.readOk);
      if reports.None? || |reports.value| == 0 {
        return;
      }
      Reassociate(old(effects), Punished(cfg, user, msg, reports.value[0].text), [Close(query)]);
      Punish(user, msg, reports.value[0].text);
      storage.DeleteByMessage(msg, io.deleteOk);
      effects := effects + [Close(query)];
    }

    method CallbackReportReject(msg: MsgId, query: int, io: Io)
      modifies this, storage
      ensures var did := Step(cfg, old(storage.rows), Reject(msg, query, io));
              storage.rows == did.rows && effects == old(effects) + did.effects
    {
      var reports := storage.GetByMessage(msg, io.readOk);
      if reports.None? || |reports.value| == 0 {
        return;
      }
      storage.DeleteByMessage(msg, io.deleteOk);
      effects := effects + [Close(query)];
    }

    method CallbackReportBanReporterConfirm(reporter: UserId, msg: MsgId, query: int, io: Io)
      modifies this, storage
      ensures var did := Step(cfg, old(storage.rows), BanReporter(reporter, msg, query, io));
              storage.rows == did.rows && effects == old(effects) + did.effects
    {
      var reports := storage.GetByMessage(msg, io.readOk);
      if reports.None? || |reports.value| == 0 {
        return;
      }
      BanUser(reporter, false);
      storage.DeleteReporter(reporter, msg, io.removeOk);
      var remaining := storage.GetByMessage(msg, io.rereadOk);
      if remaining.None? || |remaining.value| == 0 {
        storage.DeleteByMessage(msg, io.deleteOk);
        Reassociate(old(effects), Banned(cfg, reporter, false), [Close(query)]);
        effects := effects + [Close(query)];
      } else {
        var refresh := Refresh(query, Reporters(remaining.value));
        Reassociate(old(effects), Banned(cfg, reporter, false), [refresh]);
        effects := effects + [refresh];
      }
    }
  }
}
