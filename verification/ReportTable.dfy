/** The reports table of one chat: at most one row per message and reporter, in insertion order. */
module ReportTable {
  import opened Sequences

  type Time = int
  type MsgId = int
  type UserId = int

  /** Seven days, in nanoseconds. */
  const RETENTION: int := 604_800_000_000_000

  /** adminId is the message in the admin chat that tells of the report, 0 before there is one. */
  datatype Report = Report(msg: MsgId, reporter: UserId, reported: UserId, text: string, time: Time,
                           notified: bool, adminId: int)

  predicate HasKey(rows: seq<Report>, msg: MsgId, reporter: UserId) {
    exists r :: r in rows && r.msg == msg && r.reporter == reporter
  }

  function Of(msg: MsgId): Report -> bool {
    (r: Report) => r.msg == msg
  }

  function NotOf(msg: MsgId): Report -> bool {
    (r: Report) => r.msg != msg
  }

  function NotBy(reporter: UserId, msg: MsgId): Report -> bool {
    (r: Report) => r.msg != msg || r.reporter != reporter
  }

  function Since(cutoff: Time): Report -> bool {
    (r: Report) => r.time >= cutoff
  }

  /** Reports by the reporter with lo <= time < hi. */
  function By(reporter: UserId, lo: Time, hi: Time): Report -> bool {
    (r: Report) => r.reporter == reporter && lo <= r.time < hi
  }

  function ByAfter(reporter: UserId, since: Time): Report -> bool {
    (r: Report) => r.reporter == reporter && r.time > since
  }

  /** INSERT OR IGNORE. */
  function Inserted(rows: seq<Report>, r: Report): seq<Report> {
    if HasKey(rows, r.msg, r.reporter) then rows else rows + [r.(notified := false, adminId := 0)]
  }

  /** What storing a report leaves, when old rows were deleted at time `later`, or were not
      because that failed. */
  function Added(rows: seq<Report>, r: Report, later: Time, cleanOk: bool): seq<Report> {
    if cleanOk then Filter(Since(later - RETENTION), Inserted(rows, r)) else Inserted(rows, r)
  }

  function Mark(r: Report, msg: MsgId, adminId: int): Report {
    if r.msg == msg then r.(notified := true, adminId := adminId) else r
  }

  function Notified(rows: seq<Report>, msg: MsgId, adminId: int): (s: seq<Report>)
    ensures |s| == |rows| && forall i :: 0 <= i < |s| ==> s[i] == Mark(rows[i], msg, adminId)
  {
    if rows == [] then [] else Notified(rows[..|rows| - 1], msg, adminId) + [Mark(rows[|rows| - 1], msg, adminId)]
  }

  // Ordering by report time.

  /** r behind the last row that is not later. */
  function Place(s: seq<Report>, r: Report): seq<Report> {
    if s == [] || s[|s| - 1].time <= r.time then s + [r] else Place(s[..|s| - 1], r) + [s[|s| - 1]]
  }

  function ByTime(rows: seq<Report>): seq<Report> {
    if rows == [] then [] else Place(ByTime(rows[..|rows| - 1]), rows[|rows| - 1])
  }

  function OfMessage(rows: seq<Report>, msg: MsgId): seq<Report> {
    ByTime(Filter(Of(msg), rows))
  }

  predicate InOrder(rows: seq<Report>) {
    forall i, j :: 0 <= i < j < |rows| ==> rows[i].time <= rows[j].time
  }

  predicate Answers(answer: seq<Report>, rows: seq<Report>) {
    InOrder(answer) && multiset(answer) == multiset(rows)
  }

  lemma SnocInOrder(s: seq<Report>, last: Report)
    requires InOrder(s) && forall x :: x in s ==> x.time <= last.time
    ensures InOrder(s + [last])
  {
  }

  lemma {:induction false} PlaceMembers(s: seq<Report>, r: Report)
    ensures multiset(Place(s, r)) == multiset(s) + multiset{r}
  {
    if s != [] && s[|s| - 1].time > r.time {
      PlaceMembers(s[..|s| - 1], r);
      assert s == s[..|s| - 1] + [s[|s| - 1]];
    }
  }

  lemma {:induction false} PlaceInOrder(s: seq<Report>, r: Report)
    requires InOrder(s)
    ensures InOrder(Place(s, r))
  {
    if s != [] && s[|s| - 1].time > r.time {
      var front, last := s[..|s| - 1], s[|s| - 1];
      PlaceInOrder(front, r);
      PlaceMembers(front, r);
      forall x | x in Place(front, r) ensures x.time <= last.time {
        assert x in multiset(Place(front, r));
        assert x == r || x in front;
      }
      SnocInOrder(Place(front, r), last);
    }
  }

  /** The query's answer holds the rows in time order. */
  lemma {:induction false} ByTimeAnswers(rows: seq<Report>)
    ensures Answers(ByTime(rows), rows)
  {
    if rows != [] {
      var front, last := rows[..|rows| - 1], rows[|rows| - 1];
      ByTimeAnswers(front);
      PlaceInOrder(ByTime(front), last);
      PlaceMembers(ByTime(front), last);
      assert rows == front + [last];
    }
  }

  predicate StrictlyInOrder(rows: seq<Report>) {
    forall i, j :: 0 <= i < j < |rows| ==> rows[i].time < rows[j].time
  }

  lemma LatestIs(a: seq<Report>, b: seq<Report>)
    requires StrictlyInOrder(a) && InOrder(b) && multiset(a) == multiset(b) && |a| == |b| > 0
    ensures a[|a| - 1] == b[|b| - 1]
  {
    var last := b[|b| - 1];
    assert last in multiset(a) && a[|a| - 1] in multiset(b);
    var i :| 0 <= i < |a| && a[i] == last;
    var j :| 0 <= j < |b| && b[j] == a[|a| - 1];
  }

  /** Where report times differ, that is the only answer an ORDER BY can give. */
  lemma {:induction false} AnswerUnique(a: seq<Report>, b: seq<Report>)
    requires StrictlyInOrder(a) && InOrder(b) && multiset(a) == multiset(b)
    ensures a == b
  {
    SameSize(a, b);
    if a != [] {
      LatestIs(a, b);
      var front, behind, last := a[..|a| - 1], b[..|b| - 1], a[|a| - 1];
      assert a == front + [last];
      assert b == behind + [last];
      DropLast(front, behind, last);
      AnswerUnique(front, behind);
    }
  }

  lemma SameSize(a: seq<Report>, b: seq<Report>)
    requires multiset(a) == multiset(b)
    ensures |a| == |b|
  {
    assert |a| == |multiset(a)| == |multiset(b)| == |b|;
  }

  lemma DropLast(a: seq<Report>, b: seq<Report>, x: Report)
    requires multiset(a + [x]) == multiset(b + [x])
    ensures multiset(a) == multiset(b)
  {
    assert multiset(a + [x]) == multiset(a) + multiset{x};
    assert multiset(b + [x]) == multiset(b) + multiset{x};
    assert multiset(a) == multiset(a) + multiset{x} - multiset{x};
  }

  lemma PlaceBehind(s: seq<Report>, r: Report)
    requires s == [] || s[|s| - 1].time <= r.time
    ensures Place(s, r) == s + [r]
  {
  }

  lemma ByTimeSnoc(rows: seq<Report>, last: Report)
    ensures ByTime(rows + [last]) == Place(ByTime(rows), last)
  {
    assert (rows + [last])[..|rows|] == rows;
  }

  lemma {:induction false} ByTimeOfOrdered(rows: seq<Report>)
    requires InOrder(rows)
    ensures ByTime(rows) == rows
  {
    if rows != [] {
      var front, last := rows[..|rows| - 1], rows[|rows| - 1];
      assert rows == front + [last];
      ByTimeOfOrdered(front);
      ByTimeSnoc(front, last);
      PlaceBehind(front, last);
    }
  }

  lemma {:induction false} FilterInOrder(p: Report -> bool, rows: seq<Report>)
    requires InOrder(rows)
    ensures InOrder(Filter(p, rows))
  {
    if rows != [] {
      var front, last := rows[..|rows| - 1], rows[|rows| - 1];
      FilterInOrder(p, front);
      forall x | x in Filter(p, front) ensures x.time <= last.time {
        FilterMember(p, front, x);
      }
    }
  }

  // The rows of a message.

  lemma OfMessageMember(rows: seq<Report>, msg: MsgId, r: Report)
    ensures r in OfMessage(rows, msg) <==> r in rows && r.msg == msg
  {
    var own := Filter(Of(msg), rows);
    ByTimeAnswers(own);
    FilterMember(Of(msg), rows, r);
    assert r in own <==> r in multiset(own);
    assert r in ByTime(own) <==> r in multiset(ByTime(own));
  }

  lemma OfMessageSize(rows: seq<Report>, msg: MsgId)
    ensures |OfMessage(rows, msg)| == |Filter(Of(msg), rows)|
  {
    var own := Filter(Of(msg), rows);
    ByTimeAnswers(own);
    SameSize(ByTime(own), own);
  }

  /** Deletions never add rows of any kind. */
  lemma FilterShrinks(p: Report -> bool, q: Report -> bool, rows: seq<Report>)
    ensures |Filter(q, Filter(p, rows))| <= |Filter(q, rows)|
  {
    FilterCommutes(p, q, rows);
  }

  /** A test that does not look at the marks counts the same rows before and after marking. */
  lemma {:induction false} MarkingKeepsCounts(p: Report -> bool, rows: seq<Report>, msg: MsgId, adminId: int)
    requires forall r :: p(Mark(r, msg, adminId)) == p(r)
    ensures |Filter(p, Notified(rows, msg, adminId))| == |Filter(p, rows)|
  {
    if rows != [] {
      MarkingKeepsCounts(p, rows[..|rows| - 1], msg, adminId);
      FilterSnoc(p, Notified(rows[..|rows| - 1], msg, adminId), Mark(rows[|rows| - 1], msg, adminId));
    }
  }

  /** Storing a report and the clean-up behind it: the reporter's row is there afterwards exactly
      when no row of the same reporter and message had already outlived the retention. */
  lemma AddStoresIff(rows: seq<Report>, r: Report, later: Time)
    requires r.time >= later - RETENTION
    requires forall x, y :: x in rows && y in rows && x.msg == y.msg && x.reporter == y.reporter ==> x == y
    ensures HasKey(Added(rows, r, later, true), r.msg, r.reporter)
       <==> !exists x :: x in rows && x.msg == r.msg && x.reporter == r.reporter && x.time < later - RETENTION
  {
    var inserted := Inserted(rows, r);
    forall x ensures x in Added(rows, r, later, true) <==> x in inserted && x.time >= later - RETENTION {
      FilterMember(Since(later - RETENTION), inserted, x);
    }
    if HasKey(rows, r.msg, r.reporter) {
      var x :| x in rows && x.msg == r.msg && x.reporter == r.reporter;
    } else {
      assert r.(notified := false, adminId := 0) in inserted;
    }
  }

  /** The rows once a report was stored and old rows deleted. */
  lemma AddedMeans(rows: seq<Report>, r: Report, later: Time, cleanOk: bool, x: Report)
    ensures x in Added(rows, r, later, cleanOk)
       <==> && (x in rows || (x == r.(notified := false, adminId := 0) && !HasKey(rows, r.msg, r.reporter)))
            && (cleanOk ==> x.time >= later - 604_800_000_000_000)
  {
    FilterMember(Since(later - RETENTION), Inserted(rows, r), x);
  }

  /** Where the table has reports by the reporter after the moment. */
  ghost function PlacesSince(rows: seq<Report>, reporter: UserId, since: Time): set<int> {
    set i | 0 <= i < |rows| && rows[i].reporter == reporter && rows[i].time > since
  }

  lemma CountIsPlaces(rows: seq<Report>, reporter: UserId, since: Time)
    ensures |Filter(ByAfter(reporter, since), rows)| == |PlacesSince(rows, reporter, since)|
  {
    var p := ByAfter(reporter, since);
    FilterSize(p, rows);
    assert Places(p, rows) == PlacesSince(rows, reporter, since);
  }

  // The storage object.

  /** Each call may fail, as the flags say, and then leaves the table alone. */
  class Reports {
    var rows: seq<Report>

    constructor ()
      ensures rows == []
    {
      rows := [];
    }

    /** Deleting old rows may fail without failing the call. */
    method Add(r: Report, later: Time, insertOk: bool, cleanOk: bool) returns (ok: bool)
      modifies this
      ensures ok == insertOk
      ensures rows == if ok then Added(old(rows), r, later, cleanOk) else old(rows)
      ensures ok ==> forall x :: x in rows <==>
                && (x in old(rows) ||
                      (x == r.(notified := false, adminId := 0)
                       && !exists y :: y in old(rows) && y.msg == r.msg && y.reporter == r.reporter))
                && (cleanOk ==> x.time >= later - 604_800_000_000_000)
    {
      var row := r.(notified := false, adminId := 0);
      if !insertOk {
        return false;
      }
      ghost var was := rows;
      if !HasKey(rows, row.msg, row.reporter) {
        rows := rows + [row];
      }
      if cleanOk {
        rows := Filter(Since(later - RETENTION), rows);
      }
      forall x ensures x in rows <==> && (x in was || (x == row && !HasKey(was, r.msg, r.reporter)))
                                      && (cleanOk ==> x.time >= later - RETENTION) {
        AddedMeans(was, r, later, cleanOk, x);
      }
      return true;
    }

    method GetByMessage(msg: MsgId, ok: bool) returns (reports: Option<seq<Report>>)
      ensures reports == if ok then Some(OfMessage(rows, msg)) else None
      ensures ok ==> InOrder(reports.value) && forall r :: r in reports.value <==> r in rows && r.msg == msg
    {
      if !ok {
        return None;
      }
      ByTimeAnswers(Filter(Of(msg), rows));
      forall r ensures r in OfMessage(rows, msg) <==> r in rows && r.msg == msg {
        OfMessageMember(rows, msg, r);
      }
      return Some(OfMessage(rows, msg));
    }

    method GetReporterCountSince(reporter: UserId, since: Time, ok: bool) returns (count: Option<nat>)
      ensures count == if ok then Some(|Filter(ByAfter(reporter, since), rows)|) else None
      ensures ok ==> count.value == |PlacesSince(rows, reporter, since)|
    {
      CountIsPlaces(rows, reporter, since);
      return if ok then Some(|Filter(ByAfter(reporter, since), rows)|) else None;
    }

    method UpdateAdminMsgID(msg: MsgId, adminId: int, ok: bool)
      modifies this
      ensures rows == if ok then Notified(old(rows), msg, adminId) else old(rows)
      ensures |rows| == |old(rows)|
      ensures forall i :: 0 <= i < |rows| ==>
                rows[i] == if ok && old(rows)[i].msg == msg then old(rows)[i].(notified := true, adminId := adminId)
                           else old(rows)[i]
    {
      if ok {
        rows := Notified(rows, msg, adminId);
      }
    }

    method DeleteReporter(reporter: UserId, msg: MsgId, ok: bool)
      modifies this
      ensures rows == if ok then Filter(NotBy(reporter, msg), old(rows)) else old(rows)
      ensures ok ==> forall r :: r in rows <==> r in old(rows) && !(r.msg == msg && r.reporter == reporter)
    {
      if ok {
        forall r ensures r in Filter(NotBy(reporter, msg), rows) <==> r in rows && NotBy(reporter, msg)(r) {
          FilterMember(NotBy(reporter, msg), rows, r);
        }
        rows := Filter(NotBy(reporter, msg), rows);
      }
    }

    method DeleteByMessage(msg: MsgId, ok: bool)
      modifies this
      ensures rows == if ok then Filter(NotOf(msg), old(rows)) else old(rows)
      ensures ok ==> forall r :: r in rows <==> r in old(rows) && r.msg != msg
    {
      if ok {
        forall r ensures r in Filter(NotOf(msg), rows) <==> r in rows && NotOf(msg)(r) {
          FilterMember(NotOf(msg), rows, r);
        }
        rows := Filter(NotOf(msg), rows);
      }
    }
  }
}
