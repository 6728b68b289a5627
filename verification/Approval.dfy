/** Who counts as approved: the per-user counter that ham messages raise and that admins set.
    Every single check is represented by its verdict. */
module Approval {
  import opened Sequences

  type UserId = string

  /** veto: OpenAI is asked about spam, to overturn it; otherwise it is asked about ham. */
  datatype OpenAI = OpenAI(checkShort: bool, veto: bool)

  datatype Config = Config(firstMessageOnly: bool, firstMessagesCount: int, openai: Option<OpenAI>)

  /** NewDetector: a count implies the flag, and the flag without a count means one message. */
  function Normalised(c: Config): Config {
    var flag := c.firstMessageOnly || c.firstMessagesCount > 0;
    Config(flag, if flag && c.firstMessagesCount == 0 then 1 else c.firstMessagesCount, c.openai)
  }

  /** A message with the verdicts it would get: duplicate is the behavioural check, simple any
      check made before the length is looked at, content the similarity or classifier check,
      answer and failed what OpenAI would say. */
  datatype Message = Message(user: UserId, checkOnly: bool, duplicate: bool, simple: bool, short: bool,
                             content: bool, answer: bool, failed: bool)

  datatype Result = PreApproved | TooShort(spam: bool) | Checked(spam: bool)

  function CountOf(counts: map<UserId, int>, u: UserId): int {
    if u in counts then counts[u] else 0
  }

  predicate Skips(cfg: Config, count: int, m: Message) {
    m.user != "" && cfg.firstMessageOnly && !m.duplicate && count >= cfg.firstMessagesCount
  }

  predicate Limited(cfg: Config) {
    cfg.firstMessageOnly || cfg.firstMessagesCount > 0
  }

  /** What the checks make of a message that is not skipped. */
  function Verdict(cfg: Config, m: Message): Result {
    var early := m.duplicate || m.simple;
    if m.short && (early || cfg.openai.None? || !cfg.openai.value.checkShort) then TooShort(early)
    else
      var detected := early || (!m.short && m.content);
      if cfg.openai.Some? && Limited(cfg)
         && (m.short || (if detected then cfg.openai.value.veto else !cfg.openai.value.veto))
         && !(detected && m.failed)
      then Checked(m.answer) else Checked(detected)
  }

  /** The message is ham, long enough, and not only checked: it raises the counter. */
  predicate Qualifies(cfg: Config, m: Message) {
    Verdict(cfg, m) == Checked(false) && Limited(cfg) && !m.checkOnly && !m.short
  }

  datatype State = State(counts: map<UserId, int>, stored: set<UserId>)

  /** dbOk says whether the storage call succeeds. */
  datatype Event =
    | Check(m: Message, dbOk: bool)
    | Approve(user: UserId, dbOk: bool)
    | Disapprove(user: UserId, dbOk: bool)
    | Load(dbOk: bool)
    | Reset

  function Trusting(cfg: Config, users: set<UserId>): map<UserId, int> {
    map u | u in users :: cfg.firstMessagesCount + 1
  }

  function Step(cfg: Config, st: State, ev: Event): State {
    match ev
    case Check(m, dbOk) =>
      if Skips(cfg, CountOf(st.counts, m.user), m) || !Qualifies(cfg, m) then st
      else State(st.counts[m.user := CountOf(st.counts, m.user) + 1],
                 if dbOk && m.user != "" then st.stored + {m.user} else st.stored)
    case Approve(u, dbOk) =>
      State(st.counts[u := cfg.firstMessagesCount + 1], if dbOk && u != "" then st.stored + {u} else st.stored)
    case Disapprove(u, dbOk) => State(st.counts - {u}, if dbOk then st.stored - {u} else st.stored)
    case Load(dbOk) => State(if dbOk then Trusting(cfg, st.stored) else map[], st.stored)
    case Reset => State(map[], st.stored)
  }

  predicate IsApproved(cfg: Config, st: State, u: UserId) {
    u in st.counts && st.counts[u] > cfg.firstMessagesCount
  }

  // The detector's methods.

  class ApprovedUsers {
    const cfg: Config
    var approvedUsers: map<UserId, int>
    var stored: set<UserId>

    constructor (given: Config, stored: set<UserId>)
      ensures cfg == Normalised(given) && View() == State(map[], stored)
      ensures cfg.firstMessageOnly <==> given.firstMessageOnly || given.firstMessagesCount > 0
      ensures cfg.firstMessagesCount
           == if given.firstMessageOnly && given.firstMessagesCount == 0 then 1 else given.firstMessagesCount
      ensures cfg.openai == given.openai
    {
      cfg := Normalised(given);
      approvedUsers, this.stored := map[], stored;
    }

    ghost function View(): State
      reads this
    {
      State(approvedUsers, stored)
    }

    /** UserStorage.Write, which refuses an empty id. */
    method Write(u: UserId, dbOk: bool)
      modifies `stored
      ensures stored == if dbOk && u != "" then old(stored) + {u} else old(stored)
    {
      if u != "" && dbOk {
        stored := stored + {u};
      }
    }

    /** A message that is not skipped is spam when a check says so, unless OpenAI is asked: about
        short messages without a hit if it is set up for them, about others to overturn a hit with
        the veto, or to find one without; a failed call leaves a hit standing. Ham that is long
        enough and not only checked raises the counter and is stored. */
    method Check(m: Message, dbOk: bool) returns (r: Result)
      modifies this
      ensures View() == Step(cfg, old(View()), Event.Check(m, dbOk))
      ensures r == PreApproved <==>
                m.user != "" && cfg.firstMessageOnly && !m.duplicate
                && (if m.user in old(approvedUsers) then old(approvedUsers)[m.user] else 0) >= cfg.firstMessagesCount
      ensures r.TooShort? <==>
                r != PreApproved && m.short
                && (m.duplicate || m.simple || cfg.openai.None? || !cfg.openai.value.checkShort)
      ensures r != PreApproved ==>
                var hit := m.duplicate || m.simple || (!m.short && m.content);
                (r.spam <==>
                   if cfg.openai.Some? && (cfg.firstMessageOnly || cfg.firstMessagesCount > 0)
                      && (if m.short then !hit && cfg.openai.value.checkShort
                          else if hit then cfg.openai.value.veto && !m.failed else !cfg.openai.value.veto)
                   then m.answer else hit)
      ensures var counts := r == Checked(false) && (cfg.firstMessageOnly || cfg.firstMessagesCount > 0)
                            && !m.checkOnly && !m.short;
              && approvedUsers == (if counts then old(approvedUsers)[m.user := CountOf(old(approvedUsers), m.user) + 1]
                                   else old(approvedUsers))
              && stored == if counts && dbOk && m.user != "" then old(stored) + {m.user} else old(stored)
    {
      if m.user != "" && cfg.firstMessageOnly && !m.duplicate
         && CountOf(approvedUsers, m.user) >= cfg.firstMessagesCount {
        return PreApproved;
      }
      var spamDetected := m.duplicate || m.simple;
      if m.short {
        if spamDetected || cfg.openai.None? || !cfg.openai.value.checkShort {
          return TooShort(spamDetected);
        }
      }
      if !m.short {
        spamDetected := spamDetected || m.content;
      }
      if cfg.openai.Some? && (cfg.firstMessageOnly || cfg.firstMessagesCount > 0) {
        var ai := cfg.openai.value;
        var shouldCheck := (m.short && ai.checkShort) || (!spamDetected && !ai.veto) || (spamDetected && ai.veto);
        if shouldCheck {
          if !(spamDetected && m.failed) {
            spamDetected := m.answer;
          }
        }
      }
      if spamDetected {
        return Checked(true);
      }
      if (cfg.firstMessageOnly || cfg.firstMessagesCount > 0) && !m.checkOnly && !m.short {
        approvedUsers := approvedUsers[m.user := CountOf(approvedUsers, m.user) + 1];
        Write(m.user, dbOk);
      }
      return Checked(false);
    }

    method AddApprovedUser(u: UserId, dbOk: bool)
      modifies this
      ensures View() == Step(cfg, old(View()), Approve(u, dbOk))
      ensures approvedUsers == old(approvedUsers)[u := cfg.firstMessagesCount + 1]
      ensures stored == if dbOk && u != "" then old(stored) + {u} else old(stored)
    {
      approvedUsers := approvedUsers[u := cfg.firstMessagesCount + 1];
      Write(u, dbOk);
    }

    method RemoveApprovedUser(u: UserId, dbOk: bool)
      modifies this
      ensures View() == Step(cfg, old(View()), Disapprove(u, dbOk))
      ensures approvedUsers == old(approvedUsers) - {u} && stored == if dbOk then old(stored) - {u} else old(stored)
    {
      approvedUsers := approvedUsers - {u};
      if dbOk {
        stored := stored - {u};
      }
    }

    /** Forgets the counters and loads the stored users. */
    method WithUserStorage(dbOk: bool)
      modifies this
      ensures View() == Step(cfg, old(View()), Load(dbOk))
      ensures approvedUsers.Keys == (if dbOk then old(stored) else {}) && stored == old(stored)
      ensures forall u :: u in approvedUsers ==> approvedUsers[u] == cfg.firstMessagesCount + 1
    {
      approvedUsers := map[];
      if dbOk {
        var left := stored;
        while left != {}
          invariant left <= stored == old(stored)
          invariant approvedUsers == Trusting(cfg, stored - left)
        {
          var u :| u in left;
          approvedUsers := approvedUsers[u := cfg.firstMessagesCount + 1];
          left := left - {u};
        }
        assert stored - left == stored;
      }
    }

    method Forget()
      modifies this
      ensures View() == Step(cfg, old(View()), Reset) && approvedUsers == map[] && stored == old(stored)
    {
      approvedUsers := map[];
    }

    method IsApprovedUser(u: UserId) returns (yes: bool)
      ensures yes <==> IsApproved(cfg, View(), u)
      ensures yes <==> u in approvedUsers && approvedUsers[u] > cfg.firstMessagesCount
    {
      if u !in approvedUsers {
        return false;
      }
      return approvedUsers[u] > cfg.firstMessagesCount;
    }
  }

  // Runs.

  /** What a user's history amounts to: so many qualifying messages since the counter was last
      cleared, or trusted by an admin or by the stored list. */
  datatype Standing = Earned(messages: nat) | Trusted

  function Next(cfg: Config, stored: set<UserId>, u: UserId, s: Standing, ev: Event): Standing {
    match ev
    case Check(m, _) => if m.user == u && s.Earned? && Qualifies(cfg, m) then Earned(s.messages + 1) else s
    case Approve(v, _) => if v == u then Trusted else s
    case Disapprove(v, _) => if v == u then Earned(0) else s
    case Load(dbOk) => if dbOk && u in stored then Trusted else Earned(0)
    case Reset => Earned(0)
  }

  function Run(cfg: Config, st: State, evs: seq<Event>): State
    decreases |evs|
  {
    if evs == [] then st else Run(cfg, Step(cfg, st, evs[0]), evs[1..])
  }

  function StandingAfter(cfg: Config, st: State, u: UserId, s: Standing, evs: seq<Event>): Standing
    decreases |evs|
  {
    if evs == [] then s
    else StandingAfter(cfg, Step(cfg, st, evs[0]), u, Next(cfg, st.stored, u, s, evs[0]), evs[1..])
  }

  /** The counter a standing is worth. */
  function Worth(cfg: Config, s: Standing): int {
    match s
    case Trusted => cfg.firstMessagesCount + 1
    case Earned(k) => if k <= cfg.firstMessagesCount then k else cfg.firstMessagesCount
  }

  /** What a message that is not skipped comes to. */
  lemma VerdictMeans(cfg: Config, m: Message)
    ensures Verdict(cfg, m).TooShort?
       <==> m.short && (m.duplicate || m.simple || cfg.openai.None? || !cfg.openai.value.checkShort)
    ensures Verdict(cfg, m).TooShort? || Verdict(cfg, m).Checked?
    ensures cfg.openai.None? ==> (Verdict(cfg, m).spam <==> m.duplicate || m.simple || (!m.short && m.content))
    ensures cfg.openai.Some? ==>
              var hit := m.duplicate || m.simple || (!m.short && m.content);
              (Verdict(cfg, m).spam <==>
                 if (cfg.firstMessageOnly || cfg.firstMessagesCount > 0)
                    && (if m.short then !hit && cfg.openai.value.checkShort
                        else if hit then cfg.openai.value.veto && !m.failed else !cfg.openai.value.veto)
                 then m.answer else hit)
  {
  }

  /** Which messages raise the counter, when nothing but the checks decides: ham of some length. */
  lemma QualifiesIff(cfg: Config, m: Message)
    ensures Qualifies(cfg, m)
       <==> && (cfg.firstMessageOnly || cfg.firstMessagesCount > 0) && !m.checkOnly && !m.short
            && if cfg.openai.Some? && (if m.duplicate || m.simple || m.content then cfg.openai.value.veto && !m.failed
                                       else !cfg.openai.value.veto)
               then !m.answer else !m.duplicate && !m.simple && !m.content
  {
  }

  /** OpenAI may veto spam, and lets this duplicate pass. */
  predicate WavedThrough(cfg: Config, m: Message) {
    && m.duplicate && cfg.openai.Some? && cfg.openai.value.veto
    && !m.short && !m.checkOnly && !m.failed && !m.answer
  }

  /** No duplicate of user u is waved through as ham. */
  predicate DuplicatesAreSpam(cfg: Config, u: UserId, evs: seq<Event>) {
    forall i :: 0 <= i < |evs| && evs[i].Check? && evs[i].m.user == u ==> !WavedThrough(cfg, evs[i].m)
  }

  /** A duplicate counts exactly when a veto lets it pass. */
  lemma DuplicateQualifiesIff(cfg: Config, m: Message)
    ensures m.duplicate && Qualifies(cfg, m) <==> WavedThrough(cfg, m) && Limited(cfg)
  {
  }

  lemma StepWorth(cfg: Config, st: State, u: UserId, s: Standing, ev: Event)
    requires cfg.firstMessageOnly && cfg.firstMessagesCount >= 1 && u != ""
    requires CountOf(st.counts, u) == Worth(cfg, s)
    requires ev.Check? && ev.m.user == u ==> !WavedThrough(cfg, ev.m)
    ensures CountOf(Step(cfg, st, ev).counts, u) == Worth(cfg, Next(cfg, st.stored, u, s, ev))
  {
  }

  /** Over every run a user's counter is the number of qualifying messages since it was last
      cleared, capped at N, unless an admin or the stored list trusts the user: then it is N+1. */
  lemma {:induction false} CounterOverRuns(cfg: Config, st: State, u: UserId, s: Standing, evs: seq<Event>)
    requires cfg.firstMessageOnly && cfg.firstMessagesCount >= 1 && u != ""
    requires CountOf(st.counts, u) == Worth(cfg, s) && DuplicatesAreSpam(cfg, u, evs)
    ensures CountOf(Run(cfg, st, evs).counts, u) == Worth(cfg, StandingAfter(cfg, st, u, s, evs))
    decreases |evs|
  {
    if evs != [] {
      StepWorth(cfg, st, u, s, evs[0]);
      assert forall i :: 0 <= i < |evs[1..]| ==> evs[1..][i] == evs[i + 1];
      CounterOverRuns(cfg, Step(cfg, st, evs[0]), u, Next(cfg, st.stored, u, s, evs[0]), evs[1..]);
    }
  }

  /** So only trusted users are approved, and the content checks are skipped for trusted users
      and from N qualifying messages on, duplicates aside. */
  lemma ApprovedMeansTrusted(cfg: Config, stored: set<UserId>, u: UserId, evs: seq<Event>, m: Message)
    requires cfg.firstMessageOnly && cfg.firstMessagesCount >= 1 && u != "" && m.user == u
    requires DuplicatesAreSpam(cfg, u, evs)
    ensures var st := Run(cfg, State(map[], stored), evs);
            var s := StandingAfter(cfg, State(map[], stored), u, Earned(0), evs);
            && (IsApproved(cfg, st, u) <==> s.Trusted?)
            && (Skips(cfg, CountOf(st.counts, u), m) <==>
                  !m.duplicate && (s.Trusted? || s.messages >= cfg.firstMessagesCount))
  {
    CounterOverRuns(cfg, State(map[], stored), u, Earned(0), evs);
  }

  /** With a veto it fails. A message approves a user who was not approved exactly when the user
      already stood at N and the veto lets a duplicate pass. */
  lemma ApprovedByVetoIff(cfg: Config, st: State, m: Message, dbOk: bool)
    requires cfg.firstMessageOnly && m.user != "" && CountOf(st.counts, m.user) <= cfg.firstMessagesCount
    requires cfg.firstMessagesCount >= 1
    ensures IsApproved(cfg, Step(cfg, st, Check(m, dbOk)), m.user)
       <==> CountOf(st.counts, m.user) == cfg.firstMessagesCount && WavedThrough(cfg, m)
  {
  }

  /** And it happens, whoever the user is. */
  lemma VetoedDuplicateApproves(cfg: Config, st: State, u: UserId, dbOk: bool)
    requires cfg.firstMessageOnly && cfg.firstMessagesCount >= 1 && cfg.openai.Some? && cfg.openai.value.veto
    requires u != "" && CountOf(st.counts, u) == cfg.firstMessagesCount
    ensures exists m: Message :: m.user == u && IsApproved(cfg, Step(cfg, st, Check(m, dbOk)), u)
  {
    var m := Message(u, false, true, false, false, false, false, false);
    ApprovedByVetoIff(cfg, st, m, dbOk);
  }

  // Restarts.

  /** The event writes the user to the stored list: a message that counts, or an admin's word. */
  predicate Writes(cfg: Config, st: State, ev: Event, u: UserId) {
    match ev
    case Check(m, dbOk) =>
      m.user == u && u != "" && dbOk && Qualifies(cfg, m) && !Skips(cfg, CountOf(st.counts, u), m)
    case Approve(v, dbOk) => v == u && u != "" && dbOk
    case _ => false
  }

  predicate Erases(ev: Event, u: UserId) {
    ev.Disapprove? && ev.user == u && ev.dbOk
  }

  lemma StepStored(cfg: Config, st: State, ev: Event, u: UserId)
    ensures u in Step(cfg, st, ev).stored <==> Writes(cfg, st, ev, u) || (u in st.stored && !Erases(ev, u))
  {
  }

  /** The event at i writes the user, and none behind it erases the user. */
  predicate WrittenAt(cfg: Config, st: State, evs: seq<Event>, u: UserId, i: nat)
    requires i < |evs|
  {
    Writes(cfg, Run(cfg, st, evs[..i]), evs[i], u) && NoneErases(evs[i + 1..], u)
  }

  predicate NoneErases(evs: seq<Event>, u: UserId) {
    forall j :: 0 <= j < |evs| ==> !Erases(evs[j], u)
  }

  lemma {:induction false} RunSnoc(cfg: Config, st: State, evs: seq<Event>, ev: Event)
    ensures Run(cfg, st, evs + [ev]) == Step(cfg, Run(cfg, st, evs), ev)
    decreases |evs|
  {
    if evs == [] {
      assert [] + [ev] == [ev] && [ev][1..] == [];
      assert Run(cfg, Step(cfg, st, ev), []) == Step(cfg, st, ev);
    } else {
      RunSnoc(cfg, Step(cfg, st, evs[0]), evs[1..], ev);
      assert (evs + [ev])[1..] == evs[1..] + [ev];
    }
  }

  lemma ErasesSnoc(evs: seq<Event>, ev: Event, u: UserId)
    ensures NoneErases(evs + [ev], u) <==> NoneErases(evs, u) && !Erases(ev, u)
  {
    var all := evs + [ev];
    assert all[|evs|] == ev;
    assert forall j :: 0 <= j < |evs| ==> all[j] == evs[j];
  }

  lemma WrittenSnoc(cfg: Config, st: State, evs: seq<Event>, ev: Event, u: UserId, i: nat)
    requires i <= |evs|
    ensures WrittenAt(cfg, st, evs + [ev], u, i)
       <==> if i < |evs| then WrittenAt(cfg, st, evs, u, i) && !Erases(ev, u)
            else Writes(cfg, Run(cfg, st, evs), ev, u)
  {
    var all := evs + [ev];
    assert all[..i] == evs[..i];
    if i < |evs| {
      assert all[i + 1..] == evs[i + 1..] + [ev];
      ErasesSnoc(evs[i + 1..], ev, u);
    } else {
      assert evs[..i] == evs && all[i + 1..] == [];
    }
  }

  /** Over every run the stored list holds just the users written since they were last erased,
      and those it held from the start and that were never erased. */
  lemma {:induction false} StoredOverRuns(cfg: Config, st: State, evs: seq<Event>, u: UserId)
    ensures u in Run(cfg, st, evs).stored
       <==> (exists i :: 0 <= i < |evs| && WrittenAt(cfg, st, evs, u, i)) || (u in st.stored && NoneErases(evs, u))
    decreases |evs|
  {
    if evs != [] {
      var front, ev := evs[..|evs| - 1], evs[|evs| - 1];
      assert evs == front + [ev];
      StoredOverRuns(cfg, st, front, u);
      RunSnoc(cfg, st, front, ev);
      StepStored(cfg, Run(cfg, st, front), ev, u);
      ErasesSnoc(front, ev, u);
      forall i | 0 <= i < |evs|
        ensures WrittenAt(cfg, st, evs, u, i)
           <==> if i < |front| then WrittenAt(cfg, st, front, u, i) && !Erases(ev, u)
                else Writes(cfg, Run(cfg, st, front), ev, u)
      {
        WrittenSnoc(cfg, st, front, ev, u, i);
      }
      if Writes(cfg, Run(cfg, st, front), ev, u) {
        assert WrittenAt(cfg, st, evs, u, |front|);
      }
      if i :| 0 <= i < |front| && WrittenAt(cfg, st, front, u, i) && !Erases(ev, u) {
        assert WrittenAt(cfg, st, evs, u, i);
      }
    }
  }

  /** Loading approves just the stored users. */
  lemma LoadApproves(cfg: Config, st: State, u: UserId)
    ensures IsApproved(cfg, Step(cfg, st, Load(true)), u) <==> u in st.stored
  {
  }

  /** The detector as it starts, over a stored list. */
  function Start(stored: set<UserId>): State {
    State(map[], stored)
  }

  /** So a restart approves a user exactly when one message of the user counted, or an admin
      approved the user, since the last removal, or the list held the user already: N plays no
      part in it. */
  lemma RestartApprovesIff(cfg: Config, stored: set<UserId>, evs: seq<Event>, u: UserId)
    ensures IsApproved(cfg, Run(cfg, Start(stored), evs + [Load(true)]), u)
       <==> (exists i :: 0 <= i < |evs| && WrittenAt(cfg, Start(stored), evs, u, i))
            || (u in stored && NoneErases(evs, u))
  {
    var st := Start(stored);
    RunSnoc(cfg, st, evs, Load(true));
    LoadApproves(cfg, Run(cfg, st, evs), u);
    StoredOverRuns(cfg, st, evs, u);
  }

  /** A restart approves a user who was not approved exactly when the user was stored without
      being trusted, whatever the number of messages. */
  lemma RestartPromotesIff(cfg: Config, stored: set<UserId>, evs: seq<Event>, u: UserId)
    requires cfg.firstMessageOnly && cfg.firstMessagesCount >= 1 && u != "" && DuplicatesAreSpam(cfg, u, evs)
    ensures !IsApproved(cfg, Run(cfg, Start(stored), evs), u)
            && IsApproved(cfg, Run(cfg, Start(stored), evs + [Load(true)]), u)
       <==> StandingAfter(cfg, Start(stored), u, Earned(0), evs).Earned? && u in Run(cfg, Start(stored), evs).stored
  {
    var st := Start(stored);
    RunSnoc(cfg, st, evs, Load(true));
    LoadApproves(cfg, Run(cfg, st, evs), u);
    CounterOverRuns(cfg, st, u, Earned(0), evs);
  }

  /** One message that counts is enough. */
  lemma RestartApproves(cfg: Config, st: State, m: Message)
    requires m.user != "" && Qualifies(cfg, m) && !Skips(cfg, CountOf(st.counts, m.user), m)
    ensures IsApproved(cfg, Run(cfg, st, [Check(m, true), Load(true)]), m.user)
  {
    var evs := [Check(m, true)];
    RunSnoc(cfg, st, evs, Load(true));
    RunSnoc(cfg, st, [], Check(m, true));
    assert [] + [Check(m, true)] == evs && evs + [Load(true)] == [Check(m, true), Load(true)];
    LoadApproves(cfg, Run(cfg, st, evs), m.user);
  }
}
