/** When a hold begins and when it is over, told by the statements that were run and not by what is stored. */
module MetaHolds {
  import opened Options
  import opened Runs
  import opened MetaCreate

  /** The provider codes the cooldown query lists. */
  const THROTTLE_CODES: set<int> := {
    4, 17, 32, 613, 80000, 80001, 80002, 80003, 80004, 80005, 80006, 80007, 80008, 80009, 80010, 80011, 80012, 80013, 80014}

  /** The provider answered, or may have, and its answer shows a throttle. */
  predicate ThrottleShown(d: Diagnostic) {
    && (d.phase == ProviderResponse || d.phase == DispatchUnknown)
    && (|| d.outcome == Throttled || d.httpStatus == Some(429) || d.subcode == Some(2446079)
        || (d.code.Some? && d.code.value in THROTTLE_CODES))
  }

  /** The statement records a cooldown on the account. */
  predicate RecordsNow(s: State, e: Event, account: string) {
    && e.RecordCooldown? && e.db != NotRun && e.c in s.callers && s.callers[e.c].pc.Failing?
    && var r, d := s.callers[e.c].request, s.callers[e.c].pc.d;
       r.local.Some? && r.account == account && (ThrottleShown(d) || d.rateLimited)
  }

  /** The statement writes a failed audit that the cooldown query counts. */
  predicate AuditsNow(s: State, e: Event, account: string) {
    && e.WriteAudit? && e.db != NotRun && e.c in s.callers && s.callers[e.c].pc.Auditing?
    && var r, d := s.callers[e.c].request, s.callers[e.c].pc.d;
       r.local.Some? && r.account == account && (ThrottleShown(d) || (d.rateLimited && d.phase == NotDispatched))
  }

  ghost predicate RecordsAt(events: seq<Event>, i: nat, account: string) {
    i < |events| && RecordsNow(Run(events[..i]), events[i], account)
  }

  ghost predicate AuditsAt(events: seq<Event>, i: nat, account: string) {
    i < |events| && AuditsNow(Run(events[..i]), events[i], account)
  }

  function TimeOf(events: seq<Event>, i: nat): nat
    requires i <= |events|
  {
    Run(events[..i]).now
  }

  /** A cooldown or a counted audit of the account ran within the 45 minutes before now. */
  ghost predicate HoldRuns(events: seq<Event>, account: string) {
    exists i: nat ::
      (RecordsAt(events, i, account) || AuditsAt(events, i, account)) && Run(events).now < TimeOf(events, i) + 2_700_000
  }

  // ----- What one statement stores -----

  function Later(a: nat, b: nat): nat {
    if a >= b then a else b
  }

  lemma CooldownStep(s: State, e: Event, account: string)
    ensures var t := Step(s, e);
      && (account in t.cooldown <==> account in s.cooldown || RecordsNow(s, e, account))
      && (RecordsNow(s, e, account) ==>
            t.cooldown[account] == Later(if account in s.cooldown then s.cooldown[account] else 0, s.now + 2_700_000))
      && (account in t.cooldown && !RecordsNow(s, e, account) ==> t.cooldown[account] == s.cooldown[account])
  {
    if e.RecordCooldown? && e.c in s.callers && s.callers[e.c].pc.Failing? {
      assert RecordsHold(s.callers[e.c].pc.d) <==> ThrottleShown(s.callers[e.c].pc.d) || s.callers[e.c].pc.d.rateLimited;
    }
  }

  lemma AuditStep(s: State, e: Event)
    ensures var t := Step(s, e);
      if e.WriteAudit? && e.c in s.callers && AuditsNow(s, e, s.callers[e.c].request.account)
        then t.audits == s.audits + [Audit(s.callers[e.c].request.account, s.now)]
      else t.audits == s.audits
  {
  }

  lemma TimeNeverFalls(s: State, e: Event)
    ensures s.now <= Step(s, e).now
  {
  }

  // ----- What is stored after a run -----

  /** A cooldown ends 45 minutes after some recording ... */
  ghost predicate CooldownFrom(events: seq<Event>, account: string) {
    var s := Run(events);
    account in s.cooldown ==> exists i: nat :: RecordsAt(events, i, account) && s.cooldown[account] == TimeOf(events, i) + 2_700_000
  }

  /** ... and no sooner than 45 minutes after any. */
  ghost predicate CooldownCovers(events: seq<Event>, account: string) {
    var s := Run(events);
    forall i: nat :: RecordsAt(events, i, account) ==>
      account in s.cooldown && s.cooldown[account] >= TimeOf(events, i) + 2_700_000
  }

  /** The counted audits are exactly those that were written, with their times. */
  ghost predicate AuditsAre(events: seq<Event>, account: string) {
    var s := Run(events);
    && (forall k :: 0 <= k < |s.audits| && s.audits[k].account == account ==>
          exists i: nat :: AuditsAt(events, i, account) && s.audits[k].at == TimeOf(events, i))
    && forall i: nat :: AuditsAt(events, i, account) ==> Audit(account, TimeOf(events, i)) in s.audits
  }

  lemma Earlier(events: seq<Event>, i: nat)
    requires events != [] && i < |events| - 1
    ensures events[..|events| - 1][..i] == events[..i] && events[..|events| - 1][i] == events[i]
  {
  }

  lemma RunSnocIs(events: seq<Event>)
    requires events != []
    ensures Run(events) == Step(Run(events[..|events| - 1]), events[|events| - 1])
  {
  }

  lemma EarlierRecords(events: seq<Event>, account: string, i: nat)
    requires events != [] && i < |events| - 1
    ensures RecordsAt(events, i, account) <==> RecordsAt(events[..|events| - 1], i, account)
    ensures TimeOf(events, i) == TimeOf(events[..|events| - 1], i)
  {
    Earlier(events, i);
  }

  lemma LastRecords(events: seq<Event>, account: string)
    requires events != []
    ensures var front, e := events[..|events| - 1], events[|events| - 1];
      && Run(events) == Step(Run(front), e) && TimeOf(events, |events| - 1) == Run(front).now
      && (RecordsAt(events, |events| - 1, account) <==> RecordsNow(Run(front), e, account))
  {
    RunSnocIs(events);
  }

  lemma {:induction false} StoredFrom(events: seq<Event>, account: string)
    ensures CooldownFrom(events, account)
  {
    if events != [] {
      var n := |events| - 1;
      var front := events[..n];
      StoredFrom(front, account);
      LastRecords(events, account);
      CooldownStep(Run(front), events[n], account);
      if account in Run(events).cooldown && !(RecordsAt(events, n, account) && Run(events).cooldown[account] == TimeOf(events, n) + 2_700_000) {
        var i: nat :| RecordsAt(front, i, account) && Run(front).cooldown[account] == TimeOf(front, i) + 2_700_000;
        EarlierRecords(events, account, i);
      }
    }
  }

  lemma {:induction false} StoredCovers(events: seq<Event>, account: string)
    ensures CooldownCovers(events, account)
  {
    if events != [] {
      var n := |events| - 1;
      var front := events[..n];
      StoredCovers(front, account);
      LastRecords(events, account);
      CooldownStep(Run(front), events[n], account);
      forall i: nat | RecordsAt(events, i, account)
        ensures account in Run(events).cooldown && Run(events).cooldown[account] >= TimeOf(events, i) + 2_700_000
      {
        if i < n { EarlierRecords(events, account, i); }
      }
    }
  }

  lemma {:induction false} StoredAudits(events: seq<Event>, account: string)
    ensures AuditsAre(events, account)
  {
    if events != [] {
      var n := |events| - 1;
      var front := events[..n];
      StoredAudits(front, account);
      RunSnocIs(events);
      AuditStep(Run(front), events[n]);
      forall i: nat | i < n ensures AuditsAt(events, i, account) <==> AuditsAt(front, i, account)
        ensures TimeOf(events, i) == TimeOf(front, i)
      {
        Earlier(events, i);
      }
      assert AuditsAt(events, n, account) <==> AuditsNow(Run(front), events[n], account);
      forall k | 0 <= k < |Run(events).audits| && Run(events).audits[k].account == account
        ensures exists i: nat :: AuditsAt(events, i, account) && Run(events).audits[k].at == TimeOf(events, i)
      {
        if k < |Run(front).audits| {
          var i: nat :| AuditsAt(front, i, account) && Run(front).audits[k].at == TimeOf(front, i);
          assert AuditsAt(events, i, account);
        } else {
          assert AuditsAt(events, n, account);
        }
      }
    }
  }

  lemma {:induction false} PastIsPast(events: seq<Event>, i: nat)
    requires i <= |events|
    ensures TimeOf(events, i) <= Run(events).now
  {
    if i == |events| {
      assert events[..i] == events;
    } else {
      PrefixOfFront(events, i);
      PastIsPast(events[..|events| - 1], i);
      RunSnocIs(events);
      TimeNeverFalls(Run(events[..|events| - 1]), events[|events| - 1]);
    }
  }

  lemma PrefixOfFront(events: seq<Event>, i: nat)
    requires i < |events|
    ensures events[..|events| - 1][..i] == events[..i]
  {
  }

  lemma RunningIsHeld(events: seq<Event>, account: string, i: nat)
    requires RecordsAt(events, i, account) || AuditsAt(events, i, account)
    requires Run(events).now < TimeOf(events, i) + 2_700_000
    ensures Held(Run(events), account, Run(events).now)
  {
    var s := Run(events);
    PastIsPast(events, i);
    if RecordsAt(events, i, account) {
      StoredCovers(events, account);
    } else {
      StoredAudits(events, account);
      var k :| 0 <= k < |s.audits| && s.audits[k] == Audit(account, TimeOf(events, i));
    }
  }

  lemma CooldownIsRunning(events: seq<Event>, account: string)
    requires account in Run(events).cooldown && Run(events).cooldown[account] > Run(events).now
    ensures HoldRuns(events, account)
  {
    StoredFrom(events, account);
    var i: nat :| RecordsAt(events, i, account) && Run(events).cooldown[account] == TimeOf(events, i) + 2_700_000;
  }

  lemma AuditIsRunning(events: seq<Event>, account: string, k: nat)
    requires k < |Run(events).audits| && Run(events).audits[k].account == account
    requires Run(events).now < Run(events).audits[k].at + 2_700_000
    ensures HoldRuns(events, account)
  {
    StoredAudits(events, account);
    var i: nat :| AuditsAt(events, i, account) && Run(events).audits[k].at == TimeOf(events, i);
  }

  lemma HeldIsRunning(events: seq<Event>, account: string)
    requires Held(Run(events), account, Run(events).now)
    ensures HoldRuns(events, account)
  {
    HeldBy(Run(events), account);
    if account in Run(events).cooldown && Run(events).cooldown[account] > Run(events).now {
      CooldownIsRunning(events, account);
    } else {
      var k :| 0 <= k < |Run(events).audits| && HeldByAudit(Run(events), account, k);
      AuditIsRunning(events, account, k);
    }
  }

  predicate HeldByAudit(s: State, account: string, k: nat)
    requires k < |s.audits|
  {
    s.audits[k].account == account && s.audits[k].at <= s.now < s.audits[k].at + 2_700_000
  }

  lemma HeldBy(s: State, account: string)
    ensures Held(s, account, s.now) <==>
      (account in s.cooldown && s.cooldown[account] > s.now) || exists k :: 0 <= k < |s.audits| && HeldByAudit(s, account, k)
  {
    if i :| 0 <= i < |s.audits| && s.audits[i].account == account && s.audits[i].at <= s.now < s.audits[i].at + HOLD_MS {
      assert HeldByAudit(s, account, i);
    }
  }

  /** A stored hold is in force exactly while the 45 minutes of some recording or counted audit run. */
  lemma HeldIffHoldRuns(events: seq<Event>, account: string)
    ensures Held(Run(events), account, Run(events).now) <==> HoldRuns(events, account)
  {
    if Held(Run(events), account, Run(events).now) { HeldIsRunning(events, account); }
    if i: nat :| (RecordsAt(events, i, account) || AuditsAt(events, i, account)) && Run(events).now < TimeOf(events, i) + 2_700_000 {
      RunningIsHeld(events, account, i);
    }
  }

  /** In every run, a winner whose lookups did not break is refused if and only if it is a local one and a
      cooldown was recorded or a counted failed audit was written for its own account less than 45 minutes
      before; otherwise it goes on to the write at once. */
  lemma RefusedIffHoldRuns(events: seq<Event>, c: nat, d: Diagnostic)
    requires c in Run(events).callers && Run(events).callers[c].pc.Won?
    ensures var s, t := Run(events), Run(events + [CheckCooldown(c, false, d)]);
      var r, claim := s.callers[c].request, s.callers[c].pc.claim;
      && c in t.callers
      && t.callers[c].pc ==
           if r.local.Some? && HoldRuns(events, r.account) then Failing(claim, d) else Sending(claim, s.now)
  {
    RunFromSnoc(Step, INITIAL, events, CheckCooldown(c, false, d));
    HeldIffHoldRuns(events, Run(events).callers[c].request.account);
  }
}
