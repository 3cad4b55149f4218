/** The 45-minute hold a throttled local create leaves on its account, over the runs of MetaCreate. */
module MetaCooldown {
  import opened Options
  import opened Runs
  import opened MetaCreate

  /** A hold that starts no earlier than `at` is stored: as a cooldown row, or as a failed-audit row. */
  ghost predicate Durable(s: State, account: string, at: nat) {
    || (account in s.cooldown && s.cooldown[account] >= at + HOLD_MS)
    || exists i :: 0 <= i < |s.audits| && s.audits[i].account == account && s.audits[i].at >= at
  }

  /** A hold-worthy failure whose fallback record also reads as a hold, or whose claim is kept. */
  predicate Protected(d: Diagnostic) {
    AuditHolds(d) || (RecordsHold(d) && !Releasable(d))
  }

  predicate Covers(th: Throttle, p: Post) {
    p.isLocal && p.key == th.key && p.account == th.account
  }

  /** What is stored only grows: the hold never moves earlier. */
  ghost predicate Later(s: State, t: State) {
    && s.now <= t.now
    && (forall a :: a in s.cooldown ==> a in t.cooldown && s.cooldown[a] <= t.cooldown[a])
    && s.audits <= t.audits && s.claims <= t.claims && s.posts <= t.posts && s.throttles <= t.throttles
  }

  lemma WriteIsLater(s: State, c: nat, answer: Answer)
    ensures Later(s, Step(s, Write(c, answer)))
  {
  }

  lemma StepIsLater(s: State, e: Event)
    ensures Later(s, Step(s, e))
  {
    if e.Write? {
      WriteIsLater(s, e.c, e.answer);
    } else if !e.Tick? && !e.Start? && e.c in s.callers {
      CallerStepIsLater(s, e);
    }
  }

  lemma CallerStepIsLater(s: State, e: Event)
    requires !e.Tick? && !e.Write? && e.c in s.callers
    ensures Later(s, CallerStep(s, e, s.callers[e.c].request, s.callers[e.c].pc))
  {
  }

  lemma DurableStays(s: State, t: State, account: string, at: nat)
    requires Later(s, t) && Durable(s, account, at)
    ensures Durable(t, account, at)
  {
    if !(account in s.cooldown && s.cooldown[account] >= at + HOLD_MS) {
      var i :| 0 <= i < |s.audits| && s.audits[i].account == account && s.audits[i].at >= at;
      assert t.audits[i] == s.audits[i];
    }
  }

  // ----- Invariant -----

  /** The row is still fenced by the throttled claim, or the hold is stored. */
  ghost predicate ThrottleOk(s: State, th: Throttle) {
    && th.claim < |s.claims| && s.claims[th.claim].key == th.key
    && th.at <= s.now && th.after <= |s.posts|
    && (Protected(th.d) ==> Durable(s, th.account, th.at) || HoldsRow(s, th.key, th.claim))
  }

  /** The caller believes a hold is stored: the cooldown row was written, or the audit row was. */
  predicate Believes(pc: Pc) {
    (pc.Recorded? && pc.recorded) || (pc.Auditing? && pc.recorded) || (pc.Audited? && (pc.recorded || pc.audited))
  }

  ghost predicate OwnThrottleOk(s: State, r: Request, pc: Pc, th: Throttle) {
    && DiagnosticOf(pc) == Some(th.d) && r.local.Some? && RecordsHold(th.d)
    && th.account == r.account && th.at <= s.now
    && (Protected(th.d) && Believes(pc) && Releasable(th.d) ==> Durable(s, th.account, th.at))
  }

  predicate SendingOk(s: State, r: Request, checkedAt: nat, th: Throttle) {
    r.local.Some? && r.key == th.key && r.account == th.account && Protected(th.d) ==> checkedAt >= th.at + HOLD_MS
  }

  ghost predicate CallerHold(s: State, c: nat)
    requires c in s.callers
  {
    var r, pc := s.callers[c].request, s.callers[c].pc;
    && (pc.Sending? ==> pc.checkedAt <= s.now)
    && forall i :: 0 <= i < |s.throttles| ==>
         && (ClaimOf(pc) == Some(s.throttles[i].claim) ==> OwnThrottleOk(s, r, pc, s.throttles[i]))
         && (pc.Sending? ==> SendingOk(s, r, pc.checkedAt, s.throttles[i]))
  }

  predicate PostsOk(s: State, th: Throttle) {
    forall i :: th.after <= i < |s.posts| && Protected(th.d) && Covers(th, s.posts[i]) ==> s.posts[i].at >= th.at + HOLD_MS
  }

  predicate AuditsPast(s: State) {
    forall i :: 0 <= i < |s.audits| ==> s.audits[i].at <= s.now
  }

  ghost predicate HoldInv(s: State) {
    && Inv(s) && AuditsPast(s)
    && (forall c :: c in s.callers ==> CallerHold(s, c))
    && forall i :: 0 <= i < |s.throttles| ==> ThrottleOk(s, s.throttles[i]) && PostsOk(s, s.throttles[i])
  }

  /** The check refuses every local create on the account until a stored hold ends, whatever its key. */
  lemma HeldUntilOver(s: State, account: string, at: nat)
    requires AuditsPast(s) && Durable(s, account, at) && s.now < at + HOLD_MS
    ensures Held(s, account, s.now)
  {
    if !(account in s.cooldown && s.cooldown[account] >= at + HOLD_MS) {
      var i :| 0 <= i < |s.audits| && s.audits[i].account == account && s.audits[i].at >= at;
      assert s.audits[i].at <= s.now;
    }
  }

  // ----- One caller's step -----

  ghost predicate OwnedBy(s: State, claim: nat, c: nat) {
    claim < |s.claims| && s.claims[claim].caller == c
  }

  /** Only `c` moves, and a row held before is given up only by its own claimant. */
  ghost predicate Alone(s: State, t: State, c: nat) {
    && Later(s, t) && AuditsPast(t)
    && (forall k :: k != c ==> (k in t.callers <==> k in s.callers) && (k in s.callers ==> t.callers[k] == s.callers[k]))
    && (forall key, n :: HoldsRow(s, key, n) && !HoldsRow(t, key, n) ==> OwnedBy(s, n, c))
  }

  /** What the step itself must establish. */
  ghost predicate OwnPart(s: State, t: State, c: nat) {
    && c in t.callers && CallerHold(t, c)
    && (forall i :: |s.throttles| <= i < |t.throttles| ==>
          var th := t.throttles[i];
          && ThrottleOk(t, th) && OwnedBy(s, th.claim, c) && HoldsRow(s, th.key, th.claim)
          && th.after == |t.posts|)
    && (forall i :: 0 <= i < |s.throttles| && OwnedBy(s, s.throttles[i].claim, c) ==> ThrottleOk(t, s.throttles[i]))
    && (forall i, j :: 0 <= i < |s.throttles| && |s.posts| <= j < |t.posts| && Protected(s.throttles[i].d) && Covers(s.throttles[i], t.posts[j]) ==>
          t.posts[j].at >= s.throttles[i].at + HOLD_MS)
  }

  lemma OtherCallerHolds(s: State, t: State, c: nat, k: nat)
    requires HoldInv(s) && Alone(s, t, c) && OwnPart(s, t, c)
    requires k != c && k in t.callers
    ensures CallerHold(t, k)
  {
    var r, pc := s.callers[k].request, s.callers[k].pc;
    assert CallerHold(s, k) && CallerOk(s, k);
    forall i | 0 <= i < |t.throttles|
      ensures ClaimOf(pc) == Some(t.throttles[i].claim) ==> OwnThrottleOk(t, r, pc, t.throttles[i])
      ensures pc.Sending? ==> SendingOk(t, r, pc.checkedAt, t.throttles[i])
    {
      var th := t.throttles[i];
      if i < |s.throttles| {
        assert th == s.throttles[i];
        if Durable(s, th.account, th.at) { DurableStays(s, t, th.account, th.at); }
      } else {
        assert HoldsRow(s, th.key, th.claim) && OwnedBy(s, th.claim, c);
        if pc.Sending? { assert HoldsRow(s, r.key, pc.claim); }
      }
    }
  }

  lemma ThrottleStays(s: State, t: State, c: nat, i: nat)
    requires HoldInv(s) && Alone(s, t, c) && OwnPart(s, t, c) && i < |s.throttles|
    ensures ThrottleOk(t, s.throttles[i]) && PostsOk(t, s.throttles[i])
  {
    var th := s.throttles[i];
    assert ThrottleOk(s, th) && PostsOk(s, th);
    if !OwnedBy(s, th.claim, c) {
      if Durable(s, th.account, th.at) { DurableStays(s, t, th.account, th.at); }
    }
    forall j | th.after <= j < |t.posts| && Protected(th.d) && Covers(th, t.posts[j]) ensures t.posts[j].at >= th.at + HOLD_MS {
      if j < |s.posts| { assert t.posts[j] == s.posts[j]; }
    }
  }

  lemma StepAloneKeepsHold(s: State, t: State, c: nat)
    requires HoldInv(s) && Inv(t) && Alone(s, t, c) && OwnPart(s, t, c)
    ensures HoldInv(t)
  {
    forall k | k in t.callers ensures CallerHold(t, k) {
      if k != c { OtherCallerHolds(s, t, c, k); }
    }
    forall i | 0 <= i < |t.throttles| ensures ThrottleOk(t, t.throttles[i]) && PostsOk(t, t.throttles[i]) {
      if i < |s.throttles| {
        assert t.throttles[i] == s.throttles[i];
        ThrottleStays(s, t, c, i);
      }
    }
  }

  // ----- Each statement -----

  ghost predicate CalmMove(s: State, t: State, r: Request, p: Pc, q: Pc) {
    && !q.Sending?
    && (|| ClaimOf(q).None?
        || ClaimOf(q) == Some(|s.claims|)
        || (ClaimOf(p) == ClaimOf(q) && DiagnosticOf(p).None? && !p.Sending?)
        || (ClaimOf(p) == ClaimOf(q) && DiagnosticOf(p).Some? && DiagnosticOf(q) == DiagnosticOf(p)
            && (|| !Believes(q) || Believes(p)
                || r.local.None? || !(RecordsHold(DiagnosticOf(p).value) && Protected(DiagnosticOf(p).value) && Releasable(DiagnosticOf(p).value))
                || Durable(t, r.account, s.now))))
  }

  /** A step that adds no post and no throttle, keeps every row, and leaves its caller either without
      a claim, or with its claim and diagnostic and a belief it had or can back. */
  lemma CalmKeepsHold(s: State, t: State, c: nat)
    requires HoldInv(s) && Inv(t) && Later(s, t) && AuditsPast(t) && c in s.callers
    requires t.posts == s.posts && t.throttles == s.throttles
    requires c in t.callers && t.callers == s.callers[c := s.callers[c].(pc := t.callers[c].pc)]
    requires forall key, n :: HoldsRow(s, key, n) ==> HoldsRow(t, key, n)
    requires CalmMove(s, t, s.callers[c].request, s.callers[c].pc, t.callers[c].pc)
    ensures HoldInv(t)
  {
    var r, p, q := s.callers[c].request, s.callers[c].pc, t.callers[c].pc;
    assert CallerHold(s, c) && CallerOk(s, c);
    forall i | 0 <= i < |s.throttles|
      ensures ThrottleOk(t, s.throttles[i])
      ensures ClaimOf(q) == Some(s.throttles[i].claim) ==> OwnThrottleOk(t, r, q, s.throttles[i])
    {
      var th := s.throttles[i];
      assert ThrottleOk(s, th);
      if Durable(s, th.account, th.at) { DurableStays(s, t, th.account, th.at); }
      if ClaimOf(q) == Some(th.claim) { assert OwnThrottleOk(s, r, p, th); DurableSooner(t, r.account, th.at, s.now); }
    }
    StepAloneKeepsHold(s, t, c);
  }

  lemma DurableSooner(s: State, account: string, at: nat, later: nat)
    requires at <= later
    ensures Durable(s, account, later) ==> Durable(s, account, at)
  {
  }

  /** A caller that won the row and passes its check waits out every earlier protected failure. */
  lemma CheckHonoursThrottle(s: State, c: nat, i: nat)
    requires HoldInv(s) && c in s.callers && s.callers[c].pc.Won? && i < |s.throttles|
    ensures var r, th := s.callers[c].request, s.throttles[i];
      && th.claim != s.callers[c].pc.claim
      && ((r.local.Some? && Held(s, r.account, s.now)) || SendingOk(s, r, s.now, th))
  {
    var r, th := s.callers[c].request, s.throttles[i];
    assert CallerHold(s, c) && CallerOk(s, c) && ThrottleOk(s, th);
    if Durable(s, th.account, th.at) {
      if s.now < th.at + HOLD_MS { HeldUntilOver(s, th.account, th.at); }
    }
  }

  lemma CheckIsAlone(s: State, c: nat, broke: bool, d: Diagnostic)
    requires HoldInv(s) && c in s.callers && s.callers[c].pc.Won?
    ensures Alone(s, DoCheck(s, c, s.callers[c].request, s.callers[c].pc.claim, broke, d), c)
  {
  }

  lemma CheckKeepsHold(s: State, c: nat, broke: bool, d: Diagnostic)
    requires HoldInv(s) && c in s.callers && s.callers[c].pc.Won?
    ensures HoldInv(DoCheck(s, c, s.callers[c].request, s.callers[c].pc.claim, broke, d))
  {
    var r, claim := s.callers[c].request, s.callers[c].pc.claim;
    var t := DoCheck(s, c, r, claim, broke, d);
    CheckKeepsInv(s, c, broke, d);
    CheckIsAlone(s, c, broke, d);
    forall i | 0 <= i < |s.throttles|
      ensures s.throttles[i].claim != claim && ThrottleOk(t, s.throttles[i])
      ensures t.callers[c].pc.Sending? ==> SendingOk(t, r, s.now, s.throttles[i])
    {
      var th := s.throttles[i];
      assert ThrottleOk(s, th);
      CheckHonoursThrottle(s, c, i);
      if Durable(s, th.account, th.at) { DurableStays(s, t, th.account, th.at); }
    }
    StepAloneKeepsHold(s, t, c);
  }

  /** One post by a caller that holds its row, ending without its claim, with the created id, or failed:
      throttled if the failure is a local one that a hold answers. */
  ghost predicate Posted(s: State, t: State, c: nat)
    requires c in s.callers && s.callers[c].pc.Sending?
  {
    var r, claim := s.callers[c].request, s.callers[c].pc.claim;
    && c in t.callers && t.callers == s.callers[c := Caller(r, t.callers[c].pc)]
    && t.now == s.now && t.rows == s.rows && t.cooldown == s.cooldown && t.audits == s.audits && t.claims == s.claims
    && t.posts == s.posts + [Post(r.key, r.account, r.local.Some?, s.now)]
    && (|| t.throttles == s.throttles
        || (&& r.local.Some? && t.callers[c].pc.Failing? && RecordsHold(t.callers[c].pc.d)
            && t.throttles == s.throttles + [Throttle(r.key, r.account, claim, s.now, |t.posts|, t.callers[c].pc.d)]))
    && (t.callers[c].pc.Finished? || (ClaimOf(t.callers[c].pc) == Some(claim) && !t.callers[c].pc.Sending? && !Believes(t.callers[c].pc)))
  }

  lemma WritePosts(s: State, c: nat, answer: Answer)
    requires c in s.callers && s.callers[c].pc.Sending?
    ensures var t := DoWrite(s, c, s.callers[c].request, s.callers[c].pc.claim, answer);
      t == s || Posted(s, t, c)
  {
  }

  lemma EarlierThrottlesAllowPost(s: State, t: State, c: nat, i: nat)
    requires HoldInv(s) && c in s.callers && s.callers[c].pc.Sending? && Posted(s, t, c) && i < |s.throttles|
    ensures s.throttles[i].claim != s.callers[c].pc.claim && ThrottleOk(t, s.throttles[i])
    ensures Protected(s.throttles[i].d) && Covers(s.throttles[i], t.posts[|s.posts|]) ==> s.now >= s.throttles[i].at + HOLD_MS
  {
    var th := s.throttles[i];
    assert ThrottleOk(s, th) && CallerHold(s, c);
    if Durable(s, th.account, th.at) { DurableStays(s, t, th.account, th.at); }
  }

  lemma PostKeepsHold(s: State, t: State, c: nat)
    requires HoldInv(s) && Inv(t) && c in s.callers && s.callers[c].pc.Sending? && Posted(s, t, c)
    ensures HoldInv(t)
  {
    assert CallerHold(s, c) && CallerOk(s, c);
    forall i | 0 <= i < |s.throttles|
      ensures s.throttles[i].claim != s.callers[c].pc.claim && ThrottleOk(t, s.throttles[i])
      ensures Protected(s.throttles[i].d) && Covers(s.throttles[i], t.posts[|s.posts|]) ==> s.now >= s.throttles[i].at + HOLD_MS
    {
      EarlierThrottlesAllowPost(s, t, c, i);
    }
    assert Alone(s, t, c);
    PostOwnPart(s, t, c);
    StepAloneKeepsHold(s, t, c);
  }

  lemma PostOwnPart(s: State, t: State, c: nat)
    requires HoldInv(s) && Inv(t) && c in s.callers && s.callers[c].pc.Sending? && Posted(s, t, c)
    requires forall i :: 0 <= i < |s.throttles| ==>
      && s.throttles[i].claim != s.callers[c].pc.claim && ThrottleOk(t, s.throttles[i])
      && (Protected(s.throttles[i].d) && Covers(s.throttles[i], t.posts[|s.posts|]) ==> s.now >= s.throttles[i].at + HOLD_MS)
    ensures OwnPart(s, t, c)
  {
    assert CallerHold(s, c) && CallerOk(s, c);
  }

  lemma WriteKeepsHold(s: State, c: nat, answer: Answer)
    requires HoldInv(s) && c in s.callers && s.callers[c].pc.Sending?
    ensures HoldInv(DoWrite(s, c, s.callers[c].request, s.callers[c].pc.claim, answer))
  {
    var t := DoWrite(s, c, s.callers[c].request, s.callers[c].pc.claim, answer);
    WriteKeepsInv(s, c, answer);
    WritePosts(s, c, answer);
    if t != s { PostKeepsHold(s, t, c); }
  }

  lemma RecordKeepsHold(s: State, c: nat, db: Db)
    requires HoldInv(s) && c in s.callers && s.callers[c].pc.Failing?
    ensures HoldInv(DoRecord(s, c, s.callers[c].request, s.callers[c].pc.claim, s.callers[c].pc.d, db))
  {
    var r, claim, d := s.callers[c].request, s.callers[c].pc.claim, s.callers[c].pc.d;
    RecordKeepsInv(s, c, db);
    CalmKeepsHold(s, DoRecord(s, c, r, claim, d, db), c);
  }

  lemma AuditKeepsHold(s: State, c: nat, db: Db)
    requires HoldInv(s) && c in s.callers && s.callers[c].pc.Auditing?
    ensures var pc := s.callers[c].pc; HoldInv(DoAudit(s, c, s.callers[c].request, pc.claim, pc.d, pc.recorded, db))
  {
    var r, pc := s.callers[c].request, s.callers[c].pc;
    var t := DoAudit(s, c, r, pc.claim, pc.d, pc.recorded, db);
    AuditKeepsInv(s, c, db);
    if r.local.Some? && AuditHolds(pc.d) && db.Ran? {
      assert t.audits[|s.audits|] == Audit(r.account, s.now);
      assert Durable(t, r.account, s.now);
    }
    CalmKeepsHold(s, t, c);
  }

  /** A release gives up only the caller's own row, and only behind a stored hold. */
  lemma ReleaseKeepsThrottle(s: State, t: State, c: nat, i: nat)
    requires HoldInv(s) && c in s.callers && DiagnosticOf(s.callers[c].pc).Some? && i < |s.throttles|
    requires
      var r, p := s.callers[c].request, s.callers[c].pc;
      && t.now == s.now && t.cooldown == s.cooldown && t.audits == s.audits && t.claims == s.claims && t.posts == s.posts
      && (|| t.rows == s.rows
          || (Releasable(DiagnosticOf(p).value) && Believes(p) && t.rows == ReleaseRow(s.rows, r.key, ClaimOf(p).value)))
    ensures ThrottleOk(t, s.throttles[i])
  {
    var th, claim := s.throttles[i], ClaimOf(s.callers[c].pc).value;
    assert ThrottleOk(s, th) && CallerHold(s, c);
    if Durable(s, th.account, th.at) { assert Durable(t, th.account, th.at); }
  }

  /** A caller on the failure path, about to release if it believes a hold is stored. */
  predicate MayRelease(s: State, c: nat, allowed: bool, next: Pc) {
    && c in s.callers && DiagnosticOf(s.callers[c].pc).Some?
    && var p := s.callers[c].pc;
    && (allowed ==> Releasable(DiagnosticOf(p).value) && Believes(p))
    && (next.Finished? || (next.Auditing? && ClaimOf(next) == ClaimOf(p) && DiagnosticOf(next) == DiagnosticOf(p) && (Believes(next) ==> Believes(p))))
  }

  lemma ReleaseIsAlone(s: State, c: nat, allowed: bool, db: Db, next: Pc)
    requires HoldInv(s) && MayRelease(s, c, allowed, next)
    ensures Alone(s, DoRelease(s, c, s.callers[c].request.key, ClaimOf(s.callers[c].pc).value, allowed, db, next), c)
  {
    assert CallerOk(s, c);
  }

  lemma ReleaseKeepsOwn(s: State, t: State, c: nat, next: Pc, i: nat)
    requires HoldInv(s) && MayRelease(s, c, false, next) && i < |s.throttles|
    requires t.now == s.now && t.cooldown == s.cooldown && t.audits == s.audits
    ensures ClaimOf(next) == Some(s.throttles[i].claim) ==> OwnThrottleOk(t, s.callers[c].request, next, s.throttles[i])
  {
    var r, th := s.callers[c].request, s.throttles[i];
    assert CallerHold(s, c);
    if Durable(s, r.account, th.at) { assert Durable(t, r.account, th.at); }
  }

  lemma ReleaseKeepsHold(s: State, c: nat, allowed: bool, db: Db, next: Pc)
    requires HoldInv(s) && MayRelease(s, c, allowed, next)
    ensures HoldInv(DoRelease(s, c, s.callers[c].request.key, ClaimOf(s.callers[c].pc).value, allowed, db, next))
  {
    var r, p := s.callers[c].request, s.callers[c].pc;
    var t := DoRelease(s, c, r.key, ClaimOf(p).value, allowed, db, next);
    ReleaseKeepsInv(s, c, allowed, db, next);
    ReleaseIsAlone(s, c, allowed, db, next);
    forall i | 0 <= i < |s.throttles|
      ensures ThrottleOk(t, s.throttles[i])
      ensures ClaimOf(next) == Some(s.throttles[i].claim) ==> OwnThrottleOk(t, r, next, s.throttles[i])
    {
      ReleaseKeepsThrottle(s, t, c, i);
      ReleaseKeepsOwn(s, t, c, next, i);
    }
    StepAloneKeepsHold(s, t, c);
  }

  lemma TickKeepsHold(s: State, ms: nat)
    requires HoldInv(s)
    ensures HoldInv(Step(s, Tick(ms)))
  {
    var t := Step(s, Tick(ms));
    StepKeepsInv(s, Tick(ms));
    forall i | 0 <= i < |s.throttles| ensures ThrottleOk(t, s.throttles[i]) && PostsOk(t, s.throttles[i]) {
      assert ThrottleOk(s, s.throttles[i]) && PostsOk(s, s.throttles[i]);
    }
    forall c | c in t.callers ensures CallerHold(t, c) { assert CallerHold(s, c); }
  }

  lemma StartKeepsHold(s: State, c: nat, request: Request)
    requires HoldInv(s) && c !in s.callers
    ensures HoldInv(Step(s, Start(c, request)))
  {
    var t := Step(s, Start(c, request));
    StepKeepsInv(s, Start(c, request));
    forall i | 0 <= i < |s.throttles| ensures ThrottleOk(t, s.throttles[i]) { assert ThrottleOk(s, s.throttles[i]); }
    StepAloneKeepsHold(s, t, c);
  }

  lemma InsertKeepsHold(s: State, c: nat)
    requires HoldInv(s) && c in s.callers && s.callers[c].pc.Claiming?
    ensures HoldInv(DoInsert(s, c, s.callers[c].request))
  {
    InsertKeepsInv(s, c);
    CalmKeepsHold(s, DoInsert(s, c, s.callers[c].request), c);
  }

  lemma ResolveKeepsHold(s: State, c: nat)
    requires HoldInv(s) && c in s.callers && s.callers[c].pc.Created?
    ensures HoldInv(DoResolve(s, c, s.callers[c].request.key, s.callers[c].pc.claim, s.callers[c].pc.id))
  {
    var r, pc := s.callers[c].request, s.callers[c].pc;
    ResolveKeepsInv(s, c);
    CalmKeepsHold(s, DoResolve(s, c, r.key, pc.claim, pc.id), c);
  }

  lemma SelectKeepsHold(s: State, c: nat)
    requires HoldInv(s) && c in s.callers && s.callers[c].pc.Conflicted?
    ensures HoldInv(DoSelect(s, c, s.callers[c].request))
  {
    SelectKeepsInv(s, c);
    CalmKeepsHold(s, DoSelect(s, c, s.callers[c].request), c);
  }

  lemma ReplyKeepsHold(s: State, c: nat, reply: OkReply)
    requires HoldInv(s) && c in s.callers && ReplyOk(s, reply)
    ensures HoldInv(DoReply(s, c, reply))
  {
    ReplyKeepsInv(s, c, reply);
    CalmKeepsHold(s, DoReply(s, c, reply), c);
  }

  lemma CrashKeepsHold(s: State, c: nat)
    requires HoldInv(s) && c in s.callers
    ensures HoldInv(Goto(s, c, Finished))
  {
    CrashKeepsInv(s, c);
    CalmKeepsHold(s, Goto(s, c, Finished), c);
  }

  lemma ReleasesKeepHold(s: State, e: Event)
    requires HoldInv(s) && (e.Release? || e.ReleaseLate?)
    ensures HoldInv(Step(s, e))
  {
    if e.c in s.callers {
      var pc := s.callers[e.c].pc;
      if e.Release? && pc.Recorded? {
        ReleaseKeepsHold(s, e.c, pc.recorded && Releasable(pc.d), e.db, Auditing(pc.claim, pc.d, pc.recorded));
      }
      if e.ReleaseLate? && pc.Audited? {
        ReleaseKeepsHold(s, e.c, !pc.recorded && pc.audited && Releasable(pc.d), e.db, Finished);
      }
    }
  }

  lemma RepliesKeepHold(s: State, e: Event)
    requires HoldInv(s) && (e.ReplyDeduped? || e.ReplyCreated?)
    ensures HoldInv(Step(s, e))
  {
    if e.c in s.callers {
      var r, pc := s.callers[e.c].request, s.callers[e.c].pc;
      assert CallerOk(s, e.c);
      if e.ReplyDeduped? && pc.DedupHit? { ReplyKeepsHold(s, e.c, OkReply(r, pc.id, true)); }
      if e.ReplyCreated? && pc.Backfilled? { ReplyKeepsHold(s, e.c, OkReply(r, pc.id, false)); }
    }
  }

  lemma StepKeepsHold(s: State, e: Event)
    requires HoldInv(s)
    ensures HoldInv(Step(s, e))
  {
    match e
    case Tick(ms) => TickKeepsHold(s, ms);
    case Start(c, request) => if c !in s.callers { StartKeepsHold(s, c, request); }
    case CheckCooldown(c, broke, d) => if c in s.callers && s.callers[c].pc.Won? { CheckKeepsHold(s, c, broke, d); }
    case Write(c, answer) => if c in s.callers && s.callers[c].pc.Sending? { WriteKeepsHold(s, c, answer); }
    case RecordCooldown(c, db) => if c in s.callers && s.callers[c].pc.Failing? { RecordKeepsHold(s, c, db); }
    case WriteAudit(c, db) => if c in s.callers && s.callers[c].pc.Auditing? { AuditKeepsHold(s, c, db); }
    case Release(c, db) => ReleasesKeepHold(s, e);
    case ReleaseLate(c, db) => ReleasesKeepHold(s, e);
    case ReplyDeduped(c) => RepliesKeepHold(s, e);
    case ReplyCreated(c) => RepliesKeepHold(s, e);
    case Insert(c) => if c in s.callers && s.callers[c].pc.Claiming? { InsertKeepsHold(s, c); }
    case Select(c) => if c in s.callers && s.callers[c].pc.Conflicted? { SelectKeepsHold(s, c); }
    case Resolve(c) => if c in s.callers && s.callers[c].pc.Created? { ResolveKeepsHold(s, c); }
    case Crash(c) => if c in s.callers { CrashKeepsHold(s, c); }
  }

  lemma RunFromKeepsHold(s: State, events: seq<Event>)
    requires HoldInv(s)
    ensures HoldInv(RunFrom(Step, s, events)) && Later(s, RunFrom(Step, s, events))
  {
    var inv := (x: State) => HoldInv(x) && Later(s, x);
    forall x, e | inv(x) ensures inv(Step(x, e)) {
      StepKeepsHold(x, e);
      StepIsLater(x, e);
    }
    RunFromKeeps(Step, inv, s, events);
  }

  lemma RunKeepsHold(events: seq<Event>)
    ensures HoldInv(Run(events))
  {
    RunFromKeepsHold(INITIAL, events);
  }

  // ----- Main results: the hold -----

  /** After a protected failure of a local create, no later local create of the same key on that account
      is sent before 45 minutes have passed. */
  lemma NoPostDuringHold(events: seq<Event>, i: nat, j: nat)
    requires var s := Run(events);
      && i < |s.throttles| && s.throttles[i].after <= j < |s.posts|
      && Covers(s.throttles[i], s.posts[j]) && Protected(s.throttles[i].d)
    ensures Run(events).posts[j].at >= Run(events).throttles[i].at + HOLD_MS
  {
    RunKeepsHold(events);
    assert PostsOk(Run(events), Run(events).throttles[i]);
  }

  /** At every moment the throttled claim still fences its key, or the hold is stored. */
  lemma ReleasedOnlyBehindHold(events: seq<Event>, i: nat)
    requires i < |Run(events).throttles| && Protected(Run(events).throttles[i].d)
    ensures var s := Run(events); var th := s.throttles[i];
      HoldsRow(s, th.key, th.claim) || Durable(s, th.account, th.at)
  {
    RunKeepsHold(events);
    assert ThrottleOk(Run(events), Run(events).throttles[i]);
  }

  /** Once a hold is stored it stays stored through every continuation, and every local create on the
      account, under any key, fails its check until the hold ends. */
  lemma StoredHoldStopsTheAccount(events: seq<Event>, more: seq<Event>, account: string, at: nat)
    requires Durable(Run(events), account, at)
    ensures var t := Run(events + more);
      Durable(t, account, at) && (t.now < at + HOLD_MS ==> Held(t, account, t.now))
  {
    RunFromConcat(Step, INITIAL, events, more);
    RunKeepsHold(events);
    RunFromKeepsHold(Run(events), more);
    DurableStays(Run(events), Run(events + more), account, at);
    if Run(events + more).now < at + HOLD_MS { HeldUntilOver(Run(events + more), account, at); }
  }

  // ----- Where the fallback record is not a hold -----

  /** The cooldown row counts provider_rate_limited in every phase, the audit fallback only before dispatch. */
  lemma UnprotectedAre(d: Diagnostic)
    requires RecordsHold(d)
    ensures Protected(d) <==>
      !(d.rateLimited && d.phase.ProviderResponse? && d.outcome.Refused? && !ObservedThrottle(d))
  {
  }

  const GAP_REQUEST := Request(Key("w", "s", "t"), "campaign", "1", Some(Binding("a", "h")))

  /** One caller fails with `d`, its cooldown write is lost, its audit row is written and its claim
      released; a second caller of the same operation then creates. */
  function GapRun(d: Diagnostic): seq<Event> {
    [Start(0, GAP_REQUEST), Insert(0), CheckCooldown(0, false, d), Write(0, Threw(d))]
    + [RecordCooldown(0, NotRun), Release(0, Ran), WriteAudit(0, Ran), ReleaseLate(0, Ran)]
    + [Start(1, GAP_REQUEST), Insert(1), CheckCooldown(1, false, d), Write(1, Threw(d))]
  }

  /** A caller sends its create from a state with no hold and no row for its key. */
  lemma GapSends(s: State, c: nat, d: Diagnostic) returns (t: State)
    requires RecordsHold(d) && c !in s.callers && GAP_REQUEST.key !in s.rows && s.cooldown == map[] && s.audits == []
    ensures t == Four(Step, s, Start(c, GAP_REQUEST), Insert(c), CheckCooldown(c, false, d), Write(c, Threw(d)))
    ensures t.now == s.now && t.cooldown == map[] && t.audits == []
    ensures t.rows == s.rows[GAP_REQUEST.key := Row(|s.claims|, "campaign", GAP_REQUEST.local, None)]
    ensures t.callers == s.callers[c := Caller(GAP_REQUEST, Failing(|s.claims|, d))]
    ensures t.posts == s.posts + [Post(GAP_REQUEST.key, "1", true, s.now)]
    ensures t.throttles == s.throttles + [Throttle(GAP_REQUEST.key, "1", |s.claims|, s.now, |t.posts|, d)]
  {
    var s1 := Step(s, Start(c, GAP_REQUEST));
    var s2 := Step(s1, Insert(c));
    var s3 := Step(s2, CheckCooldown(c, false, d));
    assert s3.callers[c] == Caller(GAP_REQUEST, Sending(|s.claims|, s.now));
    t := Step(s3, Write(c, Threw(d)));
  }

  /** Its failure releases the row and stores no hold. */
  lemma GapReleases(s: State, claim: nat, d: Diagnostic) returns (t: State)
    requires RecordsHold(d) && !Protected(d) && 0 in s.callers && s.callers[0] == Caller(GAP_REQUEST, Failing(claim, d))
    requires GAP_REQUEST.key in s.rows && s.rows[GAP_REQUEST.key] == Row(claim, "campaign", GAP_REQUEST.local, None)
    ensures t == Four(Step, s, RecordCooldown(0, NotRun), Release(0, Ran), WriteAudit(0, Ran), ReleaseLate(0, Ran))
    ensures t.now == s.now && t.rows == s.rows - {GAP_REQUEST.key} && t.cooldown == s.cooldown && t.audits == s.audits
    ensures t.posts == s.posts && t.throttles == s.throttles && t.callers == s.callers[0 := Caller(GAP_REQUEST, Finished)]
  {
    var s1 := Step(s, RecordCooldown(0, NotRun));
    assert s1 == Goto(s, 0, Recorded(claim, d, false));
    var s2 := Step(s1, Release(0, Ran));
    assert s2 == Goto(s1, 0, Auditing(claim, d, false));
    var s3 := Step(s2, WriteAudit(0, Ran));
    assert s3 == Goto(s2, 0, Audited(claim, d, false, true));
    t := Step(s3, ReleaseLate(0, Ran));
  }

  /** For every other hold-worthy failure, a second create goes out at the same instant. */
  lemma HoldGap(d: Diagnostic)
    requires RecordsHold(d) && !Protected(d)
    ensures var s := Run(GapRun(d));
      && |s.posts| == 2 && |s.throttles| == 2 && s.throttles[0] == Throttle(GAP_REQUEST.key, "1", 0, 0, 1, d)
      && Covers(s.throttles[0], s.posts[1]) && s.posts[1].at == s.throttles[0].at
  {
    var g := GapRun(d);
    RunFour(Step, INITIAL, [], g[0], g[1], g[2], g[3]);
    RunFour(Step, INITIAL, g[..4], g[4], g[5], g[6], g[7]);
    RunFour(Step, INITIAL, g[..8], g[8], g[9], g[10], g[11]);
    assert g[..4] == [] + [g[0], g[1], g[2], g[3]];
    assert g[..8] == g[..4] + [g[4], g[5], g[6], g[7]];
    assert g == g[..8] + [g[8], g[9], g[10], g[11]];
    GapRunEnds(d);
  }

  lemma GapRunEnds(d: Diagnostic)
    requires RecordsHold(d) && !Protected(d)
    ensures
      var s4 := Four(Step, INITIAL, Start(0, GAP_REQUEST), Insert(0), CheckCooldown(0, false, d), Write(0, Threw(d)));
      var s8 := Four(Step, s4, RecordCooldown(0, NotRun), Release(0, Ran), WriteAudit(0, Ran), ReleaseLate(0, Ran));
      var s := Four(Step, s8, Start(1, GAP_REQUEST), Insert(1), CheckCooldown(1, false, d), Write(1, Threw(d)));
      && |s.posts| == 2 && |s.throttles| == 2 && s.throttles[0] == Throttle(GAP_REQUEST.key, "1", 0, 0, 1, d)
      && Covers(s.throttles[0], s.posts[1]) && s.posts[1].at == s.throttles[0].at
  {
    var s4 := GapSends(INITIAL, 0, d);
    var s8 := GapReleases(s4, 0, d);
    var s12 := GapSends(s8, 1, d);
  }

  ghost predicate HoldKept(d: Diagnostic) {
    forall events: seq<Event>, i: nat, j: nat ::
      var s := Run(events);
      i < |s.throttles| && s.throttles[i].d == d && s.throttles[i].after <= j < |s.posts| && Covers(s.throttles[i], s.posts[j]) ==>
        s.posts[j].at >= s.throttles[i].at + HOLD_MS
  }

  /** A hold-worthy failure is honoured in every run exactly when it is protected. */
  lemma HoldKeptIffProtected(d: Diagnostic)
    requires RecordsHold(d)
    ensures HoldKept(d) <==> Protected(d)
  {
    if Protected(d) {
      forall events: seq<Event>, i: nat, j: nat |
        var s := Run(events);
        i < |s.throttles| && s.throttles[i].d == d && s.throttles[i].after <= j < |s.posts| && Covers(s.throttles[i], s.posts[j])
        ensures Run(events).posts[j].at >= Run(events).throttles[i].at + HOLD_MS
      {
        NoPostDuringHold(events, i, j);
      }
    } else {
      HoldGap(d);
    }
  }
}
