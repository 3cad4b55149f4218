/** The tables in place and the statements that change them, in the order one caller runs them. Each
    statement is a step of MetaCreate, so calls of several callers in any order are its runs. */
module MetaCreateFlow {
  import opened Options
  import opened Runs
  import opened MetaCreate
  import opened MetaCooldown

  /** What the environment answers to one call. `logged`: the audit of a success was written. */
  datatype Script = Script(
    broke: bool, checkError: Diagnostic, answer: Answer, cooldown: Db, release: Db, audit: Db, late: Db, backfill: Db, logged: bool)

  datatype DedupClaim = WonClaim(claim: nat) | Existing(id: string) | Pending | TokenConflict

  datatype Reply = Ok(id: string, deduped: bool) | OutcomeUncertain | ClientTokenConflict | Failed(d: Diagnostic) | Errored | Died

  predicate Honest(answer: Answer) {
    answer.LostId? ==> !Releasable(answer.d)
  }

  /** A blank id reads as none. */
  predicate NoId(row: Row) {
    row.entityId.None? || BlankId(row.entityId.value)
  }

  /** The check stops a create whose lookup broke, or whose account is held. */
  predicate Stopped(s: State, r: Request, script: Script) {
    script.broke || (r.local.Some? && Held(s, r.account, s.now))
  }

  predicate At(s: State, c: nat, r: Request, pc: Pc) {
    c in s.callers && s.callers[c] == Caller(r, pc)
  }

  class Tables {
    var rows: map<Key, Row>
    var cooldown: map<string, nat>
    var audits: seq<Audit>
    var now: nat
    /** The run so far, with the history the tables do not keep. */
    ghost var state: State

    ghost predicate Valid()
      reads this
    {
      rows == state.rows && cooldown == state.cooldown && audits == state.audits && now == state.now && HoldInv(state)
    }

    constructor ()
      ensures Valid() && state == INITIAL
    {
      rows, cooldown, audits, now := map[], map[], [], 0;
      state := INITIAL;
      new;
      RunKeepsHold([]);
    }

    ghost method Take(e: Event)
      requires HoldInv(state)
      modifies this`state
      ensures state == Step(old(state), e) && HoldInv(state)
    {
      StepKeepsHold(state, e);
      state := Step(state, e);
    }

    /** `insert ... on conflict do nothing returning`, then the select of the row in the way. */
    method ClaimDedup(c: nat, r: Request, newId: nat) returns (claim: DedupClaim, ghost trace: seq<Event>)
      requires Valid() && At(state, c, r, Claiming) && newId == |state.claims|
      modifies this
      ensures Valid() && state == RunFrom(Step, old(state), trace)
      ensures state.posts == old(state.posts) && state.replies == old(state.replies) && state.creates == old(state.creates)
      ensures cooldown == old(cooldown) && audits == old(audits) && now == old(now)
      ensures claim.WonClaim? <==> r.key !in old(rows)
      ensures match claim
        case WonClaim(n) => n == newId && rows == old(rows)[r.key := Row(n, r.entity, r.local, None)] && At(state, c, r, Won(n))
        case Existing(id) =>
          && rows == old(rows) && At(state, c, r, DedupHit(id))
          && SameOperation(rows[r.key], r) && rows[r.key].entityId == Some(id) && !BlankId(id)
        case Pending => rows == old(rows) && SameOperation(rows[r.key], r) && NoId(rows[r.key]) && At(state, c, r, Finished)
        case TokenConflict => rows == old(rows) && !SameOperation(rows[r.key], r) && At(state, c, r, Finished)
    {
      ghost var before := state;
      Take(Insert(c));
      RunOne(Step, before, Insert(c));
      trace := [Insert(c)];
      if r.key !in rows {
        rows := rows[r.key := Row(newId, r.entity, r.local, None)];
        return WonClaim(newId), trace;
      }
      Take(Select(c));
      RunFromSnoc(Step, before, trace, Select(c));
      trace := trace + [Select(c)];
      var row := rows[r.key];
      if r.local.Some? && (row.entity != r.entity || row.binding != r.local) {
        return TokenConflict, trace;
      }
      if row.entityId.Some? && !BlankId(row.entityId.value) {
        return Existing(row.entityId.value), trace;
      }
      return Pending, trace;
    }

    /** `update ... set entity_id where id`. */
    method ResolveDedup(c: nat, r: Request, claim: nat, id: string)
      requires Valid() && At(state, c, r, Created(claim, id))
      modifies this
      ensures Valid() && state == Step(old(state), Resolve(c)) && At(state, c, r, Backfilled(claim, id))
      ensures r.key in old(rows) && rows == old(rows)[r.key := Row(claim, r.entity, r.local, Some(id))]
    {
      assert CallerOk(state, c);
      Take(Resolve(c));
      if r.key in rows && rows[r.key].claim == claim {
        rows := rows[r.key := rows[r.key].(entityId := Some(id))];
      }
    }

    /** `delete ... where id and entity_id is null`. */
    method DeleteUnresolved(key: Key, claim: nat)
      modifies this`rows
      ensures rows == ReleaseRow(old(rows), key, claim)
      ensures forall k :: k in old(rows) && (k != key || old(rows)[k].claim != claim || old(rows)[k].entityId.Some?) ==>
        k in rows && rows[k] == old(rows)[k]
    {
      if key in rows && rows[key].claim == claim && rows[key].entityId.None? {
        rows := map k | k in rows && k != key :: rows[k];
      }
    }

    method AssertCooldown(account: string) returns (held: bool)
      requires Valid()
      ensures held == Held(state, account, now)
      ensures held <==>
        || (account in cooldown && cooldown[account] > now)
        || exists i :: 0 <= i < |audits| && audits[i].account == account && audits[i].at <= now < audits[i].at + 2_700_000
    {
      held := account in cooldown && cooldown[account] > now;
      var i := 0;
      while i < |audits| && !held
        invariant 0 <= i <= |audits|
        invariant held ==> Held(state, account, now)
        invariant !held ==> !(account in cooldown && cooldown[account] > now)
        invariant !held ==>
          forall j :: 0 <= j < i ==> !(audits[j].account == account && audits[j].at <= now < audits[j].at + HOLD_MS)
      {
        held := audits[i].account == account && audits[i].at <= now < audits[i].at + HOLD_MS;
        i := i + 1;
      }
    }

    /** Returns whether the hold, if one is due, is known to be stored. */
    method RecordCooldown(c: nat, r: Request, claim: nat, d: Diagnostic, db: Db) returns (recorded: bool)
      requires Valid() && At(state, c, r, Failing(claim, d))
      modifies this
      ensures Valid() && state == Step(old(state), MetaCreate.RecordCooldown(c, db))
      ensures At(state, c, r, Recorded(claim, d, recorded)) && rows == old(rows)
      ensures recorded <==> r.local.None? || !RecordsHold(d) || db == Ran
      ensures
        var until := if r.account in old(cooldown) && old(cooldown)[r.account] > now + 2_700_000 then old(cooldown)[r.account] else now + 2_700_000;
        cooldown == if r.local.Some? && RecordsHold(d) && db != NotRun then old(cooldown)[r.account := until] else old(cooldown)
    {
      Take(MetaCreate.RecordCooldown(c, db));
      if r.local.None? || !RecordsHold(d) {
        return true;
      }
      if db != NotRun && !(r.account in cooldown && cooldown[r.account] >= now + HOLD_MS) {
        cooldown := cooldown[r.account := now + HOLD_MS];
      }
      return db == Ran;
    }

    method AuditFailed(c: nat, r: Request, claim: nat, d: Diagnostic, recorded: bool, db: Db) returns (audited: bool)
      requires Valid() && At(state, c, r, Auditing(claim, d, recorded))
      modifies this
      ensures Valid() && state == Step(old(state), WriteAudit(c, db)) && At(state, c, r, Audited(claim, d, recorded, audited))
      ensures rows == old(rows) && now == old(now) && (audited <==> db == Ran)
      ensures audits == if r.local.Some? && AuditHolds(d) && db != NotRun then old(audits) + [Audit(r.account, now)] else old(audits)
    {
      Take(WriteAudit(c, db));
      if r.local.Some? && AuditHolds(d) && db != NotRun {
        audits := audits + [Audit(r.account, now)];
        assert audits[|audits| - 1] == Audit(r.account, now);
      }
      return db == Ran;
    }

    method ReleaseDedup(c: nat, r: Request, claim: nat, d: Diagnostic, recorded: bool, db: Db)
      requires Valid() && At(state, c, r, Recorded(claim, d, recorded))
      modifies this
      ensures Valid() && state == Step(old(state), Release(c, db)) && At(state, c, r, Auditing(claim, d, recorded))
      ensures rows == if recorded && Releasable(d) && db != NotRun then ReleaseRow(old(rows), r.key, claim) else old(rows)
    {
      Take(Release(c, db));
      if recorded && Releasable(d) && db != NotRun {
        DeleteUnresolved(r.key, claim);
      }
    }

    method ReleaseDedupLate(c: nat, r: Request, claim: nat, d: Diagnostic, recorded: bool, audited: bool, db: Db)
      requires Valid() && At(state, c, r, Audited(claim, d, recorded, audited))
      modifies this
      ensures Valid() && state == Step(old(state), ReleaseLate(c, db)) && At(state, c, r, Finished)
      ensures rows ==
        if !recorded && audited && Releasable(d) && db != NotRun then ReleaseRow(old(rows), r.key, claim) else old(rows)
    {
      Take(ReleaseLate(c, db));
      if !recorded && audited && Releasable(d) && db != NotRun {
        DeleteUnresolved(r.key, claim);
      }
    }

    /** The failure path: record the hold, release, audit, and release late when only the audit stands. */
    method Recover(c: nat, r: Request, claim: nat, d: Diagnostic, script: Script)
      requires Valid() && At(state, c, r, Failing(claim, d))
      modifies this
      ensures Valid() && state == RunFrom(Step, old(state), RecoveryOf(c, script)) && At(state, c, r, Finished)
      ensures rows == if Releases(r, d, script) then ReleaseRow(old(rows), r.key, claim) else old(rows)
    {
      ghost var before := state;
      var cooldownRecorded := RecordCooldown(c, r, claim, d, script.cooldown);
      ReleaseDedup(c, r, claim, d, cooldownRecorded, script.release);
      var auditRecorded := AuditFailed(c, r, claim, d, cooldownRecorded, script.audit);
      ReleaseDedupLate(c, r, claim, d, cooldownRecorded, auditRecorded, script.late);
      RunFourFrom(Step, before, MetaCreate.RecordCooldown(c, script.cooldown), Release(c, script.release),
        WriteAudit(c, script.audit), ReleaseLate(c, script.late));
    }

    /** The provider's answer, or the lack of one. */
    ghost method Post(c: nat, r: Request, claim: nat, checkedAt: nat, answer: Answer)
      requires Valid() && At(state, c, r, Sending(claim, checkedAt)) && Honest(answer)
      modifies this`state
      ensures Valid() && state == Step(old(state), Write(c, answer))
      ensures match answer
        case Id(id) => At(state, c, r, Created(claim, id))
        case NoAnswer(_) => At(state, c, r, Finished)
        case LostId(_, d) => At(state, c, r, Failing(claim, d)) && !Releasable(d)
        case Threw(d) => At(state, c, r, Failing(claim, d))
    {
      Take(Write(c, answer));
    }

    /** Backfill the id into the row and log the success, then answer; an error of either statement is
        thrown, with the row as the backfill left it. */
    method Backfill(c: nat, r: Request, claim: nat, id: string, script: Script) returns (reply: Reply)
      requires Valid() && At(state, c, r, Created(claim, id))
      modifies this
      ensures Valid() && state == RunFrom(Step, old(state), BackfillOf(c, script)) && At(state, c, r, Finished)
      ensures reply == CreatedReply(id, script)
      ensures r.key in old(rows) && rows == old(rows)[r.key := Row(claim, r.entity, r.local, IdLeft(id, script))]
    {
      ghost var before := state;
      if script.backfill == NotRun {
        RunOne(Step, before, Crash(c));
        PendingIs(state, c);
        Stop(c, r);
        return Errored;
      }
      ResolveDedup(c, r, claim, id);
      RunTwo(Step, before, Resolve(c), if CreatedReply(id, script).Ok? then ReplyCreated(c) else Crash(c));
      if script.backfill == AnswerLost || !script.logged {
        Stop(c, r);
        return Errored;
      }
      AnswerCreated(c, r, claim, id);
      return Ok(id, false);
    }

    /** The caller throws and runs no further statement. */
    ghost method Stop(c: nat, r: Request)
      requires Valid() && c in state.callers && state.callers[c].request == r
      modifies this`state
      ensures Valid() && state == Step(old(state), Crash(c)) && At(state, c, r, Finished)
    {
      Take(Crash(c));
    }

    ghost method AnswerCreated(c: nat, r: Request, claim: nat, id: string)
      requires Valid() && At(state, c, r, Backfilled(claim, id))
      modifies this`state
      ensures Valid() && state == Step(old(state), ReplyCreated(c)) && At(state, c, r, Finished)
    {
      Take(ReplyCreated(c));
    }

    ghost method Begin(c: nat, r: Request)
      requires Valid() && c !in state.callers
      modifies this`state
      ensures Valid() && state == RunFrom(Step, old(state), [Start(c, r)]) && At(state, c, r, Claiming)
      ensures state.claims == old(state).claims
    {
      RunOne(Step, state, Start(c, r));
      Take(Start(c, r));
    }

    ghost method AnswerDeduped(c: nat, r: Request, id: string)
      requires Valid() && At(state, c, r, DedupHit(id))
      modifies this`state
      ensures Valid() && state == Step(old(state), ReplyDeduped(c)) && At(state, c, r, Finished)
    {
      Take(ReplyDeduped(c));
    }

    /** The provider write, then backfill and reply, or recovery. */
    method Send(c: nat, r: Request, claim: nat, ghost checkedAt: nat, script: Script) returns (reply: Reply)
      requires Valid() && At(state, c, r, Sending(claim, checkedAt)) && Honest(script.answer)
      modifies this
      ensures Valid() && state == RunFrom(Step, old(state), SendingOf(c, script)) && At(state, c, r, Finished)
      ensures match script.answer
        case Id(id) =>
          && reply == CreatedReply(id, script) && r.key in old(rows)
          && rows == old(rows)[r.key := Row(claim, r.entity, r.local, IdLeft(id, script))]
        case NoAnswer(_) => reply == Died && rows == old(rows)
        case LostId(_, d) => reply == Failed(d) && rows == old(rows)
        case Threw(d) =>
          && reply == Failed(d)
          && rows == if Releases(r, d, script) then ReleaseRow(old(rows), r.key, claim) else old(rows)
    {
      ghost var before := state;
      ghost var write := [Write(c, script.answer)];
      Post(c, r, claim, checkedAt, script.answer);
      RunOne(Step, before, Write(c, script.answer));
      match script.answer {
        case Id(id) =>
          RunFromConcat(Step, before, write, BackfillOf(c, script));
          reply := Backfill(c, r, claim, id, script);
        case NoAnswer(_) =>
          return Died;
        case LostId(_, d) =>
          RunFromConcat(Step, before, write, RecoveryOf(c, script));
          Recover(c, r, claim, d, script);
          return Failed(d);
        case Threw(d) =>
          RunFromConcat(Step, before, write, RecoveryOf(c, script));
          Recover(c, r, claim, d, script);
          return Failed(d);
      }
    }

    /** The winner's part: the cooldown check, then the write. */
    method CheckAndSend(c: nat, r: Request, claim: nat, script: Script) returns (reply: Reply, ghost trace: seq<Event>)
      requires Valid() && At(state, c, r, Won(claim)) && Honest(script.answer)
      modifies this
      ensures Valid() && state == RunFrom(Step, old(state), trace) && At(state, c, r, Finished)
      ensures
        var stopped := Stopped(old(state), r, script);
        && trace == [CheckCooldown(c, script.broke, script.checkError)] + (if stopped then RecoveryOf(c, script) else SendingOf(c, script))
        && reply == (if stopped then Failed(script.checkError) else ReplyTo(script))
      ensures match reply
        case Ok(id, _) => r.key in old(rows) && rows == old(rows)[r.key := Row(claim, r.entity, r.local, Some(id))]
        case Errored =>
          && r.key in old(rows) && script.answer.Id?
          && rows == old(rows)[r.key := Row(claim, r.entity, r.local, IdLeft(script.answer.id, script))]
        case Failed(d) => rows == if Releases(r, d, script) then ReleaseRow(old(rows), r.key, claim) else old(rows)
        case _ => rows == old(rows)
    {
      ghost var before := state;
      var stopped := script.broke;
      if r.local.Some? && !stopped {
        stopped := AssertCooldown(r.account);
      }
      Take(CheckCooldown(c, script.broke, script.checkError));
      RunOne(Step, before, CheckCooldown(c, script.broke, script.checkError));
      trace := [CheckCooldown(c, script.broke, script.checkError)];
      if stopped {
        RunFromConcat(Step, before, trace, RecoveryOf(c, script));
        Recover(c, r, claim, script.checkError, script);
        reply, trace := Failed(script.checkError), trace + RecoveryOf(c, script);
      } else {
        RunFromConcat(Step, before, trace, SendingOf(c, script));
        reply := Send(c, r, claim, now, script);
        trace := trace + SendingOf(c, script);
      }
    }

    /** One create, claim before write. */
    method RunMetaCreate(c: nat, r: Request, newId: nat, script: Script) returns (reply: Reply, ghost trace: seq<Event>)
      requires Valid() && c !in state.callers && newId == |state.claims| && Honest(script.answer)
      modifies this
      ensures Valid() && state == RunFrom(Step, old(state), trace) && At(state, c, r, Finished)
      ensures Replied(reply, r, newId, script, old(rows), rows)
      ensures r.key !in old(rows) ==> reply == WinnersReply(old(state), r, script)
    {
      ghost var before, rest := state, [];
      var claim;
      claim, trace := Enter(c, r, newId, script);
      if claim.WonClaim? {
        reply, rest := Win(c, r, newId, script, old(rows));
      } else {
        reply, rest := Lose(c, r, claim, script.logged);
      }
      RunFromConcat(Step, before, trace, rest);
      trace := trace + rest;
    }

    /** The call arrives and claims its key. */
    method Enter(c: nat, r: Request, newId: nat, ghost script: Script) returns (claim: DedupClaim, ghost trace: seq<Event>)
      requires Valid() && c !in state.callers && newId == |state.claims|
      modifies this
      ensures Valid() && state == RunFrom(Step, old(state), trace) && Stopped(state, r, script) == Stopped(old(state), r, script)
      ensures claim.WonClaim? <==> r.key !in old(rows)
      ensures match claim
        case WonClaim(n) => n == newId && At(state, c, r, Won(n)) && rows == old(rows)[r.key := Row(n, r.entity, r.local, None)]
        case Existing(id) =>
          && At(state, c, r, DedupHit(id)) && r.key in old(rows) && rows == old(rows)
          && SameOperation(rows[r.key], r) && rows[r.key].entityId == Some(id) && !BlankId(id)
        case Pending => At(state, c, r, Finished) && Replied(OutcomeUncertain, r, newId, script, old(rows), rows)
        case TokenConflict => At(state, c, r, Finished) && Replied(ClientTokenConflict, r, newId, script, old(rows), rows)
    {
      ghost var before := state;
      ghost var claiming;
      Begin(c, r);
      claim, claiming := ClaimDedup(c, r, newId);
      trace := [Start(c, r)] + claiming;
      RunFromConcat(Step, before, [Start(c, r)], claiming);
    }

    method Win(c: nat, r: Request, claim: nat, script: Script, ghost was: map<Key, Row>) returns (reply: Reply, ghost trace: seq<Event>)
      requires Valid() && At(state, c, r, Won(claim)) && Honest(script.answer)
      requires r.key !in was && rows == was[r.key := Row(claim, r.entity, r.local, None)]
      modifies this
      ensures Valid() && state == RunFrom(Step, old(state), trace) && At(state, c, r, Finished)
      ensures Replied(reply, r, claim, script, was, rows) && reply == WinnersReply(old(state), r, script)
    {
      reply, trace := CheckAndSend(c, r, claim, script);
      ClaimUndone(was, r, claim);
    }

    /** The answer to a caller whose key another claim holds. */
    method Lose(c: nat, r: Request, claim: DedupClaim, logged: bool) returns (reply: Reply, ghost trace: seq<Event>)
      requires Valid() && !claim.WonClaim?
      requires match claim case Existing(id) => At(state, c, r, DedupHit(id)) case _ => At(state, c, r, Finished)
      modifies this`state
      ensures Valid() && state == RunFrom(Step, old(state), trace) && At(state, c, r, Finished)
      ensures reply ==
        match claim
        case Existing(id) => if logged then Ok(id, true) else Errored
        case Pending => OutcomeUncertain
        case _ => ClientTokenConflict
    {
      match claim {
        case Existing(id) =>
          if !logged {
            RunOne(Step, state, Crash(c));
            Stop(c, r);
            return Errored, [Crash(c)];
          }
          RunOne(Step, state, ReplyDeduped(c));
          AnswerDeduped(c, r, id);
          return Ok(id, true), [ReplyDeduped(c)];
        case Pending =>
          return OutcomeUncertain, [];
        case TokenConflict =>
          return ClientTokenConflict, [];
        case WonClaim(_) =>
          assert false;
      }
    }
  }

  /** What each answer says of the key's row before and after. */
  predicate Replied(reply: Reply, r: Request, claim: nat, script: Script, was: map<Key, Row>, rows: map<Key, Row>) {
    var pending := was[r.key := Row(claim, r.entity, r.local, None)];
    match reply
    case Ok(id, true) =>
      script.logged && r.key in was && rows == was && SameOperation(was[r.key], r) && was[r.key].entityId == Some(id) && !BlankId(id)
    case OutcomeUncertain => r.key in was && rows == was && SameOperation(was[r.key], r) && NoId(was[r.key])
    case ClientTokenConflict => r.key in was && rows == was && !SameOperation(was[r.key], r)
    case Ok(id, false) => r.key !in was && rows == was[r.key := Row(claim, r.entity, r.local, Some(id))]
    case Errored =>
      if r.key in was then !script.logged && rows == was && SameOperation(was[r.key], r) && !NoId(was[r.key])
      else script.answer.Id? && rows == was[r.key := Row(claim, r.entity, r.local, IdLeft(script.answer.id, script))]
    case Failed(d) => r.key !in was && rows == if Releases(r, d, script) then was else pending
    case Died => r.key !in was && rows == pending
  }

  /** Until its backfill a created row is its claimant's, pending. */
  lemma PendingIs(s: State, c: nat)
    requires Inv(s) && c in s.callers && s.callers[c].pc.Created?
    ensures var r, claim := s.callers[c].request, s.callers[c].pc.claim;
      r.key in s.rows && s.rows == s.rows[r.key := Row(claim, r.entity, r.local, None)]
  {
    assert CallerOk(s, c);
  }

  /** A release undoes the claim. */
  lemma ClaimUndone(rows: map<Key, Row>, r: Request, claim: nat)
    requires r.key !in rows
    ensures ReleaseRow(rows[r.key := Row(claim, r.entity, r.local, None)], r.key, claim) == rows
    ensures forall id ::
      rows[r.key := Row(claim, r.entity, r.local, None)][r.key := Row(claim, r.entity, r.local, id)]
      == rows[r.key := Row(claim, r.entity, r.local, id)]
  {
  }

  /** The answer to the caller that wins the claim. */
  function WinnersReply(s: State, r: Request, script: Script): Reply {
    if Stopped(s, r, script) then Failed(script.checkError) else ReplyTo(script)
  }

  /** The winner is stopped by a broken lookup or a running hold; otherwise it gets the provider's answer,
      and a created id once its row and its log are written. */
  lemma WinnersReplyIs(s: State, r: Request, script: Script)
    ensures var reply := WinnersReply(s, r, script);
      var holding :=
        || (r.account in s.cooldown && s.cooldown[r.account] > s.now)
        || exists i :: 0 <= i < |s.audits| && s.audits[i].account == r.account && s.audits[i].at <= s.now < s.audits[i].at + 2_700_000;
      if script.broke || (r.local.Some? && holding) then reply == Failed(script.checkError)
      else
        match script.answer
        case Id(id) => reply == if script.backfill == Ran && script.logged then Ok(id, false) else Errored
        case NoAnswer(_) => reply == Died
        case LostId(_, d) => reply == Failed(d)
        case Threw(d) => reply == Failed(d)
  {
  }

  /** Only white space reads as no id. */
  lemma BlankIdIs(id: string)
    ensures BlankId("") && BlankId(" ") && BlankId("\t\r\n ")
    ensures (exists i :: 0 <= i < |id| && '!' <= id[i] <= '~') ==> !BlankId(id)
  {
  }

  /** A caller that finds its key taken: another actor, entity or intent is a conflict, a row of its own
      operation without an id is uncertain, one with an id is returned. */
  lemma LosersReplyIs(reply: Reply, r: Request, claim: nat, script: Script, was: map<Key, Row>, rows: map<Key, Row>)
    requires Replied(reply, r, claim, script, was, rows) && r.key in was
    ensures rows == was
    ensures var row := was[r.key];
      if r.local.Some? && (row.entity != r.entity || row.binding != r.local) then reply == ClientTokenConflict
      else if row.entityId.None? || BlankId(row.entityId.value) then reply == OutcomeUncertain
      else reply == if script.logged then Ok(row.entityId.value, true) else Errored
  {
  }

  /** When every statement runs, the row is given up exactly after a refusal or a throttle that proves
      nothing was created. */
  lemma ReleasesIs(r: Request, d: Diagnostic, script: Script)
    requires script.cooldown == Ran && script.release == Ran && script.audit == Ran && script.late == Ran
    ensures Releases(r, d, script) <==>
      || d.phase == NotDispatched
      || (d.phase == ProviderResponse && (d.outcome == Refused || d.outcome == Throttled))
  {
  }

  /** When the cooldown write of a throttled local create fails, the row waits for the audit. */
  lemma ReleasesBehindAudit(r: Request, d: Diagnostic, script: Script)
    requires r.local.Some? && script.cooldown != Ran && (d.outcome == Throttled || d.rateLimited)
    requires d.phase == ProviderResponse
    ensures Releases(r, d, script) <==>
      (d.outcome == Refused || d.outcome == Throttled) && script.audit == Ran && script.late != NotRun
  {
  }

  function ReplyTo(script: Script): Reply {
    match script.answer
    case Id(id) => CreatedReply(id, script)
    case NoAnswer(_) => Died
    case LostId(_, d) => Failed(d)
    case Threw(d) => Failed(d)
  }

  /** A created id is returned once its backfill and its success log have answered. */
  function CreatedReply(id: string, script: Script): Reply {
    if script.backfill == Ran && script.logged then Ok(id, false) else Errored
  }

  /** What the row holds after the backfill. */
  function IdLeft(id: string, script: Script): Option<string> {
    if script.backfill == NotRun then None else Some(id)
  }

  function BackfillOf(c: nat, script: Script): seq<Event> {
    if script.backfill == NotRun then [Crash(c)]
    else if script.backfill == Ran && script.logged then [Resolve(c), ReplyCreated(c)]
    else [Resolve(c), Crash(c)]
  }

  /** The statements from the provider write on. */
  function SendingOf(c: nat, script: Script): seq<Event> {
    match script.answer
    case Id(_) => [Write(c, script.answer)] + BackfillOf(c, script)
    case NoAnswer(_) => [Write(c, script.answer)]
    case _ => [Write(c, script.answer)] + RecoveryOf(c, script)
  }

  /** A proven no-create failure gives its row up once the hold, or the audit that stands in for it, is stored. */
  predicate Releases(r: Request, d: Diagnostic, script: Script) {
    var recorded := r.local.None? || !RecordsHold(d) || script.cooldown == Ran;
    && Releasable(d)
    && (if recorded then script.release != NotRun else script.audit == Ran && script.late != NotRun)
  }

  function RecoveryOf(c: nat, script: Script): seq<Event> {
    [MetaCreate.RecordCooldown(c, script.cooldown), Release(c, script.release), WriteAudit(c, script.audit), ReleaseLate(c, script.late)]
  }
}
