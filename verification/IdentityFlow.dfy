/** `resolveLocalMetaIdentity` as it runs: fifty attempts over the row, with other callers' statements
    between its own. */
module IdentityFlow {
  import opened Options
  import opened Runs
  import opened IdentityLease

  /** What happens during one attempt: the others' statements before each of ours, the provider's
      answer, whether the save ran and answered, and whether the release reached the database. */
  datatype Turn = Turn(beforeLookup: seq<Event>, beforeClaim: seq<Event>, beforeAnswer: seq<Event>, beforeSave: seq<Event>,
                       raw: Option<Raw>, save: Db, beforeRelease: seq<Event>, released: bool)

  datatype Outcome = Resolved(identity: Identity) | Failed | Busy

  predicate Others(events: seq<Event>, c: nat) {
    forall i :: 0 <= i < |events| ==> events[i].Tick? || events[i].c != c
  }

  predicate FairTurn(turn: Turn, c: nat) {
    Others(turn.beforeLookup, c) && Others(turn.beforeClaim, c) && Others(turn.beforeAnswer, c)
    && Others(turn.beforeSave, c) && Others(turn.beforeRelease, c)
  }

  predicate At(s: State, c: nat, r: Request, pc: Pc) {
    c in s.callers && s.callers[c] == Caller(r, pc)
  }

  // ----- What a call answers -----

  function AtLookup(s: State, c: nat, turn: Turn): State {
    RunFrom(Step, Step(s, ReadClock(c)), turn.beforeLookup)
  }

  function AtClaim(s: State, c: nat, turn: Turn): State {
    RunFrom(Step, Step(AtLookup(s, c, turn), Lookup(c)), turn.beforeClaim)
  }

  function AtSave(s: State, c: nat, turn: Turn): State {
    RunFrom(Step, Step(RunFrom(Step, s, turn.beforeAnswer), Answer(c, turn.raw)), turn.beforeSave)
  }

  /** A fresh row for this binding answers at once. */
  predicate Hits(s: State, r: Request, at: nat) {
    r.key in s.rows && Cached(s.rows[r.key], r.binding, at)
  }

  predicate Free(s: State, r: Request, at: nat) {
    r.key in s.rows ==> Claimable(s.rows[r.key], r.binding, at)
  }

  function CachedOutcome(s: State, r: Request): Outcome
    requires r.key in s.rows
  {
    if s.rows[r.key].identity.None? then Failed
    else
      match Project(Stored(s.rows[r.key].identity.value), r)
      case Ok(id) => Resolved(id)
      case _ => Failed
  }

  /** The provider named an identity that fits the request and the pin. */
  predicate Confirms(r: Request, pinned: Option<Identity>, raw: Option<Raw>) {
    && raw.Some? && Project(raw.value, r).Ok?
    && (pinned.Some? ==> pinned.value.instagramUserId == Project(raw.value, r).identity.instagramUserId)
  }

  /** With the lease taken: the provider's identity if it fits, nobody has overtaken the lease by the
      save, and the save answers. */
  function LeaseOutcome(s: State, c: nat, r: Request, token: nat, turn: Turn): Outcome
    requires c in s.callers
  {
    var pc := s.callers[c].pc;
    if pc.Verifying? && Confirms(r, pc.pinned, turn.raw) && Current(AtSave(s, c, turn).rows, r, token) && turn.save.Ran?
      then Resolved(Project(turn.raw.value, r).identity)
    else Failed
  }

  /** The answer of the attempts from `i` on. */
  function Answers(s: State, c: nat, r: Request, turns: seq<Turn>, i: nat): Outcome
    requires i <= |turns|
    decreases |turns| - i
  {
    if i == |turns| then Busy
    else
      var before, middle := AtLookup(s, c, turns[i]), AtClaim(s, c, turns[i]);
      if Hits(before, r, s.now) then CachedOutcome(before, r)
      else
        var after := Step(middle, Claim(c));
        if !Free(middle, r, s.now) then Answers(after, c, r, turns, i + 1)
        else if c in after.callers then LeaseOutcome(after, c, r, |middle.owners|, turns[i])
        else Failed
  }

  // ----- A caller alone -----

  predicate Quiet(turn: Turn) {
    turn.beforeLookup == [] && turn.beforeClaim == [] && turn.beforeAnswer == [] && turn.beforeSave == []
  }

  /** Nobody else runs, the provider names an identity that fits and is the pinned one if one is pinned, and
      the save answers. */
  predicate Unopposed(s: State, r: Request, turn: Turn, id: Identity) {
    && Quiet(turn) && turn.raw == Some(Stored(id)) && turn.save == Ran && Fits(id, r)
    && (r.key in s.rows && s.rows[r.key].binding == r.binding && s.rows[r.key].identity.Some? ==>
          s.rows[r.key].identity.value.instagramUserId == id.instagramUserId)
  }

  lemma RunNothing(s: State)
    ensures RunFrom(Step, s, []) == s
  {
  }

  /** After the claim the pin, if there is one, is the identity's. */
  lemma ClaimThenVerify(s: State, c: nat, r: Request, at: nat, tries: nat, turn: Turn, id: Identity)
    requires Inv(s) && At(s, c, r, Claiming(at, tries)) && LeaseEnded(s, r, at) && Unopposed(s, r, turn, id)
    ensures var t := Step(s, Claim(c));
      && c in t.callers && t.callers[c].pc.Verifying? && t.callers[c].pc.token == |s.owners|
      && Confirms(r, t.callers[c].pc.pinned, turn.raw) && Project(turn.raw.value, r) == Ok(id)
      && Current(t.rows, r, |s.owners|)
  {
    ProjectIffFits(Stored(id), r, id);
    ClaimTakesIff(s, c);
    if r.key in s.rows && s.rows[r.key].identity.Some? && s.rows[r.key].binding == r.binding {
      assert RowOk(s, r.key);
      var pin := s.rows[r.key].identity.value;
      assert Fits(pin, r);
      ProjectIffFits(Stored(pin), r, pin);
    }
  }

  lemma VerifyThenSave(s: State, c: nat, r: Request, token: nat, turn: Turn)
    requires c in s.callers && s.callers[c].request == r && s.callers[c].pc.Verifying? && s.callers[c].pc.token == token
    requires Quiet(turn) && turn.save == Ran && Confirms(r, s.callers[c].pc.pinned, turn.raw) && Current(s.rows, r, token)
    ensures LeaseOutcome(s, c, r, token, turn) == Resolved(Project(turn.raw.value, r).identity)
  {
    RunNothing(s);
    RunNothing(Step(s, Answer(c, turn.raw)));
  }

  /** A caller alone with a row whose lease has ended and a provider that confirms is answered at its first
      attempt. */
  lemma AloneIsResolved(s: State, c: nat, r: Request, turns: seq<Turn>, id: Identity)
    requires Inv(s) && At(s, c, r, Reading(0)) && |turns| > 0
    requires LeaseEnded(s, r, s.now) && Unopposed(s, r, turns[0], id)
    ensures Answers(s, c, r, turns, 0) == Resolved(id)
  {
    var turn := turns[0];
    var read := Step(s, ReadClock(c));
    StepKeepsInv(s, ReadClock(c));
    RunNothing(read);
    LookupIs(read, c);
    var looked := Step(read, Lookup(c));
    StepKeepsInv(read, Lookup(c));
    RunNothing(looked);
    assert At(looked, c, r, Claiming(s.now, 0));
    ClaimThenVerify(looked, c, r, s.now, 0, turn, id);
    VerifyThenSave(Step(looked, Claim(c)), c, r, |looked.owners|, turn);
  }

  /** One that finds its binding verified in the last ten minutes is answered from the row. */
  lemma CachedIsResolved(s: State, c: nat, r: Request, turns: seq<Turn>, id: Identity)
    requires Inv(s) && At(s, c, r, Reading(0)) && |turns| > 0 && turns[0].beforeLookup == []
    requires VerifiedLately(s, r, s.now) && s.rows[r.key].identity == Some(id) && Fits(id, r)
    ensures Answers(s, c, r, turns, 0) == Resolved(id)
  {
    RunNothing(Step(s, ReadClock(c)));
    ProjectIffFits(Stored(id), r, id);
  }

  lemma OthersLeaveCaller(s: State, e: Event, c: nat)
    requires c in s.callers && (e.Tick? || e.c != c)
    ensures c in Step(s, e).callers && Step(s, e).callers[c] == s.callers[c]
  {
  }

  /** The row table, the clock and everyone's position. */
  class Store {
    var now: nat
    var rows: map<Key, Row>
    var callers: map<nat, Caller>
    var owners: seq<nat>
    var verified: seq<Verified>
    var replies: seq<Reply>

    function View(): State
      reads this
    {
      State(now, rows, callers, owners, verified, replies)
    }

    method Put(s: State)
      modifies this
      ensures View() == s
    {
      now, rows, callers, owners, verified, replies := s.now, s.rows, s.callers, s.owners, s.verified, s.replies;
    }

    /** The others run, and then it is our turn. */
    method Meanwhile(c: nat, r: Request, pc: Pc, others: seq<Event>)
      requires Inv(View()) && At(View(), c, r, pc) && Others(others, c)
      modifies this
      ensures View() == RunFrom(Step, old(View()), others) && Inv(View()) && At(View(), c, r, pc)
    {
      for i := 0 to |others|
        invariant View() == RunFrom(Step, old(View()), others[..i]) && Inv(View()) && At(View(), c, r, pc)
      {
        OthersLeaveCaller(View(), others[i], c);
        StepKeepsInv(View(), others[i]);
        RunFromSnoc(Step, old(View()), others[..i], others[i]);
        assert others[..i + 1] == others[..i] + [others[i]];
        var next := Step(View(), others[i]);
        Put(next);
      }
      assert others[..|others|] == others;
    }

    method Move(c: nat, r: Request, pc: Pc)
      requires c in callers && callers[c].request == r
      modifies this`callers
      ensures callers == old(callers)[c := Caller(r, pc)]
    {
      callers := callers[c := Caller(r, pc)];
    }

    method ReadClock(c: nat, r: Request, tries: nat) returns (at: nat)
      requires Inv(View()) && At(View(), c, r, Reading(tries))
      modifies this
      ensures View() == Step(old(View()), IdentityLease.ReadClock(c)) && Inv(View()) && At(View(), c, r, Looking(at, tries))
      ensures at == old(now)
    {
      StepKeepsInv(View(), IdentityLease.ReadClock(c));
      at := now;
      Move(c, r, Looking(at, tries));
    }

    /** The cached row, if one is fresh; `found` says whether a row came back. */
    method Lookup(c: nat, r: Request, at: nat, tries: nat) returns (found: bool, result: Option<Identity>)
      requires Inv(View()) && At(View(), c, r, Looking(at, tries))
      modifies this
      ensures View() == Step(old(View()), IdentityLease.Lookup(c)) && Inv(View()) && rows == old(rows)
      ensures found <==> Hits(old(View()), r, at)
      ensures found ==> CachedOutcome(old(View()), r) == (if result.Some? then Resolved(result.value) else Failed)
      ensures !found ==> At(View(), c, r, Claiming(at, tries)) && replies == old(replies)
      ensures found ==> At(View(), c, r, Finished)
      ensures found && result.None? ==> replies == old(replies)
      ensures found && result.Some? ==> replies == old(replies) + [Reply(r, result.value, at, rows[r.key].epoch)]
    {
      StepKeepsInv(View(), IdentityLease.Lookup(c));
      if r.key in rows && Cached(rows[r.key], r.binding, at) {
        assert RowOk(View(), r.key);
        found, result := true, None;
        var projected := Project(Stored(rows[r.key].identity.value), r);
        if projected.Ok? {
          result := Some(projected.identity);
          replies := replies + [Reply(r, projected.identity, at, rows[r.key].epoch)];
        }
        Move(c, r, Finished);
      } else {
        found, result := false, None;
        Move(c, r, Claiming(at, tries));
      }
    }

    /** The upsert: a token if it was ours to take. */
    method ClaimRow(c: nat, r: Request, at: nat, tries: nat) returns (token: Option<nat>)
      requires Inv(View()) && At(View(), c, r, Claiming(at, tries))
      modifies this
      ensures View() == Step(old(View()), Claim(c)) && Inv(View()) && replies == old(replies)
      ensures token == if Free(old(View()), r, at) then Some(|old(owners)|) else None
      ensures token.None? ==> rows == old(rows) && At(View(), c, r, if tries + 1 < ATTEMPTS then Reading(tries + 1) else Finished)
      ensures token.Some? ==>
        && Current(rows, r, token.value) && rows[r.key].claimUntil == Some(at + LEASE) && rows[r.key].verifiedAt.None?
        && At(View(), c, r, AfterClaim(rows[r.key].identity, r, token.value))
    {
      StepKeepsInv(View(), Claim(c));
      if r.key in rows && !Claimable(rows[r.key], r.binding, at) {
        Move(c, r, if tries + 1 < ATTEMPTS then Reading(tries + 1) else Finished);
        return None;
      }
      token := Some(|owners|);
      if r.key !in rows {
        rows := rows[r.key := Row(r.binding, None, None, token, Some(at + LEASE), 0)];
      } else if rows[r.key].binding == r.binding {
        rows := rows[r.key := rows[r.key].(verifiedAt := None, claimToken := token, claimUntil := Some(at + LEASE))];
      } else {
        rows := rows[r.key := Row(r.binding, None, None, token, Some(at + LEASE), rows[r.key].epoch + 1)];
      }
      owners := owners + [c];
      Move(c, r, AfterClaim(rows[r.key].identity, r, token.value));
    }

    /** The provider's answer, projected and compared with the pin; None means an error is thrown. */
    method Verify(c: nat, r: Request, token: nat, pinned: Option<Identity>, raw: Option<Raw>) returns (identity: Option<Identity>)
      requires Inv(View()) && At(View(), c, r, Verifying(token, pinned))
      modifies this
      ensures View() == Step(old(View()), Answer(c, raw)) && Inv(View()) && rows == old(rows) && replies == old(replies)
      ensures identity.Some? <==> Confirms(r, pinned, raw)
      ensures identity.None? ==> At(View(), c, r, Releasing(token))
      ensures identity.Some? ==> At(View(), c, r, Saving(token, identity.value, now)) && Project(raw.value, r) == Ok(identity.value)
    {
      StepKeepsInv(View(), Answer(c, raw));
      if raw.None? || !Project(raw.value, r).Ok? {
        Move(c, r, Releasing(token));
        return None;
      }
      var id := Project(raw.value, r).identity;
      verified := verified + [Verified(r.key, r.binding, id, now)];
      if pinned.Some? && pinned.value.instagramUserId != id.instagramUserId {
        Move(c, r, Releasing(token));
        return None;
      }
      Move(c, r, Saving(token, id, now));
      return Some(id);
    }

    /** The compare-and-set: it takes effect exactly when it runs and the token is still ours, and
        returns when, besides, its answer comes back. */
    method SaveRow(c: nat, r: Request, token: nat, id: Identity, savedAt: nat, db: Db) returns (saved: bool)
      requires Inv(View()) && At(View(), c, r, Saving(token, id, savedAt))
      modifies this
      ensures View() == Step(old(View()), Save(c, db)) && Inv(View())
      ensures rows ==
        if !db.NotRun? && Current(old(rows), r, token)
          then old(rows)[r.key := Row(r.binding, Some(id), Some(savedAt), None, None, old(rows)[r.key].epoch)]
        else old(rows)
      ensures saved <==> db.Ran? && Current(old(rows), r, token)
      ensures !saved ==> replies == old(replies) && At(View(), c, r, Releasing(token))
      ensures saved ==>
        && r.key in rows && replies == old(replies) + [Reply(r, id, savedAt, rows[r.key].epoch)] && At(View(), c, r, Finished)
    {
      assert CallerOk(View(), c);
      StepKeepsInv(View(), Save(c, db));
      saved := db.Ran? && Saves(rows, r, token, id);
      if !db.NotRun? && Saves(rows, r, token, id) {
        rows := rows[r.key := Row(r.binding, Some(id), Some(savedAt), None, None, rows[r.key].epoch)];
      }
      if saved {
        replies := replies + [Reply(r, id, savedAt, rows[r.key].epoch)];
        Move(c, r, Finished);
      } else {
        Move(c, r, Releasing(token));
      }
    }

    method ReleaseRow(c: nat, r: Request, token: nat, ran: bool)
      requires Inv(View()) && At(View(), c, r, Releasing(token))
      modifies this
      ensures View() == Step(old(View()), Release(c, ran)) && Inv(View()) && replies == old(replies) && At(View(), c, r, Finished)
      ensures rows ==
        if ran && Current(old(rows), r, token) then old(rows)[r.key := old(rows)[r.key].(claimToken := None, claimUntil := None)]
        else old(rows)
    {
      StepKeepsInv(View(), Release(c, ran));
      if ran && Current(rows, r, token) {
        rows := rows[r.key := rows[r.key].(claimToken := None, claimUntil := None)];
      }
      Move(c, r, Finished);
    }

    /** The others, then the save. */
    method SaveLater(c: nat, r: Request, token: nat, id: Identity, turn: Turn) returns (saved: bool, ghost trace: seq<Event>)
      requires Inv(View()) && FairTurn(turn, c) && At(View(), c, r, Saving(token, id, now))
      modifies this
      ensures Inv(View()) && View() == RunFrom(Step, old(View()), trace)
      ensures saved <==> turn.save.Ran? && Current(RunFrom(Step, old(View()), turn.beforeSave).rows, r, token)
      ensures !saved ==> At(View(), c, r, Releasing(token))
      ensures saved ==> At(View(), c, r, Finished) && Answered(View(), r, id) && rows[r.key].verifiedAt.Some?
    {
      var savedAt := now;
      RunFromSnoc(Step, View(), turn.beforeSave, Save(c, turn.save));
      Meanwhile(c, r, Saving(token, id, savedAt), turn.beforeSave);
      saved := SaveRow(c, r, token, id, savedAt, turn.save);
      trace := turn.beforeSave + [Save(c, turn.save)];
      if saved { assert replies[|replies| - 1].identity == id; }
    }

    /** Verify under the lease and save. */
    method TrySave(c: nat, r: Request, token: nat, pinned: Option<Identity>, turn: Turn)
      returns (identity: Option<Identity>, ghost trace: seq<Event>)
      requires Inv(View()) && FairTurn(turn, c) && At(View(), c, r, Verifying(token, pinned))
      modifies this
      ensures Inv(View()) && View() == RunFrom(Step, old(View()), trace)
      ensures LeaseOutcome(old(View()), c, r, token, turn) == if identity.Some? then Resolved(identity.value) else Failed
      ensures identity.None? ==> At(View(), c, r, Releasing(token))
      ensures identity.Some? ==> At(View(), c, r, Finished) && Answered(View(), r, identity.value) && rows[r.key].verifiedAt.Some?
    {
      ghost var before := View();
      Meanwhile(c, r, Verifying(token, pinned), turn.beforeAnswer);
      identity := Verify(c, r, token, pinned, turn.raw);
      RunFromSnoc(Step, before, turn.beforeAnswer, Answer(c, turn.raw));
      trace := turn.beforeAnswer + [Answer(c, turn.raw)];
      if identity.Some? {
        var saved; ghost var saving;
        saved, saving := SaveLater(c, r, token, identity.value, turn);
        RunFromConcat(Step, before, trace, saving);
        trace := trace + saving;
        if !saved { identity := None; }
      }
    }

    /** Verify under the lease, save, and release on any failure. */
    method HoldLease(c: nat, r: Request, token: nat, turn: Turn) returns (result: Outcome, ghost trace: seq<Event>)
      requires Inv(View()) && FairTurn(turn, c)
      requires At(View(), c, r, Releasing(token)) || (exists pin :: At(View(), c, r, Verifying(token, pin)))
      modifies this
      ensures Inv(View()) && View() == RunFrom(Step, old(View()), trace) && At(View(), c, r, Finished)
      ensures result.Resolved? ==> Answered(View(), r, result.identity) && rows[r.key].verifiedAt.Some?
      ensures !result.Resolved? ==> result.Failed? && (turn.released ==> !Current(rows, r, token))
      ensures result == LeaseOutcome(old(View()), c, r, token, turn)
    {
      ghost var before := View();
      trace := [];
      if callers[c].pc.Verifying? {
        var identity;
        identity, trace := TrySave(c, r, token, callers[c].pc.pinned, turn);
        if identity.Some? {
          return Resolved(identity.value), trace;
        }
      }
      Meanwhile(c, r, Releasing(token), turn.beforeRelease);
      ReleaseRow(c, r, token, turn.released);
      RunFromConcat(Step, before, trace, turn.beforeRelease);
      RunFromSnoc(Step, before, trace + turn.beforeRelease, Release(c, turn.released));
      return Failed, trace + turn.beforeRelease + [Release(c, turn.released)];
    }

    /** Fifty attempts: read the cache, else claim, verify and save; a row another caller holds is waited for. */
    method Resolve(c: nat, r: Request, turns: seq<Turn>) returns (result: Outcome, ghost trace: seq<Event>)
      requires Inv(View()) && At(View(), c, r, Reading(0)) && |turns| == 50
      requires forall i :: 0 <= i < |turns| ==> FairTurn(turns[i], c)
      modifies this
      ensures Inv(View()) && View() == RunFrom(Step, old(View()), trace) && At(View(), c, r, Finished)
      ensures result == Answers(old(View()), c, r, turns, 0)
      ensures forall id :: LeaseEnded(old(View()), r, old(now)) && Unopposed(old(View()), r, turns[0], id) ==> result == Resolved(id)
      ensures result.Resolved? ==> Answered(View(), r, result.identity)
    {
      ghost var before := View();
      forall id | LeaseEnded(before, r, now) && Unopposed(before, r, turns[0], id) ensures Answers(before, c, r, turns, 0) == Resolved(id) {
        AloneIsResolved(before, c, r, turns, id);
      }
      trace := [];
      for attempt := 0 to ATTEMPTS
        invariant Inv(View()) && View() == RunFrom(Step, before, trace)
        invariant Answers(before, c, r, turns, 0) == Answers(View(), c, r, turns, attempt)
        invariant At(View(), c, r, if attempt < ATTEMPTS then Reading(attempt) else Finished)
      {
        var turn := turns[attempt];
        var found, cached, token, at; ghost var part;
        found, cached, at, part := TryCache(c, r, attempt, turn);
        RunFromConcat(Step, before, trace, part);
        trace := trace + part;
        if found {
          if cached.None? { return Failed, trace; }
          return Resolved(cached.value), trace;
        }
        token, part := TryClaim(c, r, at, attempt, turn);
        RunFromConcat(Step, before, trace, part);
        trace := trace + part;
        if token.Some? {
          result, part := HoldLease(c, r, token.value, turn);
          RunFromConcat(Step, before, trace, part);
          return result, trace + part;
        }
      }
      return Busy, trace;
    }

    /** The others, then the claim. */
    method TryClaim(c: nat, r: Request, at: nat, tries: nat, turn: Turn) returns (token: Option<nat>, ghost trace: seq<Event>)
      requires Inv(View()) && At(View(), c, r, Claiming(at, tries)) && FairTurn(turn, c)
      modifies this
      ensures Inv(View()) && View() == RunFrom(Step, old(View()), trace)
      ensures var there := RunFrom(Step, old(View()), turn.beforeClaim);
        View() == Step(there, Claim(c)) && token == if Free(there, r, at) then Some(|there.owners|) else None
      ensures token.None? ==> At(View(), c, r, if tries + 1 < ATTEMPTS then Reading(tries + 1) else Finished)
      ensures token.Some? ==>
        At(View(), c, r, Releasing(token.value)) || exists pin :: At(View(), c, r, Verifying(token.value, pin))
    {
      RunFromSnoc(Step, View(), turn.beforeClaim, Claim(c));
      Meanwhile(c, r, Claiming(at, tries), turn.beforeClaim);
      token := ClaimRow(c, r, at, tries);
      trace := turn.beforeClaim + [Claim(c)];
      if token.Some? { AfterClaimIs(rows[r.key].identity, r, token.value); }
    }

    method TryCache(c: nat, r: Request, tries: nat, turn: Turn) returns (found: bool, cached: Option<Identity>, at: nat, ghost trace: seq<Event>)
      requires Inv(View()) && At(View(), c, r, Reading(tries)) && FairTurn(turn, c)
      modifies this
      ensures Inv(View()) && View() == RunFrom(Step, old(View()), trace)
      ensures at == old(now) && (found <==> Hits(AtLookup(old(View()), c, turn), r, at))
      ensures found ==> CachedOutcome(AtLookup(old(View()), c, turn), r) == (if cached.Some? then Resolved(cached.value) else Failed)
      ensures View() == Step(AtLookup(old(View()), c, turn), IdentityLease.Lookup(c))
      ensures !found ==> At(View(), c, r, Claiming(at, tries))
      ensures found ==> At(View(), c, r, Finished) && (cached.Some? ==> Answered(View(), r, cached.value))
    {
      ghost var before := View();
      at := ReadClock(c, r, tries);
      RunFromSnoc(Step, before, [], IdentityLease.ReadClock(c));
      trace := [] + [IdentityLease.ReadClock(c)];
      RunFromConcat(Step, before, trace, turn.beforeLookup);
      Meanwhile(c, r, Looking(at, tries), turn.beforeLookup);
      found, cached := Lookup(c, r, at, tries);
      RunFromSnoc(Step, before, trace + turn.beforeLookup, IdentityLease.Lookup(c));
      trace := trace + turn.beforeLookup + [IdentityLease.Lookup(c)];
      if found && cached.Some? {
        assert replies[|replies| - 1].identity == cached.value;
        assert ReplyOk(View(), replies[|replies| - 1]);
      }
    }
  }

  lemma AfterClaimIs(identity: Option<Identity>, r: Request, token: nat)
    ensures AfterClaim(identity, r, token) == Releasing(token) || exists pin :: AfterClaim(identity, r, token) == Verifying(token, pin)
  {
  }

  /** The last reply given is this one, under the row's present epoch and pin. */
  predicate Answered(s: State, r: Request, id: Identity) {
    && |s.replies| > 0 && r.key in s.rows
    && s.replies[|s.replies| - 1].request == r && s.replies[|s.replies| - 1].identity == id
    && s.replies[|s.replies| - 1].epoch == s.rows[r.key].epoch
    && s.rows[r.key].identity.Some? && s.rows[r.key].identity.value.instagramUserId == id.instagramUserId
  }
}
