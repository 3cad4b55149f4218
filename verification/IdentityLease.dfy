/** One Instagram identity per launch. Callers of `resolveLocalMetaIdentity` share one row per
    operation: a lease with a fencing token, a short cache, and a pin that lasts as long as the binding. */
module IdentityLease {
  import opened Options
  import opened Runs

  const WINDOW: nat := 10 * 60_000
  const LEASE: nat := 2 * 60_000
  const ATTEMPTS: nat := 50

  /** Workspace, source, actor and operation. */
  datatype Key = Key(workspace: string, source: string, actor: string, operation: string)

  /** What the binding digest covers. */
  datatype Binding = Binding(version: string, account: string, api: Option<string>, pageId: string, token: string)

  datatype Request = Request(key: Key, binding: Binding, expected: Option<string>)

  // ----- Identities -----

  datatype Identity = Identity(pageId: string, instagramUserId: Option<string>, kind: string)

  /** One field of an answer or of stored JSON. */
  datatype Field = Missing | Null | Text(text: string) | Other

  datatype Raw = Raw(pageId: Field, instagramUserId: Field, kind: Field)

  function Stored(id: Identity): Raw {
    Raw(Text(id.pageId), if id.instagramUserId.Some? then Text(id.instagramUserId.value) else Null, Text(id.kind))
  }

  predicate InstagramId(s: string) {
    1 <= |s| <= 32 && forall i :: 0 <= i < |s| ==> '0' <= s[i] <= '9'
  }

  predicate LinkedKind(kind: string) {
    kind == "business" || kind == "connected" || kind == "page_backed"
  }

  predicate ValidRaw(raw: Raw, pageId: string) {
    && raw.pageId == Text(pageId) && raw.kind.Text?
    && (|| (raw.kind.text == "page_only" && raw.instagramUserId.Null?)
        || (LinkedKind(raw.kind.text) && raw.instagramUserId.Text? && InstagramId(raw.instagramUserId.text)))
  }

  datatype Projection = Ok(identity: Identity) | Unavailable | Mismatch

  function Project(raw: Raw, r: Request): Projection {
    if !ValidRaw(raw, r.binding.pageId) then Unavailable
    else
      var ig := if raw.instagramUserId.Text? then Some(raw.instagramUserId.text) else None;
      if r.expected.Some? && ig != r.expected then Mismatch
      else Ok(Identity(r.binding.pageId, ig, raw.kind.text))
  }

  /** Projection yields exactly the well-formed identities of the page, as named if a name was given. */
  lemma ProjectIff(raw: Raw, r: Request, id: Identity)
    ensures Project(raw, r) == Ok(id) <==>
      raw == Stored(id) && WellFormed(id, r.binding.pageId) && (r.expected.Some? ==> id.instagramUserId == r.expected)
  {
  }

  predicate WellFormed(id: Identity, pageId: string) {
    && id.pageId == pageId
    && (if id.instagramUserId.None? then id.kind == "page_only" else LinkedKind(id.kind) && InstagramId(id.instagramUserId.value))
  }

  // ----- State -----

  /** `epoch` counts the binding changes of the row; it is history, not stored. */
  datatype Row = Row(
    binding: Binding, identity: Option<Identity>, verifiedAt: Option<nat>,
    claimToken: Option<nat>, claimUntil: Option<nat>, epoch: nat)

  datatype Pc =
    | Reading(tries: nat)
    | Looking(at: nat, tries: nat)
    | Claiming(at: nat, tries: nat)
    | Verifying(token: nat, pinned: Option<Identity>)
    | Saving(token: nat, identity: Identity, savedAt: nat)
    | Releasing(token: nat)
    | Finished

  datatype Caller = Caller(request: Request, pc: Pc)

  /** A provider answer, projected, with its time. */
  datatype Verified = Verified(key: Key, binding: Binding, identity: Identity, at: nat)

  datatype Reply = Reply(request: Request, identity: Identity, at: nat, epoch: nat)

  /** `owners[t]` drew token t; `verified` and `replies` are history. */
  datatype State = State(
    now: nat, rows: map<Key, Row>, callers: map<nat, Caller>, owners: seq<nat>, verified: seq<Verified>, replies: seq<Reply>)

  const INITIAL: State := State(0, map[], map[], [], [], [])

  datatype Event =
    | Tick(ms: nat)
    | Start(c: nat, request: Request)
    | ReadClock(c: nat)
    | Lookup(c: nat)
    | Claim(c: nat)
    | Answer(c: nat, raw: Option<Raw>)
    | Save(c: nat, db: Db)
    | Release(c: nat, ran: bool)
    | Crash(c: nat)

  // ----- Row statements -----

  predicate Cached(row: Row, b: Binding, at: nat) {
    row.binding == b && row.verifiedAt.Some? && row.verifiedAt.value <= at < row.verifiedAt.value + WINDOW
  }

  predicate Claimable(row: Row, b: Binding, at: nat) {
    && (row.claimUntil.None? || row.claimUntil.value <= at)
    && (row.binding != b || row.verifiedAt.None? || row.verifiedAt.value + WINDOW <= at)
  }

  function Claimed(row: Row, b: Binding, token: nat, at: nat): Row {
    if row.binding == b then Row(b, row.identity, None, Some(token), Some(at + LEASE), row.epoch)
    else Row(b, None, None, Some(token), Some(at + LEASE), row.epoch + 1)
  }

  predicate Current(rows: map<Key, Row>, r: Request, token: nat) {
    r.key in rows && rows[r.key].binding == r.binding && rows[r.key].claimToken == Some(token)
  }

  predicate Saves(rows: map<Key, Row>, r: Request, token: nat, id: Identity) {
    && Current(rows, r, token)
    && var pin := rows[r.key].identity;
       pin.None? || pin.value.instagramUserId == id.instagramUserId
  }

  // ----- Steps -----

  function Goto(s: State, c: nat, pc: Pc): State
    requires c in s.callers
  {
    s.(callers := s.callers[c := s.callers[c].(pc := pc)])
  }

  function PutRow(s: State, key: Key, row: Row): State {
    s.(rows := s.rows[key := row])
  }

  function DoLookup(s: State, c: nat, r: Request, at: nat, tries: nat): State
    requires c in s.callers
  {
    if r.key in s.rows && Cached(s.rows[r.key], r.binding, at) then
      var row := s.rows[r.key];
      if row.identity.None? then Goto(s, c, Finished)
      else
        match Project(Stored(row.identity.value), r)
        case Ok(id) => Goto(s.(replies := s.replies + [Reply(r, id, at, row.epoch)]), c, Finished)
        case _ => Goto(s, c, Finished)
    else Goto(s, c, Claiming(at, tries))
  }

  function AfterClaim(identity: Option<Identity>, r: Request, token: nat): Pc {
    if identity.None? then Verifying(token, None)
    else
      match Project(Stored(identity.value), r)
      case Ok(id) => Verifying(token, Some(id))
      case _ => Releasing(token)
  }

  /** The upsert; refused, the caller sleeps and tries again, up to fifty times. */
  function DoClaim(s: State, c: nat, r: Request, at: nat, tries: nat): State
    requires c in s.callers
  {
    if r.key in s.rows && !Claimable(s.rows[r.key], r.binding, at) then
      Goto(s, c, if tries + 1 < ATTEMPTS then Reading(tries + 1) else Finished)
    else
      var token := |s.owners|;
      var row := if r.key in s.rows then Claimed(s.rows[r.key], r.binding, token, at)
        else Row(r.binding, None, None, Some(token), Some(at + LEASE), 0);
      Goto(PutRow(s, r.key, row).(owners := s.owners + [c]), c, AfterClaim(row.identity, r, token))
  }

  function DoAnswer(s: State, c: nat, r: Request, token: nat, pinned: Option<Identity>, raw: Option<Raw>): State
    requires c in s.callers
  {
    if raw.None? then Goto(s, c, Releasing(token))
    else
      match Project(raw.value, r)
      case Ok(id) =>
        var heard := s.(verified := s.verified + [Verified(r.key, r.binding, id, s.now)]);
        if pinned.Some? && pinned.value.instagramUserId != id.instagramUserId then Goto(heard, c, Releasing(token))
        else Goto(heard, c, Saving(token, id, s.now))
      case _ => Goto(s, c, Releasing(token))
  }

  /** The compare-and-set. When its answer is lost the row is saved, but the caller throws. */
  function DoSave(s: State, c: nat, r: Request, token: nat, id: Identity, savedAt: nat, db: Db): State
    requires c in s.callers
  {
    if !db.NotRun? && Saves(s.rows, r, token, id) then
      var row := s.rows[r.key].(identity := Some(id), verifiedAt := Some(savedAt), claimToken := None, claimUntil := None);
      var saved := PutRow(s, r.key, row);
      if db.Ran? then Goto(saved.(replies := s.replies + [Reply(r, id, savedAt, row.epoch)]), c, Finished)
      else Goto(saved, c, Releasing(token))
    else Goto(s, c, Releasing(token))
  }

  function DoRelease(s: State, c: nat, r: Request, token: nat, ran: bool): State
    requires c in s.callers
  {
    if ran && Current(s.rows, r, token)
      then Goto(PutRow(s, r.key, s.rows[r.key].(claimToken := None, claimUntil := None)), c, Finished)
    else Goto(s, c, Finished)
  }

  function Step(s: State, e: Event): State {
    match e
    case Tick(ms) => s.(now := s.now + ms)
    case Start(c, request) =>
      if c in s.callers then s else s.(callers := s.callers[c := Caller(request, Reading(0))])
    case _ => if e.c !in s.callers then s else CallerStep(s, e, s.callers[e.c].request, s.callers[e.c].pc)
  }

  function CallerStep(s: State, e: Event, r: Request, pc: Pc): State
    requires !e.Tick? && e.c in s.callers
  {
    match e
    case ReadClock(c) => if pc.Reading? then Goto(s, c, Looking(s.now, pc.tries)) else s
    case Lookup(c) => if pc.Looking? then DoLookup(s, c, r, pc.at, pc.tries) else s
    case Claim(c) => if pc.Claiming? then DoClaim(s, c, r, pc.at, pc.tries) else s
    case Answer(c, raw) => if pc.Verifying? then DoAnswer(s, c, r, pc.token, pc.pinned, raw) else s
    case Save(c, db) => if pc.Saving? then DoSave(s, c, r, pc.token, pc.identity, pc.savedAt, db) else s
    case Release(c, ran) => if pc.Releasing? then DoRelease(s, c, r, pc.token, ran) else s
    case Crash(c) => Goto(s, c, Finished)
    case Start(_, _) => s
  }

  function Run(events: seq<Event>): State {
    RunFrom(Step, INITIAL, events)
  }

  // ----- Invariant -----

  function TokenOf(pc: Pc): Option<nat> {
    match pc
    case Verifying(t, _) => Some(t)
    case Saving(t, _, _) => Some(t)
    case Releasing(t) => Some(t)
    case _ => None
  }

  predicate AnsweredAt(s: State, key: Key, b: Binding, id: Identity, at: nat) {
    Verified(key, b, id, at) in s.verified
  }

  predicate RowOk(s: State, key: Key)
    requires key in s.rows
  {
    var row := s.rows[key];
    && (row.claimToken.Some? ==> row.claimToken.value < |s.owners|)
    && (row.claimToken.Some? <==> row.claimUntil.Some?)
    && (row.identity.Some? ==> WellFormed(row.identity.value, row.binding.pageId))
    && (row.verifiedAt.Some? ==>
          && row.identity.Some? && row.claimToken.None? && row.verifiedAt.value <= s.now
          && AnsweredAt(s, key, row.binding, row.identity.value, row.verifiedAt.value))
  }

  /** A caller whose token is current knows the pin. */
  predicate Knows(pin: Option<Identity>, pc: Pc) {
    match pc
    case Verifying(_, pinned) => pin == pinned
    case Saving(_, id, _) => pin.Some? ==> pin.value.instagramUserId == id.instagramUserId
    case _ => true
  }

  predicate CallerOk(s: State, c: nat)
    requires c in s.callers
  {
    var r, pc := s.callers[c].request, s.callers[c].pc;
    && (TokenOf(pc).Some? ==>
          && TokenOf(pc).value < |s.owners| && s.owners[TokenOf(pc).value] == c && r.key in s.rows
          && (s.rows[r.key].claimToken == TokenOf(pc) ==>
                s.rows[r.key].binding == r.binding && Knows(s.rows[r.key].identity, pc)))
    && (pc.Saving? ==>
          && WellFormed(pc.identity, r.binding.pageId) && (r.expected.Some? ==> pc.identity.instagramUserId == r.expected)
          && AnsweredAt(s, r.key, r.binding, pc.identity, pc.savedAt) && pc.savedAt <= s.now)
    && (pc.Looking? ==> pc.at <= s.now) && (pc.Claiming? ==> pc.at <= s.now)
    && (pc.Reading? ==> pc.tries < ATTEMPTS) && (pc.Looking? ==> pc.tries < ATTEMPTS) && (pc.Claiming? ==> pc.tries < ATTEMPTS)
  }

  /** The provider named this identity for this binding less than ten minutes before `p.at`. */
  ghost predicate Fresh(s: State, p: Reply) {
    exists v :: v in s.verified && v.key == p.request.key && v.binding == p.request.binding && v.identity == p.identity
      && v.at <= p.at < v.at + WINDOW
  }

  ghost predicate ReplyOk(s: State, p: Reply) {
    && p.request.key in s.rows && p.epoch <= s.rows[p.request.key].epoch
    && (p.epoch == s.rows[p.request.key].epoch ==>
          && p.request.binding == s.rows[p.request.key].binding && s.rows[p.request.key].identity.Some?
          && s.rows[p.request.key].identity.value.instagramUserId == p.identity.instagramUserId)
    && (p.request.expected.Some? ==> p.identity.instagramUserId == p.request.expected)
    && WellFormed(p.identity, p.request.binding.pageId) && Fresh(s, p)
  }

  predicate Agree(p: Reply, q: Reply) {
    p.request.key == q.request.key && p.epoch == q.epoch ==>
      p.request.binding == q.request.binding && p.identity.instagramUserId == q.identity.instagramUserId
  }

  ghost predicate Inv(s: State) {
    && (forall key :: key in s.rows ==> RowOk(s, key))
    && (forall c :: c in s.callers ==> CallerOk(s, c))
    && (forall i :: 0 <= i < |s.replies| ==> ReplyOk(s, s.replies[i]))
    && (forall i, j :: 0 <= i < j < |s.replies| ==> Agree(s.replies[i], s.replies[j]))
  }

  /** The pin moves only with the binding. */
  predicate PinKept(row: Row, next: Row) {
    && row.epoch <= next.epoch
    && (row.epoch == next.epoch ==>
          && next.binding == row.binding
          && (row.identity.Some? ==> next.identity.Some? && next.identity.value.instagramUserId == row.identity.value.instagramUserId))
  }

  /** What a step by `c` may do to the rest: change only its own key's row, keeping the pin and leaving
      there no token but a new one of its own. */
  ghost predicate Framed(s: State, t: State, c: nat, key: Key) {
    && s.now <= t.now && s.owners <= t.owners && s.verified <= t.verified && s.replies <= t.replies
    && (forall k :: k != c ==> (k in t.callers <==> k in s.callers) && (k in s.callers ==> t.callers[k] == s.callers[k]))
    && (forall k :: k != key ==> (k in t.rows <==> k in s.rows) && (k in s.rows ==> t.rows[k] == s.rows[k]))
    && (key in s.rows ==>
          && key in t.rows && PinKept(s.rows[key], t.rows[key])
          && (t.rows[key] == s.rows[key] || t.rows[key].claimToken.None? || t.rows[key].claimToken.value >= |s.owners|))
    && (key !in s.rows && key in t.rows ==> t.rows[key].claimToken == Some(|s.owners|))
  }

  ghost predicate OwnOk(s: State, t: State, c: nat, key: Key) {
    && c in t.callers && CallerOk(t, c) && (key in t.rows ==> RowOk(t, key))
    && (|| t.replies == s.replies
        || (|t.replies| == |s.replies| + 1
            && var p := t.replies[|s.replies|];
               p.request.key == key && ReplyOk(t, p) && p.epoch == t.rows[key].epoch))
  }

  lemma VerifiedStays(s: State, t: State, v: Verified)
    requires s.verified <= t.verified && v in s.verified
    ensures v in t.verified
  {
    var i :| 0 <= i < |s.verified| && s.verified[i] == v;
    assert t.verified[i] == v;
  }

  lemma OtherCallerOk(s: State, t: State, c: nat, key: Key, other: nat)
    requires Inv(s) && Framed(s, t, c, key) && other != c && other in t.callers
    ensures CallerOk(t, other)
  {
    var r, pc := s.callers[other].request, s.callers[other].pc;
    assert CallerOk(s, other);
    if pc.Saving? { VerifiedStays(s, t, Verified(r.key, r.binding, pc.identity, pc.savedAt)); }
  }

  lemma OldReplyOk(s: State, t: State, c: nat, key: Key, p: Reply)
    requires Inv(s) && Framed(s, t, c, key) && ReplyOk(s, p)
    ensures ReplyOk(t, p)
  {
    var v :| v in s.verified && v.key == p.request.key && v.binding == p.request.binding && v.identity == p.identity
      && v.at <= p.at < v.at + WINDOW;
    VerifiedStays(s, t, v);
  }

  lemma OldRowOk(s: State, t: State, c: nat, key: Key, k: Key)
    requires Inv(s) && Framed(s, t, c, key) && k != key && k in t.rows
    ensures RowOk(t, k)
  {
    var row := s.rows[k];
    assert RowOk(s, k);
    if row.verifiedAt.Some? { VerifiedStays(s, t, Verified(k, row.binding, row.identity.value, row.verifiedAt.value)); }
  }

  lemma FramedKeepsInv(s: State, t: State, c: nat, key: Key)
    requires Inv(s) && Framed(s, t, c, key) && OwnOk(s, t, c, key)
    ensures Inv(t)
  {
    forall k | k in t.rows ensures RowOk(t, k) {
      if k != key { OldRowOk(s, t, c, key, k); }
    }
    forall other | other in t.callers ensures CallerOk(t, other) {
      if other != c { OtherCallerOk(s, t, c, key, other); }
    }
    forall i | 0 <= i < |t.replies| ensures ReplyOk(t, t.replies[i]) {
      if i < |s.replies| { OldReplyOk(s, t, c, key, s.replies[i]); }
    }
    forall i, j | 0 <= i < j < |t.replies| ensures Agree(t.replies[i], t.replies[j]) {
      assert ReplyOk(t, t.replies[i]) && ReplyOk(t, t.replies[j]);
      if j < |s.replies| { assert Agree(s.replies[i], s.replies[j]); }
    }
  }

  /** A step that moves only its caller. */
  lemma MoveKeepsInv(s: State, c: nat, pc: Pc)
    requires Inv(s) && c in s.callers && CallerOk(Goto(s, c, pc), c)
    ensures Inv(Goto(s, c, pc))
  {
    var key, t := s.callers[c].request.key, Goto(s, c, pc);
    if key in s.rows { SameRowOk(s, t, key); }
    FramedKeepsInv(s, t, c, key);
  }

  lemma SameRowOk(s: State, t: State, key: Key)
    requires key in s.rows && RowOk(s, key) && key in t.rows && t.rows[key] == s.rows[key]
    requires s.now <= t.now && s.owners <= t.owners && s.verified <= t.verified
    ensures RowOk(t, key)
  {
    var row := s.rows[key];
    if row.verifiedAt.Some? { VerifiedStays(s, t, Verified(key, row.binding, row.identity.value, row.verifiedAt.value)); }
  }

  lemma LookupKeepsInv(s: State, c: nat)
    requires Inv(s) && c in s.callers && s.callers[c].pc.Looking?
    ensures Inv(DoLookup(s, c, s.callers[c].request, s.callers[c].pc.at, s.callers[c].pc.tries))
  {
    var r, at := s.callers[c].request, s.callers[c].pc.at;
    var t := DoLookup(s, c, r, at, s.callers[c].pc.tries);
    assert CallerOk(s, c);
    if t.replies == s.replies {
      MoveKeepsInv(s, c, t.callers[c].pc);
    } else {
      var row := s.rows[r.key];
      assert RowOk(s, r.key);
      ProjectIff(Stored(row.identity.value), r, row.identity.value);
      assert Verified(r.key, row.binding, row.identity.value, row.verifiedAt.value) in t.verified;
      SameRowOk(s, t, r.key);
      FramedKeepsInv(s, t, c, r.key);
    }
  }

  lemma ClaimKeepsInv(s: State, c: nat)
    requires Inv(s) && c in s.callers && s.callers[c].pc.Claiming?
    ensures Inv(DoClaim(s, c, s.callers[c].request, s.callers[c].pc.at, s.callers[c].pc.tries))
  {
    var r, at, tries := s.callers[c].request, s.callers[c].pc.at, s.callers[c].pc.tries;
    var t := DoClaim(s, c, r, at, tries);
    assert CallerOk(s, c);
    if r.key in s.rows && !Claimable(s.rows[r.key], r.binding, at) {
      MoveKeepsInv(s, c, t.callers[c].pc);
    } else {
      if r.key in s.rows { assert RowOk(s, r.key); }
      var row := t.rows[r.key];
      if row.identity.Some? { ProjectIff(Stored(row.identity.value), r, row.identity.value); }
      FramedKeepsInv(s, t, c, r.key);
    }
  }

  /** An identity heard from the provider, at whatever statement its caller goes on. */
  lemma HeardKeepsInv(s: State, c: nat, id: Identity, pc: Pc)
    requires Inv(s) && c in s.callers && s.callers[c].pc.Verifying?
    requires var heard := s.(verified := s.verified + [Verified(s.callers[c].request.key, s.callers[c].request.binding, id, s.now)]);
      CallerOk(Goto(heard, c, pc), c)
    ensures var heard := s.(verified := s.verified + [Verified(s.callers[c].request.key, s.callers[c].request.binding, id, s.now)]);
      Inv(Goto(heard, c, pc))
  {
    var r := s.callers[c].request;
    var t := Goto(s.(verified := s.verified + [Verified(r.key, r.binding, id, s.now)]), c, pc);
    assert CallerOk(s, c);
    SameRowOk(s, t, r.key);
    FramedKeepsInv(s, t, c, r.key);
  }

  lemma AnswerKeepsInv(s: State, c: nat, raw: Option<Raw>)
    requires Inv(s) && c in s.callers && s.callers[c].pc.Verifying?
    ensures Inv(DoAnswer(s, c, s.callers[c].request, s.callers[c].pc.token, s.callers[c].pc.pinned, raw))
  {
    var r, pc := s.callers[c].request, s.callers[c].pc;
    var t := DoAnswer(s, c, r, pc.token, pc.pinned, raw);
    assert CallerOk(s, c);
    if raw.Some? && Project(raw.value, r).Ok? {
      var id := Project(raw.value, r).identity;
      ProjectIff(raw.value, r, id);
      assert t.verified[|s.verified|] == Verified(r.key, r.binding, id, s.now);
      HeardKeepsInv(s, c, id, t.callers[c].pc);
    } else {
      MoveKeepsInv(s, c, Releasing(pc.token));
    }
  }

  lemma SaveKeepsInv(s: State, c: nat, db: Db)
    requires Inv(s) && c in s.callers && s.callers[c].pc.Saving?
    ensures var pc := s.callers[c].pc; Inv(DoSave(s, c, s.callers[c].request, pc.token, pc.identity, pc.savedAt, db))
  {
    var r, pc := s.callers[c].request, s.callers[c].pc;
    var t := DoSave(s, c, r, pc.token, pc.identity, pc.savedAt, db);
    assert CallerOk(s, c) && RowOk(s, r.key);
    if !db.NotRun? && Saves(s.rows, r, pc.token, pc.identity) {
      assert Verified(r.key, r.binding, pc.identity, pc.savedAt) in t.verified;
      FramedKeepsInv(s, t, c, r.key);
    } else {
      MoveKeepsInv(s, c, Releasing(pc.token));
    }
  }

  lemma ReleaseKeepsInv(s: State, c: nat, ran: bool)
    requires Inv(s) && c in s.callers && s.callers[c].pc.Releasing?
    ensures Inv(DoRelease(s, c, s.callers[c].request, s.callers[c].pc.token, ran))
  {
    var r, pc := s.callers[c].request, s.callers[c].pc;
    var t := DoRelease(s, c, r, pc.token, ran);
    assert CallerOk(s, c) && RowOk(s, r.key);
    if ran && Current(s.rows, r, pc.token) {
      FramedKeepsInv(s, t, c, r.key);
    } else {
      MoveKeepsInv(s, c, Finished);
    }
  }

  lemma TickKeepsInv(s: State, ms: nat)
    requires Inv(s)
    ensures Inv(Step(s, Tick(ms)))
  {
    var t := Step(s, Tick(ms));
    forall key | key in t.rows ensures RowOk(t, key) { assert RowOk(s, key); }
    forall c | c in t.callers ensures CallerOk(t, c) { assert CallerOk(s, c); }
    forall i | 0 <= i < |t.replies| ensures ReplyOk(t, t.replies[i]) { assert ReplyOk(s, s.replies[i]); }
  }

  lemma StepKeepsInv(s: State, e: Event)
    requires Inv(s)
    ensures Inv(Step(s, e))
  {
    match e
    case Tick(ms) => TickKeepsInv(s, ms);
    case Start(c, request) =>
      if c !in s.callers {
        if request.key in s.rows { SameRowOk(s, Step(s, e), request.key); }
        FramedKeepsInv(s, Step(s, e), c, request.key);
      }
    case ReadClock(c) =>
      if c in s.callers && s.callers[c].pc.Reading? {
        assert CallerOk(s, c);
        MoveKeepsInv(s, c, Looking(s.now, s.callers[c].pc.tries));
      }
    case Lookup(c) => if c in s.callers && s.callers[c].pc.Looking? { LookupKeepsInv(s, c); }
    case Claim(c) => if c in s.callers && s.callers[c].pc.Claiming? { ClaimKeepsInv(s, c); }
    case Answer(c, raw) => if c in s.callers && s.callers[c].pc.Verifying? { AnswerKeepsInv(s, c, raw); }
    case Save(c, db) => if c in s.callers && s.callers[c].pc.Saving? { SaveKeepsInv(s, c, db); }
    case Release(c, ran) => if c in s.callers && s.callers[c].pc.Releasing? { ReleaseKeepsInv(s, c, ran); }
    case Crash(c) => if c in s.callers { MoveKeepsInv(s, c, Finished); }
  }

  lemma RunsKeepInv(s: State, events: seq<Event>)
    requires Inv(s)
    ensures Inv(RunFrom(Step, s, events))
  {
    forall x, e | Inv(x) ensures Inv(Step(x, e)) { StepKeepsInv(x, e); }
    RunFromKeeps(Step, Inv, s, events);
  }

  // ----- When an identity, the cache and the lease are good -----

  /** An identity of the caller's Page, of one of the four kinds, and the one it named if it named one. */
  predicate Fits(id: Identity, r: Request) {
    && id.pageId == r.binding.pageId
    && (|| (id.kind == "page_only" && id.instagramUserId == None)
        || (&& id.kind in {"business", "connected", "page_backed"} && id.instagramUserId.Some?
            && 1 <= |id.instagramUserId.value| <= 32
            && forall i :: 0 <= i < |id.instagramUserId.value| ==> '0' <= id.instagramUserId.value[i] <= '9'))
    && (r.expected.Some? ==> id.instagramUserId == r.expected)
  }

  /** Projection answers with an identity exactly when the raw fields are those of one that fits. */
  lemma ProjectIffFits(raw: Raw, r: Request, id: Identity)
    ensures Project(raw, r) == Ok(id) <==>
      && Fits(id, r) && raw.pageId == Text(id.pageId) && raw.kind == Text(id.kind)
      && raw.instagramUserId == match id.instagramUserId case None => Null case Some(ig) => Text(ig)
  {
  }

  /** The row answers at once exactly when it was verified for this binding in the ten minutes up to the
      reading. */
  predicate VerifiedLately(s: State, r: Request, at: nat) {
    && r.key in s.rows
    && var row := s.rows[r.key];
       row.binding == r.binding && row.verifiedAt.Some? && row.verifiedAt.value <= at && at < row.verifiedAt.value + 600_000
  }

  lemma LookupIs(s: State, c: nat)
    requires c in s.callers && s.callers[c].pc.Looking?
    ensures var r, pc, t := s.callers[c].request, s.callers[c].pc, Step(s, Lookup(c));
      && t.rows == s.rows
      && t.callers[c].pc == (if VerifiedLately(s, r, pc.at) then Finished else Claiming(pc.at, pc.tries))
  {
  }

  /** The lease is there to take: no row, or none that still runs and nothing verified in the last ten
      minutes for this binding. */
  predicate LeaseEnded(s: State, r: Request, at: nat) {
    r.key in s.rows ==>
      var row := s.rows[r.key];
      && (row.claimUntil.None? || row.claimUntil.value <= at)
      && (row.verifiedAt.None? || row.binding != r.binding || row.verifiedAt.value + 600_000 <= at)
  }

  /** A caller at its claim takes the lease, for two minutes and under a new token, if and only if it is
      there to take; otherwise it changes nothing and tries again, fifty times in all. */
  lemma ClaimTakesIff(s: State, c: nat)
    requires c in s.callers && s.callers[c].pc.Claiming?
    ensures var r, pc, t := s.callers[c].request, s.callers[c].pc, Step(s, Claim(c));
      if LeaseEnded(s, r, pc.at) then
        && r.key in t.rows && t.owners == s.owners + [c] && t.rows == s.rows[r.key := t.rows[r.key]]
        && var row := t.rows[r.key];
           && row.binding == r.binding && row.verifiedAt == None
           && row.claimToken == Some(|s.owners|) && row.claimUntil == Some(pc.at + 120_000)
           && row.identity == (if r.key in s.rows && s.rows[r.key].binding == r.binding then s.rows[r.key].identity else None)
      else t.rows == s.rows && t.owners == s.owners
           && t.callers[c].pc == (if pc.tries + 1 < 50 then Reading(pc.tries + 1) else Finished)
  {
  }

  // ----- Main results: agreement -----

  /** Two callers of one operation that return within one binding epoch return the same Instagram id. */
  lemma SameEpochSameId(events: seq<Event>, i: nat, j: nat)
    requires var s := Run(events);
      i < |s.replies| && j < |s.replies|
      && s.replies[i].request.key == s.replies[j].request.key && s.replies[i].epoch == s.replies[j].epoch
    ensures var p, q := Run(events).replies[i], Run(events).replies[j];
      p.identity.instagramUserId == q.identity.instagramUserId && p.request.binding == q.request.binding
  {
    var s := Run(events);
    RunsKeepInv(INITIAL, events);
    if i < j { assert Agree(s.replies[i], s.replies[j]); }
    if j < i { assert Agree(s.replies[j], s.replies[i]); }
  }

  /** Every returned identity is well formed for its page, is the one the caller named if it named one,
      and was named by the provider for the same binding less than ten minutes before. */
  lemma RepliesAreFresh(events: seq<Event>, i: nat)
    requires i < |Run(events).replies|
    ensures var p := Run(events).replies[i];
      && Fresh(Run(events), p) && WellFormed(p.identity, p.request.binding.pageId)
      && (p.request.expected.Some? ==> p.identity.instagramUserId == p.request.expected)
  {
    RunsKeepInv(INITIAL, events);
    assert ReplyOk(Run(events), Run(events).replies[i]);
  }

  /** A verified row has its identity and no live claim. */
  lemma VerifiedRowIsSettled(events: seq<Event>, key: Key)
    requires key in Run(events).rows && Run(events).rows[key].verifiedAt.Some?
    ensures var row := Run(events).rows[key]; row.identity.Some? && row.claimToken.None? && row.claimUntil.None?
  {
    RunsKeepInv(INITIAL, events);
    assert RowOk(Run(events), key);
  }

  // ----- Main results: the pin -----

  /** An epoch ends exactly when the binding changes, and only a claim ends it. */
  lemma EpochIsBinding(s: State, e: Event, key: Key)
    requires key in s.rows
    ensures var t := Step(s, e);
      && key in t.rows && PinKept(s.rows[key], t.rows[key])
      && (t.rows[key].epoch == s.rows[key].epoch <==> t.rows[key].binding == s.rows[key].binding)
      && (t.rows[key].epoch != s.rows[key].epoch ==> e.Claim?)
  {
  }

  /** Rows stay, and a pinned id survives every failed attempt, expiry and retry until the binding changes. */
  lemma {:induction false} PinStands(events: seq<Event>, more: seq<Event>, key: Key)
    requires key in Run(events).rows
    ensures key in Run(events + more).rows && PinKept(Run(events).rows[key], Run(events + more).rows[key])
  {
    if more == [] {
      assert events + more == events;
    } else {
      var last := |more| - 1;
      PinStands(events, more[..last], key);
      assert events + more == events + more[..last] + [more[last]];
      RunFromSnoc(Step, INITIAL, events + more[..last], more[last]);
      EpochIsBinding(Run(events + more[..last]), more[last], key);
    }
  }

  // ----- Main results: the lease -----

  /** An overtaken holder changes no row and returns nothing. */
  lemma OvertakenWritesNothing(s: State, c: nat, e: Event)
    requires c in s.callers && TokenOf(s.callers[c].pc).Some? && !e.Tick? && e.c == c
    requires !Current(s.rows, s.callers[c].request, TokenOf(s.callers[c].pc).value)
    ensures Step(s, e).rows == s.rows && Step(s, e).replies == s.replies
  {
  }

  /** A save is refused only to an overtaken holder: its identity guard never refuses one. */
  lemma SavesIffCurrent(events: seq<Event>, c: nat)
    requires c in Run(events).callers && Run(events).callers[c].pc.Saving?
    ensures var s := Run(events); var r, pc := s.callers[c].request, s.callers[c].pc;
      && (Saves(s.rows, r, pc.token, pc.identity) <==> r.key in s.rows && s.rows[r.key].claimToken == Some(pc.token))
      && (Saves(s.rows, r, pc.token, pc.identity) ==>
            Step(s, Save(c, Ran)).replies == s.replies + [Reply(r, pc.identity, pc.savedAt, s.rows[r.key].epoch)])
  {
    RunsKeepInv(INITIAL, events);
    assert CallerOk(Run(events), c);
  }

  /** A save whose answer is lost still settles the row: it is verified with no claim, and the release of
      the caller that throws changes nothing. */
  lemma LostSaveStands(s: State, c: nat, ran: bool)
    requires Inv(s) && c in s.callers && s.callers[c].pc.Saving?
    requires Current(s.rows, s.callers[c].request, s.callers[c].pc.token)
    ensures var r, pc, t := s.callers[c].request, s.callers[c].pc, Step(s, Save(c, AnswerLost));
      && t.replies == s.replies && r.key in t.rows
      && t.rows[r.key] == Row(r.binding, Some(pc.identity), Some(pc.savedAt), None, None, s.rows[r.key].epoch)
      && Step(t, Release(c, ran)).rows == t.rows
  {
    assert CallerOk(s, c);
  }

  predicate Holds(s: State, c: nat, until: nat) {
    && c in s.callers && TokenOf(s.callers[c].pc).Some?
    && Current(s.rows, s.callers[c].request, TokenOf(s.callers[c].pc).value)
    && s.rows[s.callers[c].request.key].claimUntil == Some(until)
  }

  predicate LetsGo(e: Event, c: nat) {
    (e.Save? || e.Release? || e.Crash?) && e.c == c
  }

  lemma LeaseSurvivesStep(s: State, e: Event, c: nat, until: nat)
    requires Inv(s) && Holds(s, c, until) && s.now < until && !LetsGo(e, c)
    ensures var t := Step(s, e);
      && Holds(t, c, until) && t.callers[c].request == s.callers[c].request
      && t.rows[s.callers[c].request.key] == s.rows[s.callers[c].request.key]
      && TokenOf(t.callers[c].pc) == TokenOf(s.callers[c].pc)
  {
    assert CallerOk(s, c);
    if !e.Tick? && e.c != c && e.c in s.callers {
      assert CallerOk(s, e.c);
      OtherStepKeepsLease(s, e, c, until);
    }
  }

  lemma OtherStepKeepsLease(s: State, e: Event, c: nat, until: nat)
    requires Inv(s) && Holds(s, c, until) && s.now < until && !e.Tick? && e.c != c && e.c in s.callers && CallerOk(s, e.c)
    ensures var t := Step(s, e); var key := s.callers[c].request.key;
      c in t.callers && t.callers[c] == s.callers[c] && key in t.rows && t.rows[key] == s.rows[key]
  {
    assert CallerOk(s, c);
  }

  /** Until its lease expires the row is its holder's alone: whatever the others do, and however late
      their clocks, it stays as claimed, so a holder that answers in time saves. */
  lemma {:induction false} LeaseExcludes(events: seq<Event>, more: seq<Event>, c: nat, until: nat)
    requires Holds(Run(events), c, until) && Run(events + more).now < until
    requires forall i :: 0 <= i < |more| ==> !LetsGo(more[i], c)
    ensures var s, t := Run(events), Run(events + more); var key := s.callers[c].request.key;
      && Holds(t, c, until) && t.callers[c].request == s.callers[c].request && t.rows[key] == s.rows[key]
      && TokenOf(t.callers[c].pc) == TokenOf(s.callers[c].pc)
  {
    if more == [] {
      assert events + more == events;
    } else {
      var last := |more| - 1;
      var before := events + more[..last];
      assert events + more == before + [more[last]];
      RunFromSnoc(Step, INITIAL, before, more[last]);
      ClockRises(Run(before), more[last]);
      LeaseExcludes(events, more[..last], c, until);
      RunsKeepInv(INITIAL, before);
      LeaseSurvivesStep(Run(before), more[last], c, until);
    }
  }

  lemma ClockRises(s: State, e: Event)
    ensures s.now <= Step(s, e).now
  {
  }
}
