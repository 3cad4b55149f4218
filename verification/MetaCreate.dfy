/** Claim-before-create. Any number of `runMetaCreate` callers interleave, one SQL statement or one
    provider call at a time, and may stop for good between any two of them. */
module MetaCreate {
  import opened Options
  import opened Runs

  datatype Key = Key(workspace: string, source: string, clientToken: string)
  datatype Binding = Binding(actor: string, intentHash: string)

  /** `local` is the actor and intent of a local create; a hosted one has none. */
  datatype Request = Request(key: Key, entity: string, account: string, local: Option<Binding>)

  /** A `meta_write_dedup` row. Claim ids are unique: a claim is the number of the insert that won. */
  datatype Row = Row(claim: nat, entity: string, binding: Option<Binding>, entityId: Option<string>)

  // ----- Diagnostics -----

  datatype Phase = NotDispatched | ProviderResponse | DispatchUnknown
  datatype Result = Refused | Throttled | Temporary | Unknown

  /** `rateLimited`: the error is a publishing error coded provider_rate_limited. */
  datatype Diagnostic = Diagnostic(
    phase: Phase, outcome: Result, code: Option<int>, subcode: Option<int>, httpStatus: Option<int>, rateLimited: bool)

  predicate Releasable(d: Diagnostic) {
    d.phase.NotDispatched? || (d.phase.ProviderResponse? && (d.outcome.Refused? || d.outcome.Throttled?))
  }

  predicate ThrottleCode(code: int) {
    code == 4 || code == 17 || code == 32 || code == 613 || 80000 <= code <= 80014
  }

  predicate ObservedThrottle(d: Diagnostic) {
    && !d.phase.NotDispatched?
    && (d.outcome.Throttled? || d.httpStatus == Some(429) || d.subcode == Some(2446079)
        || (d.code.Some? && ThrottleCode(d.code.value)))
  }

  /** The cooldown row is written for these ... */
  predicate RecordsHold(d: Diagnostic) {
    ObservedThrottle(d) || d.rateLimited
  }

  /** ... and a failed audit row reads as a hold for these. */
  predicate AuditHolds(d: Diagnostic) {
    ObservedThrottle(d) || (d.rateLimited && d.phase.NotDispatched?)
  }

  // ----- State -----

  const HOLD_MS: nat := 45 * 60_000

  datatype Audit = Audit(account: string, at: nat)
  datatype Post = Post(key: Key, account: string, isLocal: bool, at: nat)
  datatype Create = Create(key: Key, claim: nat, id: string)
  datatype OkReply = OkReply(request: Request, id: string, deduped: bool)
  datatype Claim = Claim(caller: nat, key: Key)

  /** A local create that failed as throttled: when, under which claim, after how many posts, and how. */
  datatype Throttle = Throttle(key: Key, account: string, claim: nat, at: nat, after: nat, d: Diagnostic)

  /** Where a caller is: the statement it is about to run. */
  datatype Pc =
    | Claiming
    | Conflicted
    | DedupHit(id: string)
    | Won(claim: nat)
    | Sending(claim: nat, checkedAt: nat)
    | Created(claim: nat, id: string)
    | Backfilled(claim: nat, id: string)
    | Failing(claim: nat, d: Diagnostic)
    | Recorded(claim: nat, d: Diagnostic, recorded: bool)
    | Auditing(claim: nat, d: Diagnostic, recorded: bool)
    | Audited(claim: nat, d: Diagnostic, recorded: bool, audited: bool)
    | Finished

  datatype Caller = Caller(request: Request, pc: Pc)

  /** The tables, the provider's and the callers' records, and the clock. Only `rows`, `cooldown` and
      `audits` are stored; `claims`, `posts`, `creates`, `replies` and `throttles` are history. */
  datatype State = State(
    now: nat, rows: map<Key, Row>, cooldown: map<string, nat>, audits: seq<Audit>,
    callers: map<nat, Caller>, claims: seq<Claim>, posts: seq<Post>, creates: seq<Create>,
    replies: seq<OkReply>, throttles: seq<Throttle>)

  const INITIAL: State := State(0, map[], map[], [], map[], [], [], [], [], [])

  /** One provider write: whether it created, and what came back (None: the caller died waiting). */
  datatype Answer = Id(id: string) | Threw(d: Diagnostic) | NoAnswer(created: Option<string>) | LostId(id: string, d: Diagnostic)

  datatype Event =
    | Tick(ms: nat)
    | Start(c: nat, request: Request)
    | Insert(c: nat)
    | Select(c: nat)
    | ReplyDeduped(c: nat)
    | CheckCooldown(c: nat, broke: bool, d: Diagnostic)
    | Write(c: nat, answer: Answer)
    | Resolve(c: nat)
    | ReplyCreated(c: nat)
    | RecordCooldown(c: nat, db: Db)
    | Release(c: nat, db: Db)
    | WriteAudit(c: nat, db: Db)
    | ReleaseLate(c: nat, db: Db)
    | Crash(c: nat)

  // ----- Tables -----

  /** `insert ... on conflict do nothing`. */
  function InsertRow(rows: map<Key, Row>, r: Request, claim: nat): map<Key, Row> {
    if r.key in rows then rows else rows[r.key := Row(claim, r.entity, r.local, None)]
  }

  /** `update ... set entity_id where id`. */
  function ResolveRow(rows: map<Key, Row>, key: Key, claim: nat, id: string): map<Key, Row> {
    if key in rows && rows[key].claim == claim then rows[key := rows[key].(entityId := Some(id))] else rows
  }

  /** `delete ... where id and entity_id is null`. */
  function ReleaseRow(rows: map<Key, Row>, key: Key, claim: nat): map<Key, Row> {
    if key in rows && rows[key].claim == claim && rows[key].entityId.None? then rows - {key} else rows
  }

  /** JavaScript white space. */
  predicate BlankId(id: string) {
    forall i :: 0 <= i < |id| ==>
      var c := id[i] as int;
      9 <= c <= 13 || c == 32 || c == 0xA0 || c == 0x1680 || 0x2000 <= c <= 0x200A || c == 0x2028 || c == 0x2029
      || c == 0x202F || c == 0x205F || c == 0x3000 || c == 0xFEFF
  }

  /** A local caller must have written the row itself: same entity, actor and intent. */
  predicate SameOperation(row: Row, r: Request) {
    r.local.None? || (row.entity == r.entity && row.binding == r.local)
  }

  predicate Held(s: State, account: string, at: nat) {
    || (account in s.cooldown && s.cooldown[account] > at)
    || exists i :: 0 <= i < |s.audits| && s.audits[i].account == account && s.audits[i].at <= at < s.audits[i].at + HOLD_MS
  }

  function Raise(cooldown: map<string, nat>, account: string, until: nat): map<string, nat> {
    if account in cooldown && cooldown[account] >= until then cooldown else cooldown[account := until]
  }

  // ----- Steps -----

  function Goto(s: State, c: nat, pc: Pc): State
    requires c in s.callers
  {
    s.(callers := s.callers[c := s.callers[c].(pc := pc)])
  }

  function DoInsert(s: State, c: nat, r: Request): State
    requires c in s.callers
  {
    if r.key in s.rows then Goto(s, c, Conflicted)
    else
      var claim := |s.claims|;
      Goto(s.(rows := InsertRow(s.rows, r, claim), claims := s.claims + [Claim(c, r.key)]), c, Won(claim))
  }

  function DoSelect(s: State, c: nat, r: Request): State
    requires c in s.callers
  {
    if r.key in s.rows && SameOperation(s.rows[r.key], r) && s.rows[r.key].entityId.Some?
       && !BlankId(s.rows[r.key].entityId.value)
      then Goto(s, c, DedupHit(s.rows[r.key].entityId.value))
    else Goto(s, c, Finished)  // conflict, or pending: thrown
  }

  /** `broke`: the credential or the cooldown query failed; either way nothing was sent. */
  function DoCheck(s: State, c: nat, r: Request, claim: nat, broke: bool, d: Diagnostic): State
    requires c in s.callers
  {
    if broke || (r.local.Some? && Held(s, r.account, s.now)) then Goto(s, c, Failing(claim, d))
    else Goto(s, c, Sending(claim, s.now))
  }

  /** An honest diagnostic: one that permits a release comes only with no create. */
  function DoWrite(s: State, c: nat, r: Request, claim: nat, answer: Answer): State
    requires c in s.callers
  {
    var sent := s.(posts := s.posts + [Post(r.key, r.account, r.local.Some?, s.now)]);
    match answer
    case Id(id) => Goto(sent.(creates := s.creates + [Create(r.key, claim, id)]), c, Created(claim, id))
    case NoAnswer(Some(id)) => Goto(sent.(creates := s.creates + [Create(r.key, claim, id)]), c, Finished)
    case NoAnswer(None) => Goto(sent, c, Finished)
    case LostId(id, d) =>
      if Releasable(d) then s
      else Fail(sent.(creates := s.creates + [Create(r.key, claim, id)]), c, r, claim, d)
    case Threw(d) => Fail(sent, c, r, claim, d)
  }

  function Fail(s: State, c: nat, r: Request, claim: nat, d: Diagnostic): State
    requires c in s.callers
  {
    var failed := Goto(s, c, Failing(claim, d));
    if r.local.Some? && RecordsHold(d)
      then failed.(throttles := s.throttles + [Throttle(r.key, r.account, claim, s.now, |s.posts|, d)])
    else failed
  }

  function DoRecord(s: State, c: nat, r: Request, claim: nat, d: Diagnostic, db: Db): State
    requires c in s.callers
  {
    if r.local.None? || !RecordsHold(d) then Goto(s, c, Recorded(claim, d, true))
    else
      var cooldown := if db.NotRun? then s.cooldown else Raise(s.cooldown, r.account, s.now + HOLD_MS);
      Goto(s.(cooldown := cooldown), c, Recorded(claim, d, db.Ran?))
  }

  function DoRelease(s: State, c: nat, key: Key, claim: nat, allowed: bool, db: Db, next: Pc): State
    requires c in s.callers
  {
    if allowed && !db.NotRun? then Goto(s.(rows := ReleaseRow(s.rows, key, claim)), c, next) else Goto(s, c, next)
  }

  function DoAudit(s: State, c: nat, r: Request, claim: nat, d: Diagnostic, recorded: bool, db: Db): State
    requires c in s.callers
  {
    var audits := if r.local.Some? && AuditHolds(d) && !db.NotRun? then s.audits + [Audit(r.account, s.now)] else s.audits;
    Goto(s.(audits := audits), c, Audited(claim, d, recorded, db.Ran?))
  }

  function DoResolve(s: State, c: nat, key: Key, claim: nat, id: string): State
    requires c in s.callers
  {
    Goto(s.(rows := ResolveRow(s.rows, key, claim, id)), c, Backfilled(claim, id))
  }

  function DoReply(s: State, c: nat, reply: OkReply): State
    requires c in s.callers
  {
    Goto(s.(replies := s.replies + [reply]), c, Finished)
  }

  /** One step; an event whose caller is not at its statement changes nothing. */
  function Step(s: State, e: Event): State {
    match e
    case Tick(ms) => s.(now := s.now + ms)
    case Start(c, request) =>
      if c in s.callers then s else s.(callers := s.callers[c := Caller(request, Claiming)])
    case _ =>
      if e.c !in s.callers then s else CallerStep(s, e, s.callers[e.c].request, s.callers[e.c].pc)
  }

  function CallerStep(s: State, e: Event, r: Request, pc: Pc): State
    requires !e.Tick? && e.c in s.callers
  {
    match e
    case Insert(c) => if pc.Claiming? then DoInsert(s, c, r) else s
    case Select(c) => if pc.Conflicted? then DoSelect(s, c, r) else s
    case ReplyDeduped(c) => if pc.DedupHit? then DoReply(s, c, OkReply(r, pc.id, true)) else s
    case CheckCooldown(c, broke, d) => if pc.Won? then DoCheck(s, c, r, pc.claim, broke, d) else s
    case Write(c, answer) => if pc.Sending? then DoWrite(s, c, r, pc.claim, answer) else s
    case Resolve(c) => if pc.Created? then DoResolve(s, c, r.key, pc.claim, pc.id) else s
    case ReplyCreated(c) => if pc.Backfilled? then DoReply(s, c, OkReply(r, pc.id, false)) else s
    case RecordCooldown(c, db) => if pc.Failing? then DoRecord(s, c, r, pc.claim, pc.d, db) else s
    case Release(c, db) =>
      if pc.Recorded?
        then DoRelease(s, c, r.key, pc.claim, pc.recorded && Releasable(pc.d), db, Auditing(pc.claim, pc.d, pc.recorded))
      else s
    case WriteAudit(c, db) => if pc.Auditing? then DoAudit(s, c, r, pc.claim, pc.d, pc.recorded, db) else s
    case ReleaseLate(c, db) =>
      if pc.Audited?
        then DoRelease(s, c, r.key, pc.claim, !pc.recorded && pc.audited && Releasable(pc.d), db, Finished)
      else s
    case Crash(c) => Goto(s, c, Finished)
    case Start(_, _) => s
  }

  function Run(events: seq<Event>): State {
    RunFrom(Step, INITIAL, events)
  }

  // ----- Invariant: one create per key -----

  function ClaimOf(pc: Pc): Option<nat> {
    match pc
    case Won(n) => Some(n)
    case Sending(n, _) => Some(n)
    case Created(n, _) => Some(n)
    case Backfilled(n, _) => Some(n)
    case Failing(n, _) => Some(n)
    case Recorded(n, _, _) => Some(n)
    case Auditing(n, _, _) => Some(n)
    case Audited(n, _, _, _) => Some(n)
    case _ => None
  }

  function DiagnosticOf(pc: Pc): Option<Diagnostic> {
    match pc
    case Failing(_, d) => Some(d)
    case Recorded(_, d, _) => Some(d)
    case Auditing(_, d, _) => Some(d)
    case Audited(_, d, _, _) => Some(d)
    case _ => None
  }

  predicate Owns(s: State, claim: nat, c: nat, key: Key) {
    claim < |s.claims| && s.claims[claim] == Claim(c, key)
  }

  predicate CreatedUnder(s: State, claim: nat) {
    exists i :: 0 <= i < |s.creates| && s.creates[i].claim == claim
  }

  predicate HoldsRow(s: State, key: Key, claim: nat) {
    key in s.rows && s.rows[key].claim == claim
  }

  predicate HoldsOwn(s: State, r: Request, claim: nat, id: Option<string>) {
    HoldsRow(s, r.key, claim) && s.rows[r.key] == Row(claim, r.entity, r.local, id)
  }

  predicate CallerOk(s: State, c: nat)
    requires c in s.callers
  {
    var r, pc := s.callers[c].request, s.callers[c].pc;
    && (ClaimOf(pc).Some? ==> Owns(s, ClaimOf(pc).value, c, r.key))
    && (match pc
        case Won(n) => HoldsOwn(s, r, n, None) && !CreatedUnder(s, n)
        case Sending(n, _) => HoldsOwn(s, r, n, None) && !CreatedUnder(s, n)
        case Created(n, id) => HoldsOwn(s, r, n, None) && Create(r.key, n, id) in s.creates
        case Backfilled(n, id) => HoldsOwn(s, r, n, Some(id))
        case DedupHit(id) => r.key in s.rows && s.rows[r.key].entityId == Some(id) && SameOperation(s.rows[r.key], r)
        case _ => true)
    && (DiagnosticOf(pc).Some? && Releasable(DiagnosticOf(pc).value) ==> !CreatedUnder(s, ClaimOf(pc).value))
  }

  predicate RowOk(s: State, key: Key)
    requires key in s.rows
  {
    var row := s.rows[key];
    && row.claim < |s.claims| && s.claims[row.claim].key == key
    && (row.entityId.Some? ==> Create(key, row.claim, row.entityId.value) in s.creates)
  }

  predicate CreatesOk(s: State) {
    && (forall i :: 0 <= i < |s.creates| ==> HoldsRow(s, s.creates[i].key, s.creates[i].claim))
    && forall i, j :: 0 <= i < j < |s.creates| ==> s.creates[i].claim != s.creates[j].claim
  }

  predicate ReplyOk(s: State, reply: OkReply) {
    && reply.request.key in s.rows && s.rows[reply.request.key].entityId == Some(reply.id)
    && SameOperation(s.rows[reply.request.key], reply.request)
  }

  predicate Inv(s: State) {
    && (forall c :: c in s.callers ==> CallerOk(s, c))
    && (forall key :: key in s.rows ==> RowOk(s, key))
    && CreatesOk(s)
    && forall i :: 0 <= i < |s.replies| ==> ReplyOk(s, s.replies[i])
  }

  /** What a step by `c`, holding `claim`, may do: touch only its own key's row, only while that row is
      its own claim or is new, never one that holds an id or stands for a create; create only under
      its own claim. */
  ghost predicate OwnEffects(s: State, t: State, c: nat, key: Key, claim: Option<nat>) {
    && (forall k :: k != key ==> (k in t.rows <==> k in s.rows) && (k in s.rows ==> t.rows[k] == s.rows[k]))
    && (key in s.rows && (claim != Some(s.rows[key].claim) || s.rows[key].entityId.Some?) ==>
      key in t.rows && t.rows[key] == s.rows[key])
    && (key in s.rows && CreatedUnder(s, s.rows[key].claim) ==> HoldsRow(t, key, s.rows[key].claim))
    && s.claims <= t.claims && s.creates <= t.creates && s.replies <= t.replies
    && (forall k :: k in s.callers && k != c ==> k in t.callers && t.callers[k] == s.callers[k])
    && (forall k :: k in t.callers && k != c ==> k in s.callers)
    && (forall i :: |s.creates| <= i < |t.creates| ==> claim == Some(t.creates[i].claim))
  }

  /** The part of the invariant the step itself must establish. */
  predicate OwnOk(s: State, t: State, c: nat, key: Key) {
    && c in t.callers && CallerOk(t, c)
    && (key in t.rows ==> RowOk(t, key))
    && (forall i :: |s.creates| <= i < |t.creates| ==>
          && HoldsRow(t, t.creates[i].key, t.creates[i].claim)
          && !CreatedUnder(s, t.creates[i].claim))
    && |t.creates| <= |s.creates| + 1
    && forall i :: |s.replies| <= i < |t.replies| ==> ReplyOk(t, t.replies[i])
  }

  lemma OthersKeep(s: State, t: State, c: nat, key: Key, claim: Option<nat>, other: nat)
    requires Inv(s) && OwnEffects(s, t, c, key, claim)
    requires claim.Some? ==> claim.value < |s.claims| && s.claims[claim.value].caller == c
    requires other in t.callers && other != c
    ensures CallerOk(t, other)
  {
    var r, pc := s.callers[other].request, s.callers[other].pc;
    assert CallerOk(s, other);
    if ClaimOf(pc).Some? {
      var n := ClaimOf(pc).value;
      assert claim != Some(n);
      assert CreatedUnder(t, n) ==> CreatedUnder(s, n);
      assert HoldsRow(s, r.key, n) ==> t.rows[r.key] == s.rows[r.key];
    }
  }

  lemma OwnStepKeepsInv(s: State, t: State, c: nat, key: Key, claim: Option<nat>)
    requires Inv(s) && OwnEffects(s, t, c, key, claim) && OwnOk(s, t, c, key)
    requires claim.Some? ==> claim.value < |s.claims| && s.claims[claim.value].caller == c
    ensures Inv(t)
  {
    forall other | other in t.callers ensures CallerOk(t, other) {
      if other != c { OthersKeep(s, t, c, key, claim, other); }
    }
    forall k | k in t.rows ensures RowOk(t, k) {
      if k != key { assert RowOk(s, k); }
    }
    forall i | 0 <= i < |t.creates| ensures HoldsRow(t, t.creates[i].key, t.creates[i].claim) {
      if i < |s.creates| {
        assert HoldsRow(s, s.creates[i].key, s.creates[i].claim);
        assert CreatedUnder(s, s.creates[i].claim);
      }
    }
    forall i | 0 <= i < |t.replies| ensures ReplyOk(t, t.replies[i]) {
      if i < |s.replies| { assert ReplyOk(s, s.replies[i]); }
    }
  }

  /** A step that leaves rows, claims, creates and replies alone, and moves its caller. */
  lemma QuietKeepsInv(s: State, c: nat, t: State)
    requires Inv(s) && c in s.callers && c in t.callers
    requires t.rows == s.rows && t.claims == s.claims && t.creates == s.creates && t.replies == s.replies
    requires t.callers == s.callers[c := s.callers[c].(pc := t.callers[c].pc)] && CallerOk(t, c)
    ensures Inv(t)
  {
    var key := s.callers[c].request.key;
    if key in s.rows { assert RowOk(s, key); }
    assert CallerOk(s, c);
    OwnStepKeepsInv(s, t, c, key, ClaimOf(s.callers[c].pc));
  }

  lemma InsertKeepsInv(s: State, c: nat)
    requires Inv(s) && c in s.callers && s.callers[c].pc.Claiming?
    ensures Inv(DoInsert(s, c, s.callers[c].request))
  {
    var r := s.callers[c].request;
    if r.key in s.rows {
      QuietKeepsInv(s, c, DoInsert(s, c, r));
    } else {
      var t := DoInsert(s, c, r);
      forall i | 0 <= i < |s.creates| ensures s.creates[i].claim != |s.claims| {
        assert HoldsRow(s, s.creates[i].key, s.creates[i].claim) && RowOk(s, s.creates[i].key);
      }
      OwnStepKeepsInv(s, t, c, r.key, None);
    }
  }

  lemma CreateKeepsInv(s: State, c: nat, t: State, id: string)
    requires Inv(s) && c in s.callers && s.callers[c].pc.Sending? && c in t.callers
    requires var r, claim, pc := s.callers[c].request, s.callers[c].pc.claim, t.callers[c].pc;
      && t.rows == s.rows && t.claims == s.claims && t.replies == s.replies
      && t.callers == s.callers[c := Caller(r, pc)]
      && t.creates == s.creates + [Create(r.key, claim, id)]
      && (pc == Created(claim, id) || pc == Finished || (pc.Failing? && pc.claim == claim && !Releasable(pc.d)))
    ensures Inv(t)
  {
    var r, claim := s.callers[c].request, s.callers[c].pc.claim;
    assert CallerOk(s, c) && RowOk(s, r.key);
    assert t.creates[|s.creates|] == Create(r.key, claim, id);
    OwnStepKeepsInv(s, t, c, r.key, Some(claim));
  }

  lemma WriteKeepsInv(s: State, c: nat, answer: Answer)
    requires Inv(s) && c in s.callers && s.callers[c].pc.Sending?
    ensures Inv(DoWrite(s, c, s.callers[c].request, s.callers[c].pc.claim, answer))
  {
    var t := DoWrite(s, c, s.callers[c].request, s.callers[c].pc.claim, answer);
    assert CallerOk(s, c);
    match answer
    case Id(id) => CreateKeepsInv(s, c, t, id);
    case NoAnswer(Some(id)) => CreateKeepsInv(s, c, t, id);
    case LostId(id, d) => if !Releasable(d) { CreateKeepsInv(s, c, t, id); }
    case _ => QuietKeepsInv(s, c, t);
  }

  lemma ResolveKeepsInv(s: State, c: nat)
    requires Inv(s) && c in s.callers && s.callers[c].pc.Created?
    ensures Inv(DoResolve(s, c, s.callers[c].request.key, s.callers[c].pc.claim, s.callers[c].pc.id))
  {
    var r, claim := s.callers[c].request, s.callers[c].pc.claim;
    assert CallerOk(s, c) && RowOk(s, r.key);
    OwnStepKeepsInv(s, DoResolve(s, c, r.key, claim, s.callers[c].pc.id), c, r.key, Some(claim));
  }

  lemma ReleaseKeepsInv(s: State, c: nat, allowed: bool, db: Db, next: Pc)
    requires Inv(s) && c in s.callers && DiagnosticOf(s.callers[c].pc).Some?
    requires allowed ==> Releasable(DiagnosticOf(s.callers[c].pc).value)
    requires next.Finished? || (ClaimOf(next) == ClaimOf(s.callers[c].pc) && DiagnosticOf(next) == DiagnosticOf(s.callers[c].pc))
    requires next.Finished? || next.Auditing?
    ensures Inv(DoRelease(s, c, s.callers[c].request.key, ClaimOf(s.callers[c].pc).value, allowed, db, next))
  {
    var key, claim := s.callers[c].request.key, ClaimOf(s.callers[c].pc).value;
    var t := DoRelease(s, c, key, claim, allowed, db, next);
    assert CallerOk(s, c);
    if key in s.rows { assert RowOk(s, key); }
    OwnStepKeepsInv(s, t, c, key, Some(claim));
  }

  lemma StepKeepsInv(s: State, e: Event)
    requires Inv(s)
    ensures Inv(Step(s, e))
  {
    match e
    case Tick(ms) =>
      var t := Step(s, e);
      forall c | c in t.callers ensures CallerOk(t, c) { assert CallerOk(s, c); }
      forall k | k in t.rows ensures RowOk(t, k) { assert RowOk(s, k); }
      forall i | 0 <= i < |t.replies| ensures ReplyOk(t, t.replies[i]) { assert ReplyOk(s, s.replies[i]); }
    case Start(c, request) =>
      if c !in s.callers {
        if request.key in s.rows { assert RowOk(s, request.key); }
        OwnStepKeepsInv(s, Step(s, e), c, request.key, None);
      }
    case _ =>
      if e.c in s.callers { CallerStepKeepsInv(s, e); }
  }

  lemma SelectKeepsInv(s: State, c: nat)
    requires Inv(s) && c in s.callers && s.callers[c].pc.Conflicted?
    ensures Inv(DoSelect(s, c, s.callers[c].request))
  {
    QuietKeepsInv(s, c, DoSelect(s, c, s.callers[c].request));
  }

  lemma CheckKeepsInv(s: State, c: nat, broke: bool, d: Diagnostic)
    requires Inv(s) && c in s.callers && s.callers[c].pc.Won?
    ensures Inv(DoCheck(s, c, s.callers[c].request, s.callers[c].pc.claim, broke, d))
  {
    assert CallerOk(s, c);
    QuietKeepsInv(s, c, DoCheck(s, c, s.callers[c].request, s.callers[c].pc.claim, broke, d));
  }

  lemma RecordKeepsInv(s: State, c: nat, db: Db)
    requires Inv(s) && c in s.callers && s.callers[c].pc.Failing?
    ensures Inv(DoRecord(s, c, s.callers[c].request, s.callers[c].pc.claim, s.callers[c].pc.d, db))
  {
    assert CallerOk(s, c);
    QuietKeepsInv(s, c, DoRecord(s, c, s.callers[c].request, s.callers[c].pc.claim, s.callers[c].pc.d, db));
  }

  lemma AuditKeepsInv(s: State, c: nat, db: Db)
    requires Inv(s) && c in s.callers && s.callers[c].pc.Auditing?
    ensures var pc := s.callers[c].pc; Inv(DoAudit(s, c, s.callers[c].request, pc.claim, pc.d, pc.recorded, db))
  {
    var pc := s.callers[c].pc;
    assert CallerOk(s, c);
    QuietKeepsInv(s, c, DoAudit(s, c, s.callers[c].request, pc.claim, pc.d, pc.recorded, db));
  }

  lemma CrashKeepsInv(s: State, c: nat)
    requires Inv(s) && c in s.callers
    ensures Inv(Goto(s, c, Finished))
  {
    QuietKeepsInv(s, c, Goto(s, c, Finished));
  }

  lemma CallerStepKeepsInv(s: State, e: Event)
    requires Inv(s) && !e.Tick? && e.c in s.callers
    ensures Inv(CallerStep(s, e, s.callers[e.c].request, s.callers[e.c].pc))
  {
    var r, pc := s.callers[e.c].request, s.callers[e.c].pc;
    match e
    case Insert(c) => if pc.Claiming? { InsertKeepsInv(s, c); }
    case Select(c) => if pc.Conflicted? { SelectKeepsInv(s, c); }
    case ReplyDeduped(c) =>
      assert CallerOk(s, c);
      if pc.DedupHit? { ReplyKeepsInv(s, c, OkReply(r, pc.id, true)); }
    case CheckCooldown(c, broke, d) => if pc.Won? { CheckKeepsInv(s, c, broke, d); }
    case Write(c, answer) => if pc.Sending? { WriteKeepsInv(s, c, answer); }
    case Resolve(c) => if pc.Created? { ResolveKeepsInv(s, c); }
    case ReplyCreated(c) =>
      assert CallerOk(s, c);
      if pc.Backfilled? { ReplyKeepsInv(s, c, OkReply(r, pc.id, false)); }
    case RecordCooldown(c, db) => if pc.Failing? { RecordKeepsInv(s, c, db); }
    case Release(c, db) =>
      if pc.Recorded? {
        ReleaseKeepsInv(s, c, pc.recorded && Releasable(pc.d), db, Auditing(pc.claim, pc.d, pc.recorded));
      }
    case WriteAudit(c, db) => if pc.Auditing? { AuditKeepsInv(s, c, db); }
    case ReleaseLate(c, db) =>
      if pc.Audited? { ReleaseKeepsInv(s, c, !pc.recorded && pc.audited && Releasable(pc.d), db, Finished); }
    case Crash(c) => CrashKeepsInv(s, c);
    case Start(_, _) =>
  }

  lemma ReplyKeepsInv(s: State, c: nat, reply: OkReply)
    requires Inv(s) && c in s.callers && ReplyOk(s, reply)
    ensures Inv(DoReply(s, c, reply))
  {
    var key := s.callers[c].request.key;
    if key in s.rows { assert RowOk(s, key); }
    OwnStepKeepsInv(s, DoReply(s, c, reply), c, key, None);
  }

  lemma RunKeepsInv(events: seq<Event>)
    ensures Inv(Run(events))
  {
    forall s, e | Inv(s) ensures Inv(Step(s, e)) { StepKeepsInv(s, e); }
    RunFromKeeps(Step, Inv, INITIAL, events);
  }

  // ----- Main results: at most one create, one id -----

  /** In every interleaving of any number of callers, crashes included, the provider creates at most
      once per key. */
  lemma AtMostOneCreate(events: seq<Event>, i: nat, j: nat)
    requires i < |Run(events).creates| && j < |Run(events).creates|
    requires Run(events).creates[i].key == Run(events).creates[j].key
    ensures i == j
  {
    var s := Run(events);
    RunKeepsInv(events);
    assert HoldsRow(s, s.creates[i].key, s.creates[i].claim) && HoldsRow(s, s.creates[j].key, s.creates[j].claim);
  }

  /** Every ok reply for one key carries the same id, deduped or not, and it is the id the provider
      created; local callers that get it named the same entity, actor and intent. */
  lemma RepliesAgree(events: seq<Event>, i: nat, j: nat)
    requires i < |Run(events).replies| && j < |Run(events).replies|
    requires Run(events).replies[i].request.key == Run(events).replies[j].request.key
    ensures var s := Run(events); var p, q := s.replies[i], s.replies[j];
      && p.id == q.id
      && (p.request.local.Some? && q.request.local.Some? ==>
            p.request.local == q.request.local && p.request.entity == q.request.entity)
      && exists k :: 0 <= k < |s.creates| && s.creates[k].key == p.request.key && s.creates[k].id == p.id
  {
    var s := Run(events);
    RunKeepsInv(events);
    assert ReplyOk(s, s.replies[i]) && ReplyOk(s, s.replies[j]) && RowOk(s, s.replies[i].request.key);
  }

  // ----- Main results: a proven failure frees its key -----

  /** After a failure that proves nothing was created, once the hold is recorded and the release has run,
      the claim no longer holds its key, and the next caller of the key that inserts wins. */
  lemma ProvenFailureFreesKey(events: seq<Event>, c: nat)
    requires c in Run(events).callers && Run(events).callers[c].pc.Failing?
    requires var d := Run(events).callers[c].pc.d;
      d.phase == NotDispatched || (d.phase == ProviderResponse && (d.outcome == Refused || d.outcome == Throttled))
    ensures var s, t := Run(events), Step(Step(Run(events), RecordCooldown(c, Ran)), Release(c, Ran));
      !HoldsRow(t, s.callers[c].request.key, s.callers[c].pc.claim)
  {
    var s := Run(events);
    var r, claim := s.callers[c].request, s.callers[c].pc.claim;
    RunKeepsInv(events);
    assert CallerOk(s, c);
    if r.key in s.rows { assert RowOk(s, r.key); }
    var recorded := Step(s, RecordCooldown(c, Ran));
    assert recorded.rows == s.rows && recorded.callers[c] == Caller(r, Recorded(claim, s.callers[c].pc.d, true));
  }

  /** A caller that inserts wins exactly when its key has no row. */
  lemma InsertWinsIff(s: State, c: nat)
    requires c in s.callers && s.callers[c].pc == Claiming
    ensures var t := Step(s, Insert(c)); var r := s.callers[c].request;
      && (t.callers[c].pc.Won? <==> r.key !in s.rows)
      && (t.callers[c].pc.Won? ==> t.rows == s.rows[r.key := Row(|s.claims|, r.entity, r.local, None)])
  {
  }

  // ----- Main results: what a row outlives -----

  lemma WriteTouchesOnlyItsCaller(s: State, c: nat, answer: Answer)
    ensures var t := Step(s, Write(c, answer));
      && t.rows == s.rows && t.claims == s.claims
      && (forall k :: k in s.callers && k != c ==> k in t.callers && t.callers[k] == s.callers[k])
      && (c in s.callers && s.callers[c].pc.Finished? ==> t == s)
  {
  }

  predicate ChangesRows(e: Event) {
    e.Insert? || e.Resolve? || e.Release? || e.ReleaseLate?
  }

  lemma OnlyTheseChangeRows(s: State, e: Event)
    requires !ChangesRows(e)
    ensures Step(s, e).rows == s.rows
  {
    if e.Write? { WriteTouchesOnlyItsCaller(s, e.c, e.answer); }
  }

  lemma OnlyReleaseDeletes(s: State, e: Event, key: Key)
    requires key in s.rows && !e.Release? && !e.ReleaseLate?
    ensures key in Step(s, e).rows
  {
    if !ChangesRows(e) { OnlyTheseChangeRows(s, e); }
  }

  lemma ReleaseTakesOwn(s: State, e: Event, key: Key)
    requires Inv(s) && key in s.rows && (e.Release? || e.ReleaseLate?) && e.c in s.callers && key !in Step(s, e).rows
    ensures var r, pc, row := s.callers[e.c].request, s.callers[e.c].pc, s.rows[key];
      && r.key == key && ClaimOf(pc) == Some(row.claim) && row.entityId.None?
      && DiagnosticOf(pc).Some? && Releasable(DiagnosticOf(pc).value) && !CreatedUnder(s, row.claim)
  {
    assert CallerOk(s, e.c);
  }

  /** A row leaves the table only by its own claimant's release, unresolved, after a failure that
      created nothing. */
  lemma OnlyOwnUnresolvedRowGoes(s: State, e: Event, key: Key)
    requires Inv(s) && key in s.rows && key !in Step(s, e).rows
    ensures (e.Release? || e.ReleaseLate?) && e.c in s.callers
    ensures var r, pc, row := s.callers[e.c].request, s.callers[e.c].pc, s.rows[key];
      && r.key == key && ClaimOf(pc) == Some(row.claim) && row.entityId.None?
      && DiagnosticOf(pc).Some? && Releasable(DiagnosticOf(pc).value) && !CreatedUnder(s, row.claim)
  {
    assert e.Release? || e.ReleaseLate? by {
      if !e.Release? && !e.ReleaseLate? { OnlyReleaseDeletes(s, e, key); }
    }
    ReleaseTakesOwn(s, e, key);
  }

  /** A caller whose claim fences the row, and that will run no further statement. */
  predicate Fenced(s: State, key: Key) {
    && key in s.rows && s.rows[key].claim < |s.claims|
    && var c := s.claims[s.rows[key].claim].caller;
       c in s.callers && s.callers[c].pc.Finished?
  }

  predicate Settled(s: State, key: Key) {
    key in s.rows && (s.rows[key].entityId.Some? || Fenced(s, key))
  }

  lemma StepTouchesOnlyItsCaller(s: State, e: Event)
    requires !e.Tick?
    ensures var t := Step(s, e);
      && s.claims <= t.claims
      && (forall k :: k in s.callers && k != e.c ==> k in t.callers && t.callers[k] == s.callers[k])
      && (e.c in s.callers && s.callers[e.c].pc.Finished? ==> t == s)
  {
    if e.Write? {
      WriteTouchesOnlyItsCaller(s, e.c, e.answer);
    } else if e.c in s.callers {
      NonWriteTouchesOnlyItsCaller(s, e);
    }
  }

  lemma NonWriteTouchesOnlyItsCaller(s: State, e: Event)
    requires !e.Tick? && !e.Write? && e.c in s.callers
    ensures var t := Step(s, e);
      && s.claims <= t.claims
      && (forall k :: k in s.callers && k != e.c ==> k in t.callers && t.callers[k] == s.callers[k])
      && (s.callers[e.c].pc.Finished? ==> t.callers == s.callers)
      && (s.callers[e.c].pc.Finished? ==> t == s)
  {
    if s.callers[e.c].pc.Finished? { assert s.callers[e.c := s.callers[e.c].(pc := Finished)] == s.callers; }
  }

  /** Only a claimant's resolve and releases change a row. */
  lemma RowChangesByClaimant(s: State, e: Event, key: Key)
    requires Inv(s) && key in s.rows && (e.Tick? || e.c !in s.callers || ClaimOf(s.callers[e.c].pc) != Some(s.rows[key].claim))
    ensures key in Step(s, e).rows && Step(s, e).rows[key] == s.rows[key]
  {
    if !ChangesRows(e) { OnlyTheseChangeRows(s, e); }
  }

  lemma ResolveKeepsResolved(s: State, c: nat, key: Key)
    requires Inv(s) && c in s.callers && key in s.rows && s.rows[key].entityId.Some?
    ensures key in Step(s, Resolve(c)).rows && Step(s, Resolve(c)).rows[key] == s.rows[key]
  {
    assert CallerOk(s, c) && RowOk(s, key);
  }

  lemma ResolvedRowStays(s: State, e: Event, key: Key)
    requires Inv(s) && key in s.rows && s.rows[key].entityId.Some?
    ensures key in Step(s, e).rows && Step(s, e).rows[key] == s.rows[key]
  {
    if !ChangesRows(e) {
      OnlyTheseChangeRows(s, e);
    } else if e.Resolve? && e.c in s.callers {
      ResolveKeepsResolved(s, e.c, key);
    }
  }

  /** A row that holds an id, or whose claimant is gone, is never deleted or changed. */
  lemma StepKeepsSettled(s: State, e: Event, key: Key)
    requires Inv(s) && Settled(s, key)
    ensures var t := Step(s, e); Settled(t, key) && t.rows[key] == s.rows[key]
  {
    assert RowOk(s, key);
    if s.rows[key].entityId.Some? {
      ResolvedRowStays(s, e, key);
    } else if !e.Tick? {
      StepTouchesOnlyItsCaller(s, e);
      if e.c in s.callers && !s.callers[e.c].pc.Finished? {
        assert CallerOk(s, e.c);
        RowChangesByClaimant(s, e, key);
      } else if e.c !in s.callers {
        RowChangesByClaimant(s, e, key);
      }
    }
  }

  /** So through every continuation the id stands, and a crashed winner's key can never be won again. */
  lemma {:induction false} SettledRowStands(events: seq<Event>, more: seq<Event>, key: Key)
    requires Settled(Run(events), key)
    ensures var s, t := Run(events), Run(events + more); Settled(t, key) && t.rows[key] == s.rows[key]
  {
    RunFromConcat(Step, INITIAL, events, more);
    if more == [] {
      assert events + more == events;
    } else {
      SettledRowStands(events, more[..|more| - 1], key);
      RunKeepsInv(events + more[..|more| - 1]);
      RunFromConcat(Step, INITIAL, events, more[..|more| - 1]);
      StepKeepsSettled(Run(events + more[..|more| - 1]), more[|more| - 1], key);
    }
  }

  predicate Outside(pc: Pc) {
    pc.Claiming? || pc.Conflicted? || pc.Finished?
  }

  lemma ForeignOwnStep(s: State, e: Event)
    requires !e.Tick? && !e.Write? && e.c in s.callers && Outside(s.callers[e.c].pc)
    requires s.callers[e.c].request.key in s.rows && !SameOperation(s.rows[s.callers[e.c].request.key], s.callers[e.c].request)
    ensures var c, t := e.c, Step(s, e); c in t.callers && t.callers[c].request == s.callers[c].request && Outside(t.callers[c].pc)
  {
  }

  lemma WriteOnlyWhenSending(s: State, c: nat, answer: Answer)
    requires c in s.callers && !s.callers[c].pc.Sending?
    ensures Step(s, Write(c, answer)) == s
  {
  }

  lemma ForeignStepStaysOutside(s: State, e: Event, c: nat)
    requires c in s.callers && Outside(s.callers[c].pc)
    requires s.callers[c].request.key in s.rows && !SameOperation(s.rows[s.callers[c].request.key], s.callers[c].request)
    ensures var t := Step(s, e); c in t.callers && t.callers[c].request == s.callers[c].request && Outside(t.callers[c].pc)
  {
    if !e.Tick? {
      if e.c != c {
        StepTouchesOnlyItsCaller(s, e);
      } else if e.Write? {
        WriteOnlyWhenSending(s, c, e.answer);
      } else {
        ForeignOwnStep(s, e);
      }
    }
  }

  /** A local caller whose entity, actor or intent is not the row's never claims the key, sends
      anything or gets the id, in any continuation. */
  lemma {:induction false} ForeignCallerGetsNothing(events: seq<Event>, more: seq<Event>, c: nat)
    requires c in Run(events).callers
    requires var r := Run(events).callers[c].request;
      && Outside(Run(events).callers[c].pc)
      && Settled(Run(events), r.key) && !SameOperation(Run(events).rows[r.key], r)
    ensures var s, t := Run(events), Run(events + more);
      c in t.callers && t.callers[c].request == s.callers[c].request && Outside(t.callers[c].pc)
  {
    if more == [] {
      assert events + more == events;
    } else {
      var before := events + more[..|more| - 1];
      ForeignCallerGetsNothing(events, more[..|more| - 1], c);
      SettledRowStands(events, more[..|more| - 1], Run(events).callers[c].request.key);
      assert events + more == before + [more[|more| - 1]];
      RunFromSnoc(Step, INITIAL, before, more[|more| - 1]);
      ForeignStepStaysOutside(Run(before), more[|more| - 1], c);
    }
  }
}
