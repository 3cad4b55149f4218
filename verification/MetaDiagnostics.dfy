/** Where the diagnostic of a failed create comes from: one scope per write call, which the connector
    marks when it dispatches and where it leaves what the provider answered. */
module MetaDiagnostics {
  import opened Options
  import opened Runs
  import opened MetaCreate
  import opened MetaCooldown

  /** A diagnostic as it is passed on, without the error that carries it. */
  datatype Wire = Wire(phase: Phase, outcome: Result, code: Option<int>, subcode: Option<int>, httpStatus: Option<int>)

  datatype Scope = Scope(dispatched: bool, diagnostic: Option<Wire>)

  const FRESH := Scope(false, None)

  /** What the connector does to the scope: dispatch a request, or remember an answer. */
  datatype Mark = Dispatch | Remember(answer: Wire)

  function Marked(scope: Scope, mark: Mark): Scope {
    match mark
    case Dispatch => Scope(true, None)
    case Remember(answer) => scope.(diagnostic := Some(answer))
  }

  /** A publishing error carries no diagnostic of its own; a connector's may. */
  datatype Thrown = Publishing(rateLimited: bool) | Other(attached: Option<Wire>)

  function Attached(error: Thrown): Option<Wire> {
    if error.Other? then error.attached else None
  }

  /** The error's own diagnostic, else the remembered one, else whether anything was dispatched. */
  function Capture(scope: Option<Scope>, error: Thrown): Diagnostic {
    var wire :=
      if Attached(error).Some? then Attached(error).value
      else if scope.Some? && scope.value.diagnostic.Some? then scope.value.diagnostic.value
      else if scope.Some? && !scope.value.dispatched then Wire(NotDispatched, Refused, None, None, None)
      else Wire(DispatchUnknown, Unknown, None, None, None);
    Diagnostic(wire.phase, wire.outcome, wire.code, wire.subcode, wire.httpStatus, error.Publishing? && error.rateLimited)
  }

  /** A create fails in its own reads of the database and the Page, before the connector has marked
      anything, or in the connector, which throws no publishing error. */
  datatype Failure = InReads(error: Thrown) | InConnector(marks: seq<Mark>, attached: Option<Wire>)

  function Raised(f: Failure): Diagnostic {
    match f
    case InReads(error) => Capture(Some(FRESH), error)
    case InConnector(marks, attached) => Capture(Some(RunFrom(Marked, FRESH, marks)), Other(attached))
  }

  ghost predicate Reachable(d: Diagnostic) {
    exists f :: Raised(f) == d
  }

  function WireOf(d: Diagnostic): Wire {
    Wire(d.phase, d.outcome, d.code, d.subcode, d.httpStatus)
  }

  /** What has been dispatched, and the last answer remembered since. */
  predicate Shows(marks: seq<Mark>, scope: Scope) {
    && (scope.dispatched <==> Dispatch in marks)
    && (scope.diagnostic.None? <==> marks == [] || marks[|marks| - 1].Dispatch?)
    && (scope.diagnostic.Some? ==> marks != [] && marks[|marks| - 1] == Remember(scope.diagnostic.value))
  }

  lemma {:induction false} ScopeShows(marks: seq<Mark>)
    ensures Shows(marks, RunFrom(Marked, FRESH, marks))
  {
    if marks != [] {
      ScopeShows(marks[..|marks| - 1]);
      assert marks == marks[..|marks| - 1] + [marks[|marks| - 1]];
    }
  }

  /** A connector's failure is told by its own diagnostic, else by the answer it remembered last, if it has
      dispatched nothing since; otherwise all that is known is whether anything was dispatched. */
  lemma ConnectorRaises(marks: seq<Mark>, attached: Option<Wire>)
    ensures !Raised(InConnector(marks, attached)).rateLimited
    ensures WireOf(Raised(InConnector(marks, attached))) ==
      if attached.Some? then attached.value
      else if marks == [] then Wire(NotDispatched, Refused, None, None, None)
      else if marks[|marks| - 1].Dispatch? then Wire(DispatchUnknown, Unknown, None, None, None)
      else marks[|marks| - 1].answer
  {
    ScopeShows(marks);
    if marks != [] && marks[|marks| - 1].Dispatch? { assert Dispatch in marks; }
  }

  /** A throttled read is diagnosed as not dispatched. */
  lemma ThrottledReadSendsNothing(d: Diagnostic)
    requires Reachable(d) && d.rateLimited
    ensures d == Diagnostic(NotDispatched, Refused, None, None, None, true)
  {
    var f :| Raised(f) == d;
  }

  /** Every hold-worthy failure a create can raise is protected ... */
  lemma ReachableIsProtected(d: Diagnostic)
    requires Reachable(d) && RecordsHold(d)
    ensures Protected(d)
  {
    if d.rateLimited { ThrottledReadSendsNothing(d); }
  }

  /** ... so its hold is honoured in every run. */
  lemma ReachableHoldIsKept(d: Diagnostic)
    requires Reachable(d) && RecordsHold(d)
    ensures HoldKept(d)
  {
    ReachableIsProtected(d);
    HoldKeptIffProtected(d);
  }

  /** What it would take to reach the gap: a throttled publishing read after the connector has remembered
      a refusal with no sign of throttling. Without a scope the claim is kept, and nothing is lost. */
  lemma LatentGapIff(scope: Option<Scope>)
    ensures var d := Capture(scope, Publishing(true));
      RecordsHold(d) && (!Protected(d) <==>
        && scope.Some? && scope.value.diagnostic.Some?
        && scope.value.diagnostic.value.phase.ProviderResponse? && scope.value.diagnostic.value.outcome.Refused?
        && !ObservedThrottle(d))
  {
  }

  // ----- Runs of creates as they are written -----

  function ThrownBy(e: Event): Option<Diagnostic> {
    if e.Write? && e.answer.Threw? then Some(e.answer.d)
    else if e.Write? && e.answer.LostId? then Some(e.answer.d)
    else None
  }

  /** Every failing write raises a diagnostic a create can raise. */
  ghost predicate Written(events: seq<Event>) {
    forall i :: 0 <= i < |events| && ThrownBy(events[i]).Some? ==> Reachable(ThrownBy(events[i]).value)
  }

  ghost predicate ThrottlesRaised(s: State) {
    forall i :: 0 <= i < |s.throttles| ==> Reachable(s.throttles[i].d) && RecordsHold(s.throttles[i].d)
  }

  lemma WriteRaisesThrottle(s: State, c: nat, answer: Answer)
    requires ThrottlesRaised(s)
    requires ThrownBy(Write(c, answer)).Some? ==> Reachable(ThrownBy(Write(c, answer)).value)
    ensures ThrottlesRaised(Step(s, Write(c, answer)))
  {
  }

  lemma OnlyWritesThrottle(s: State, e: Event)
    requires !e.Write?
    ensures Step(s, e).throttles == s.throttles
  {
  }

  lemma {:induction false} RunRaisesThrottles(events: seq<Event>)
    requires Written(events)
    ensures ThrottlesRaised(Run(events))
  {
    if events != [] {
      var before, e := events[..|events| - 1], events[|events| - 1];
      assert forall i :: 0 <= i < |before| ==> before[i] == events[i];
      RunRaisesThrottles(before);
      if e.Write? {
        WriteRaisesThrottle(Run(before), e.c, e.answer);
      } else {
        OnlyWritesThrottle(Run(before), e);
      }
    }
  }

  /** After any local create is throttled, no later local create of its key on that account is sent before
      45 minutes have passed. */
  lemma NoPostDuringAnyHold(events: seq<Event>, i: nat, j: nat)
    requires Written(events)
    requires var s := Run(events);
      i < |s.throttles| && s.throttles[i].after <= j < |s.posts| && Covers(s.throttles[i], s.posts[j])
    ensures Run(events).posts[j].at >= Run(events).throttles[i].at + HOLD_MS
  {
    RunRaisesThrottles(events);
    ReachableIsProtected(Run(events).throttles[i].d);
    NoPostDuringHold(events, i, j);
  }

  /** At every moment a throttled claim still fences its key, or its hold is stored. */
  lemma AnyReleaseIsBehindHold(events: seq<Event>, i: nat)
    requires Written(events) && i < |Run(events).throttles|
    ensures var s := Run(events); var th := s.throttles[i];
      HoldsRow(s, th.key, th.claim) || Durable(s, th.account, th.at)
  {
    RunRaisesThrottles(events);
    ReachableIsProtected(Run(events).throttles[i].d);
    ReleasedOnlyBehindHold(events, i);
  }
}
