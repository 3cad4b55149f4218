/** Runs of a state machine given by its step function, and what the database answers to one statement. */
module Runs {

  /** A statement ran, did not run, or ran without its answer coming back. */
  datatype Db = Ran | NotRun | AnswerLost

  /** The state after a sequence of events. */
  function RunFrom<S, E>(step: (S, E) -> S, s: S, events: seq<E>): S {
    if events == [] then s else step(RunFrom(step, s, events[..|events| - 1]), events[|events| - 1])
  }

  lemma RunFromSnoc<S, E>(step: (S, E) -> S, s: S, events: seq<E>, e: E)
    ensures RunFrom(step, s, events + [e]) == step(RunFrom(step, s, events), e)
  {
    assert (events + [e])[..|events|] == events;
  }

  lemma {:induction false} RunFromConcat<S, E>(step: (S, E) -> S, s: S, events: seq<E>, more: seq<E>)
    ensures RunFrom(step, RunFrom(step, s, events), more) == RunFrom(step, s, events + more)
  {
    if more == [] {
      assert events + more == events;
    } else {
      RunFromConcat(step, s, events, more[..|more| - 1]);
      assert events + more == events + more[..|more| - 1] + [more[|more| - 1]];
      RunFromSnoc(step, s, events + more[..|more| - 1], more[|more| - 1]);
    }
  }

  lemma RunOne<S, E>(step: (S, E) -> S, s: S, e: E)
    ensures RunFrom(step, s, [e]) == step(s, e)
  {
    RunFromSnoc(step, s, [], e);
    assert [] + [e] == [e];
  }

  lemma RunTwo<S, E>(step: (S, E) -> S, s: S, a: E, b: E)
    ensures RunFrom(step, s, [a, b]) == step(step(s, a), b)
  {
    RunOne(step, s, a);
    RunFromSnoc(step, s, [a], b);
    assert [a] + [b] == [a, b];
  }

  /** What every step keeps, every run keeps. */
  lemma {:induction false} RunFromKeeps<S(!new), E(!new)>(step: (S, E) -> S, inv: S -> bool, s: S, events: seq<E>)
    requires inv(s) && forall x, e :: inv(x) ==> inv(step(x, e))
    ensures inv(RunFrom(step, s, events))
  {
    if events != [] { RunFromKeeps(step, inv, s, events[..|events| - 1]); }
  }

  function Four<S, E>(step: (S, E) -> S, s: S, a: E, b: E, c: E, d: E): S {
    step(step(step(step(s, a), b), c), d)
  }

  lemma RunFour<S, E>(step: (S, E) -> S, s: S, events: seq<E>, a: E, b: E, c: E, d: E)
    ensures RunFrom(step, s, events + [a, b, c, d]) == Four(step, RunFrom(step, s, events), a, b, c, d)
  {
    RunFromSnoc(step, s, events, a);
    RunFromSnoc(step, s, events + [a], b);
    RunFromSnoc(step, s, events + [a] + [b], c);
    RunFromSnoc(step, s, events + [a] + [b] + [c], d);
    assert events + [a, b, c, d] == events + [a] + [b] + [c] + [d];
  }

  lemma RunFourFrom<S, E>(step: (S, E) -> S, s: S, a: E, b: E, c: E, d: E)
    ensures RunFrom(step, s, [a, b, c, d]) == Four(step, s, a, b, c, d)
  {
    RunFour(step, s, [], a, b, c, d);
    assert [] + [a, b, c, d] == [a, b, c, d];
  }
}
