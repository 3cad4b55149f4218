/** The data-volume narrowing ladder. Dates are day numbers; the provider is an oracle whose answer
    may depend on how many requests were sent before (budget, throttling, volume). */
module Narrowing {
  import opened Options

  datatype Window = Window(since: int, until: int)

  /** Days in the window, inclusive; not positive when the window is inverted. */
  function Days(w: Window): int {
    w.until - w.since + 1
  }

  function Size(w: Window): nat {
    if Days(w) > 0 then Days(w) else 0
  }

  /** One synchronous read: every page, or an error after some rows had already been paged in. */
  datatype Fetch<Row> = Pages(rows: seq<Row>) | VolumeError(partial: seq<Row>) | OtherError(partial: seq<Row>)

  /** `fetch(t, w)` and `finalRung(t, w)` answer request number `t`; None is a failed report job. */
  datatype Provider<!Row> = Provider(fetch: (nat, Window) -> Fetch<Row>, finalRung: (nat, Window) -> Option<seq<Row>>)

  datatype Batch<Row> = Batch(window: Window, rows: seq<Row>)

  /** What a ladder has done so far: the batches it delivered, in order, and the requests it spent. */
  datatype Log<Row> = Log(batches: seq<Batch<Row>>, fetches: nat, finals: nat) {
    function Calls(): nat { fetches + finals }
  }

  datatype Result<Row> = Result(ok: bool, log: Log<Row>)

  // ----- Splitting -----

  function Split(w: Window, days: nat): (out: seq<Window>)
    requires days > 0
    ensures w.since <= w.until ==> out != []
    ensures forall k :: 0 <= k < |out| ==> w.since <= out[k].since <= out[k].until <= w.until && Days(out[k]) <= days
    decreases Size(w)
  {
    if w.since > w.until then []
    else
      var end := w.since + days - 1;
      var until := if end < w.until then end else w.until;
      [Window(w.since, until)] + Split(Window(until + 1, w.until), days)
  }

  method SplitWindow(w: Window, days: nat) returns (out: seq<Window>)
    requires days > 0
    ensures out == Split(w, days)
  {
    out := [];
    var cursor := w.since;
    while cursor <= w.until
      invariant out + Split(Window(cursor, w.until), days) == Split(w, days)
      decreases w.until - cursor
    {
      var end := cursor + days - 1;
      var until := if end < w.until then end else w.until;
      out := out + [Window(cursor, until)];
      cursor := until + 1;
    }
  }

  function NarrowerWindows(w: Window): (out: seq<Window>)
    ensures forall k :: 0 <= k < |out| ==> 0 < Size(out[k]) < Size(w)
    ensures out == [] <==> Days(w) <= 1
  {
    if Days(w) > 7 then Split(w, 7)
    else if Days(w) > 1 then Split(w, 1)
    else []
  }

  // ----- The ladder -----

  function Deliver<Row>(log: Log<Row>, w: Window, rows: seq<Row>): Log<Row> {
    log.(batches := log.batches + [Batch(w, rows)])
  }

  function Narrow<Row>(p: Provider<Row>, w: Window, log: Log<Row>): Result<Row>
    decreases Size(w), 1, 0
  {
    var sent := log.(fetches := log.fetches + 1);
    match p.fetch(log.Calls(), w)
    case Pages(rows) => Result(true, Deliver(sent, w, rows))
    case OtherError(_) => Result(false, sent)
    case VolumeError(_) =>
      var narrower := NarrowerWindows(w);
      if narrower == [] then
        var reported := sent.(finals := sent.finals + 1);
        match p.finalRung(sent.Calls(), w)
        case Some(rows) => Result(true, Deliver(reported, w, rows))
        case None => Result(false, reported)
      else
        NarrowFrom(p, narrower, 0, sent, Size(w))
  }

  function NarrowFrom<Row>(p: Provider<Row>, ws: seq<Window>, i: nat, log: Log<Row>, bound: nat): Result<Row>
    requires i <= |ws| && forall k :: 0 <= k < |ws| ==> Size(ws[k]) < bound
    decreases bound, 0, |ws| - i
  {
    if i == |ws| then Result(true, log)
    else
      var first := Narrow(p, ws[i], log);
      if first.ok then NarrowFrom(p, ws, i + 1, first.log, bound) else first
  }

  function Rows<Row>(batches: seq<Batch<Row>>): seq<Row> {
    if batches == [] then [] else Rows(batches[..|batches| - 1]) + batches[|batches| - 1].rows
  }

  lemma RowsOfDeliver<Row>(log: Log<Row>, w: Window, rows: seq<Row>)
    ensures Rows(Deliver(log, w, rows).batches) == Rows(log.batches) + rows
  {
    var b := Deliver(log, w, rows).batches;
    assert b[..|b| - 1] == log.batches && b[|b| - 1].rows == rows;
  }

  /** The caller's row sink together with the request counter. */
  class Sink<Row> {
    var rows: seq<Row>
    var calls: nat
    ghost var log: Log<Row>

    ghost predicate Valid()
      reads this
    {
      rows == Rows(log.batches) && calls == log.Calls()
    }

    constructor ()
      ensures Valid() && log == Log([], 0, 0)
    {
      rows, calls, log := [], 0, Log([], 0, 0);
    }

    method OnRows(w: Window, batch: seq<Row>)
      requires Valid()
      modifies this
      ensures Valid() && log == Deliver(old(log), w, batch) && calls == old(calls)
      ensures rows == old(rows) + batch
    {
      RowsOfDeliver(log, w, batch);
      rows, log := rows + batch, Deliver(log, w, batch);
    }
  }

  /** Rows reach the sink only after the whole window answered: a failed rung's pending rows are dropped. */
  method FetchWithNarrowing<Row>(p: Provider<Row>, w: Window, sink: Sink<Row>) returns (ok: bool)
    requires sink.Valid()
    modifies sink
    ensures sink.Valid()
    ensures Result(ok, sink.log) == Narrow(p, w, old(sink.log))
    decreases Size(w)
  {
    var answer := p.fetch(sink.calls, w);
    sink.calls, sink.log := sink.calls + 1, sink.log.(fetches := sink.log.fetches + 1);
    if answer.Pages? {
      sink.OnRows(w, answer.rows);
      return true;
    } else if answer.OtherError? {
      return false;
    }
    var narrower := NarrowerWindows(w);
    if narrower == [] {
      var report := p.finalRung(sink.calls, w);
      sink.calls, sink.log := sink.calls + 1, sink.log.(finals := sink.log.finals + 1);
      if report.None? { return false; }
      sink.OnRows(w, report.value);
      return true;
    }
    ghost var all := NarrowFrom(p, narrower, 0, sink.log, Size(w));
    for i := 0 to |narrower|
      invariant sink.Valid()
      invariant NarrowFrom(p, narrower, i, sink.log, Size(w)) == all
    {
      ok := FetchWithNarrowing(p, narrower[i], sink);
      if !ok { return; }
    }
    ok := true;
  }

  // ----- Exactly once, and nothing partial -----

  /** The windows follow each other without gap or overlap from `since` to `until`. */
  predicate Tiles(ws: seq<Window>, since: int, until: int) {
    && ws != [] && ws[0].since == since && ws[|ws| - 1].until == until
    && (forall i :: 0 <= i < |ws| ==> ws[i].since <= ws[i].until)
    && (forall i :: 0 < i < |ws| ==> ws[i].since == ws[i - 1].until + 1)
  }

  lemma {:induction false} SplitTiles(w: Window, days: nat)
    requires days > 0 && w.since <= w.until
    ensures Tiles(Split(w, days), w.since, w.until)
    decreases Size(w)
  {
    var until := Split(w, days)[0].until;
    if until < w.until { SplitTiles(Window(until + 1, w.until), days); }
  }

  /** The batch is the whole answer of one successful request for exactly its window. */
  ghost predicate WholeAnswer<Row>(p: Provider<Row>, b: Batch<Row>) {
    exists t: nat :: p.fetch(t, b.window) == Pages(b.rows) || p.finalRung(t, b.window) == Some(b.rows)
  }

  /** The last day delivered by a log that started at `since`. */
  function Reached<Row>(batches: seq<Batch<Row>>, since: int): int {
    if batches == [] then since - 1 else batches[|batches| - 1].window.until
  }

  /** Whole answers only, each starting the day after the one before. */
  ghost predicate Delivered<Row>(p: Provider<Row>, batches: seq<Batch<Row>>, since: int) {
    forall i :: 0 <= i < |batches| ==>
      && WholeAnswer(p, batches[i])
      && batches[i].window.since == Reached(batches[..i], since) + 1 <= batches[i].window.until
  }

  lemma DeliverKeeps<Row>(p: Provider<Row>, log: Log<Row>, b: Batch<Row>, since: int)
    requires Delivered(p, log.batches, since) && WholeAnswer(p, b)
    requires b.window.since == Reached(log.batches, since) + 1 <= b.window.until
    ensures Delivered(p, Deliver(log, b.window, b.rows).batches, since)
    ensures Reached(Deliver(log, b.window, b.rows).batches, since) == b.window.until
  {
    var bs := Deliver(log, b.window, b.rows).batches;
    assert forall i :: 0 <= i <= |log.batches| ==> bs[..i] == log.batches[..i];
    assert log.batches[..|log.batches|] == log.batches;
  }

  lemma {:induction false} NarrowDelivers<Row>(p: Provider<Row>, w: Window, log: Log<Row>, since: int)
    requires w.since <= w.until
    requires Delivered(p, log.batches, since) && Reached(log.batches, since) == w.since - 1
    ensures var r := Narrow(p, w, log); var last := Reached(r.log.batches, since);
      && Delivered(p, r.log.batches, since)
      && w.since - 1 <= last <= w.until
      && (r.ok <==> last == w.until)
    decreases Size(w), 1, 0
  {
    var answer, narrower := p.fetch(log.Calls(), w), NarrowerWindows(w);
    var sent := log.(fetches := log.fetches + 1);
    if answer.Pages? {
      DeliverKeeps(p, sent, Batch(w, answer.rows), since);
    } else if answer.VolumeError? {
      if narrower != [] {
        SplitTiles(w, if Days(w) > 7 then 7 else 1);
        NarrowFromDelivers(p, narrower, 0, sent, Size(w), since);
      } else if p.finalRung(sent.Calls(), w).Some? {
        DeliverKeeps(p, sent.(finals := sent.finals + 1), Batch(w, p.finalRung(sent.Calls(), w).value), since);
      }
    }
  }

  lemma {:induction false} NarrowFromDelivers<Row>(
    p: Provider<Row>, ws: seq<Window>, i: nat, log: Log<Row>, bound: nat, since: int)
    requires i <= |ws| && forall k :: 0 <= k < |ws| ==> Size(ws[k]) < bound
    requires ws != [] && Tiles(ws, ws[0].since, ws[|ws| - 1].until)
    requires Delivered(p, log.batches, since)
    requires Reached(log.batches, since) == if i == |ws| then ws[|ws| - 1].until else ws[i].since - 1
    ensures var r := NarrowFrom(p, ws, i, log, bound); var last := Reached(r.log.batches, since);
      && Delivered(p, r.log.batches, since)
      && Reached(log.batches, since) <= last <= ws[|ws| - 1].until
      && (r.ok <==> last == ws[|ws| - 1].until)
    decreases bound, 0, |ws| - i
  {
    if i < |ws| {
      var first := Narrow(p, ws[i], log);
      NarrowDelivers(p, ws[i], log, since);
      LaterWindows(ws, i);
      if first.ok { NarrowFromDelivers(p, ws, i + 1, first.log, bound, since); }
    }
  }

  lemma {:induction false} LaterWindows(ws: seq<Window>, i: nat)
    requires ws != [] && Tiles(ws, ws[0].since, ws[|ws| - 1].until) && i < |ws|
    ensures ws[i].until <= ws[|ws| - 1].until
    decreases |ws| - i
  {
    if i + 1 < |ws| { LaterWindows(ws, i + 1); }
  }

  /** What Meta holds: the rows of each day. */
  ghost function TrueRows<Row>(day: int -> multiset<Row>, since: int, until: int): multiset<Row>
    decreases until - since
  {
    if since > until then multiset{} else TrueRows(day, since, until - 1) + day(until)
  }

  /** Every whole answer holds exactly the rows of its window's days. */
  ghost predicate Honest<Row(!new)>(p: Provider<Row>, day: int -> multiset<Row>) {
    forall b: Batch<Row> :: WholeAnswer(p, b) ==> multiset(b.rows) == TrueRows(day, b.window.since, b.window.until)
  }

  lemma {:induction false} TrueRowsSplit<Row>(day: int -> multiset<Row>, since: int, mid: int, until: int)
    requires since <= mid + 1 <= until + 1
    ensures TrueRows(day, since, until) == TrueRows(day, since, mid) + TrueRows(day, mid + 1, until)
    decreases until - mid
  {
    if mid < until { TrueRowsSplit(day, since, mid, until - 1); }
  }

  lemma DeliveredInit<Row>(p: Provider<Row>, batches: seq<Batch<Row>>, since: int)
    requires batches != [] && Delivered(p, batches, since)
    ensures var init, b := batches[..|batches| - 1], batches[|batches| - 1];
      && Delivered(p, init, since) && WholeAnswer(p, b)
      && b.window.since == Reached(init, since) + 1 <= b.window.until
  {
    var init := batches[..|batches| - 1];
    forall i | 0 <= i < |init|
      ensures WholeAnswer(p, init[i]) && init[i].window.since == Reached(init[..i], since) + 1 <= init[i].window.until
    {
      assert init[i] == batches[i] && init[..i] == batches[..i];
    }
  }

  lemma {:induction false} ReachedRises<Row>(p: Provider<Row>, batches: seq<Batch<Row>>, since: int)
    requires Delivered(p, batches, since)
    ensures Reached(batches, since) >= since - 1
  {
    if batches != [] {
      DeliveredInit(p, batches, since);
      ReachedRises(p, batches[..|batches| - 1], since);
    }
  }

  /** What whole answers of days on end hold, one more adds. */
  lemma OneMoreBatch<Row>(day: int -> multiset<Row>, batches: seq<Batch<Row>>, since: int, last: int)
    requires batches != [] && since - 1 <= last
    requires var b := batches[|batches| - 1];
      && b.window.since == last + 1 <= b.window.until && multiset(b.rows) == TrueRows(day, b.window.since, b.window.until)
    requires multiset(Rows(batches[..|batches| - 1])) == TrueRows(day, since, last)
    ensures multiset(Rows(batches)) == TrueRows(day, since, batches[|batches| - 1].window.until)
  {
    var b := batches[|batches| - 1];
    TrueRowsSplit(day, since, last, b.window.until);
    RowsInit(batches);
  }

  lemma {:induction false} BatchesHoldTheirDays<Row(!new)>(
    p: Provider<Row>, day: int -> multiset<Row>, batches: seq<Batch<Row>>, since: int)
    requires Honest(p, day) && Delivered(p, batches, since)
    ensures multiset(Rows(batches)) == TrueRows(day, since, Reached(batches, since))
  {
    if batches != [] {
      var init, b := batches[..|batches| - 1], batches[|batches| - 1];
      DeliveredInit(p, batches, since);
      ReachedRises(p, init, since);
      BatchesHoldTheirDays(p, day, init, since);
      BatchHoldsItsDays(p, day, b);
      OneMoreBatch(day, batches, since, Reached(init, since));
    }
  }

  lemma BatchHoldsItsDays<Row(!new)>(p: Provider<Row>, day: int -> multiset<Row>, b: Batch<Row>)
    requires Honest(p, day) && WholeAnswer(p, b)
    ensures multiset(b.rows) == TrueRows(day, b.window.since, b.window.until)
  {
  }

  lemma RowsInit<Row>(batches: seq<Batch<Row>>)
    requires batches != []
    ensures multiset(Rows(batches)) == multiset(Rows(batches[..|batches| - 1])) + multiset(batches[|batches| - 1].rows)
  {
  }

  /** A completed ladder delivers every day's rows exactly once; one that throws has delivered
      exactly the rows of a prefix of whole days that stops short of the window's end. */
  lemma ExactlyOnce<Row(!new)>(p: Provider<Row>, day: int -> multiset<Row>, w: Window, fetches: nat, finals: nat)
    requires w.since <= w.until && Honest(p, day)
    ensures var r := Narrow(p, w, Log([], fetches, finals)); var last := Reached(r.log.batches, w.since);
      && multiset(Rows(r.log.batches)) == TrueRows(day, w.since, last)
      && w.since - 1 <= last <= w.until
      && (r.ok <==> last == w.until)
  {
    var log: Log<Row> := Log([], fetches, finals);
    NarrowDelivers(p, w, log, w.since);
    ReachedRises(p, Narrow(p, w, log).log.batches, w.since);
    BatchesHoldTheirDays(p, day, Narrow(p, w, log).log.batches, w.since);
  }

  // ----- The request bound -----

  function Weeks(n: nat): nat {
    (n + 6) / 7
  }

  function DaysFrom(ws: seq<Window>, i: nat): nat
    requires i <= |ws|
    decreases |ws| - i
  {
    if i == |ws| then 0 else Size(ws[i]) + DaysFrom(ws, i + 1)
  }

  lemma {:induction false} DaysFromTail(x: Window, ws: seq<Window>, i: nat)
    requires i <= |ws|
    ensures DaysFrom([x] + ws, i + 1) == DaysFrom(ws, i)
    decreases |ws| - i
  {
    if i < |ws| { DaysFromTail(x, ws, i + 1); }
  }

  lemma {:induction false} SplitCounts(w: Window, days: nat)
    requires days == 1 || days == 7
    ensures |Split(w, days)| == (if days == 7 then Weeks(Size(w)) else Size(w))
    ensures DaysFrom(Split(w, days), 0) == Size(w)
    decreases Size(w)
  {
    if w.since <= w.until {
      var first := Split(w, days)[0];
      var rest := Window(first.until + 1, w.until);
      SplitCounts(rest, days);
      DaysFromTail(first, Split(rest, days), 0);
    }
  }

  /** Within a week: one read, then at most one read a day and one report job a day. */
  lemma {:induction false} ShortWindowCost<Row>(p: Provider<Row>, w: Window, log: Log<Row>)
    requires 0 < Days(w) <= 7
    ensures var spent := Narrow(p, w, log).log;
      && spent.fetches <= log.fetches + (if Days(w) == 1 then 1 else 1 + Size(w))
      && spent.finals <= log.finals + Size(w)
    decreases Size(w), 1, 0
  {
    if Days(w) > 1 {
      SplitCounts(w, 1);
      CostFrom(p, Split(w, 1), 0, log.(fetches := log.fetches + 1), Size(w), true);
    }
  }

  lemma {:induction false} CostFrom<Row>(
    p: Provider<Row>, ws: seq<Window>, i: nat, log: Log<Row>, bound: nat, singles: bool)
    requires i <= |ws|
    requires forall k :: 0 <= k < |ws| ==> 0 < Size(ws[k]) < bound && Days(ws[k]) <= 7 && (singles ==> Days(ws[k]) == 1)
    ensures var spent := NarrowFrom(p, ws, i, log, bound).log;
      && spent.fetches <= log.fetches + |ws| - i + (if singles then 0 else DaysFrom(ws, i))
      && spent.finals <= log.finals + DaysFrom(ws, i)
    decreases bound, 0, |ws| - i
  {
    if i < |ws| {
      ShortWindowCost(p, ws[i], log);
      var first := Narrow(p, ws[i], log);
      if first.ok { CostFrom(p, ws, i + 1, first.log, bound, singles); }
    }
  }

  /** However the provider answers, an `n`-day window costs at most 1 + ceil(n/7) + n page reads and
      n report jobs, whether the ladder completes or throws. */
  lemma {:induction false} RequestBound<Row>(p: Provider<Row>, w: Window, log: Log<Row>)
    requires w.since <= w.until
    ensures var spent := Narrow(p, w, log).log;
      && spent.fetches <= log.fetches + 1 + Weeks(Size(w)) + Size(w)
      && spent.finals <= log.finals + Size(w)
  {
    if Days(w) > 7 {
      SplitCounts(w, 7);
      CostFrom(p, Split(w, 7), 0, log.(fetches := log.fetches + 1), Size(w), false);
    } else {
      ShortWindowCost(p, w, log);
    }
  }

  // ----- Why a ladder fails -----

  predicate Within(v: Window, w: Window) {
    w.since <= v.since <= v.until <= w.until
  }

  /** The last of `calls` requests asked for `v` and ended the ladder: a read that failed for another reason
      than volume, or the report job of a single day whose read had been too large. */
  predicate EndedBy<Row>(p: Provider<Row>, v: Window, calls: nat) {
    || (calls >= 1 && p.fetch(calls - 1, v).OtherError?)
    || (calls >= 2 && v.since == v.until && p.fetch(calls - 2, v).VolumeError? && p.finalRung(calls - 1, v).None?)
  }

  /** A ladder that fails was ended by its last request; volume alone never ends it above a single day. */
  lemma {:induction false} FailureHasCause<Row>(p: Provider<Row>, w: Window, log: Log<Row>) returns (v: Window)
    requires w.since <= w.until && !Narrow(p, w, log).ok
    ensures Within(v, w) && EndedBy(p, v, Narrow(p, w, log).log.Calls())
    decreases Size(w), 1, 0
  {
    var narrower, sent := NarrowerWindows(w), log.(fetches := log.fetches + 1);
    v := w;
    if p.fetch(log.Calls(), w).VolumeError? && narrower != [] {
      v := CauseFrom(p, narrower, 0, sent, Size(w), w);
    }
  }

  lemma {:induction false} CauseFrom<Row>(p: Provider<Row>, ws: seq<Window>, i: nat, log: Log<Row>, bound: nat, w: Window)
    returns (v: Window)
    requires i <= |ws| && forall k :: 0 <= k < |ws| ==> Size(ws[k]) < bound && Within(ws[k], w)
    requires !NarrowFrom(p, ws, i, log, bound).ok
    ensures Within(v, w) && EndedBy(p, v, NarrowFrom(p, ws, i, log, bound).log.Calls())
    decreases bound, 0, |ws| - i
  {
    var first := Narrow(p, ws[i], log);
    if first.ok {
      v := CauseFrom(p, ws, i + 1, first.log, bound, w);
    } else {
      v := FailureHasCause(p, ws[i], log);
    }
  }

  /** A window completes whenever reads of its parts fail on volume only and report jobs answer for its
      single days. */
  lemma CompletesUnlessRefused<Row(!new)>(p: Provider<Row>, w: Window, log: Log<Row>)
    requires w.since <= w.until
    requires forall t: nat, v :: Within(v, w) ==> !p.fetch(t, v).OtherError?
    requires forall t: nat, v :: Within(v, w) && v.since == v.until ==> p.finalRung(t, v).Some?
    ensures Narrow(p, w, log).ok && Reached(Narrow(p, w, Log([], log.fetches, log.finals)).log.batches, w.since) == w.until
  {
    if !Narrow(p, w, log).ok { var v := FailureHasCause(p, w, log); }
    var fresh_ := Log([], log.fetches, log.finals);
    if !Narrow(p, w, fresh_).ok { var v := FailureHasCause(p, w, fresh_); }
    NarrowDelivers(p, w, fresh_, w.since);
  }

  /** One read of a window that answers is all the ladder does, and any other failure is final. */
  lemma OneReadDecides<Row>(p: Provider<Row>, w: Window, log: Log<Row>)
    ensures p.fetch(log.Calls(), w).Pages? ==>
      Narrow(p, w, log) == Result(true, Log(log.batches + [Batch(w, p.fetch(log.Calls(), w).rows)], log.fetches + 1, log.finals))
    ensures p.fetch(log.Calls(), w).OtherError? ==> Narrow(p, w, log) == Result(false, Log(log.batches, log.fetches + 1, log.finals))
  {
  }

  /** More than a week narrows to weeks, the last one shorter at most, less to its days, one day to nothing. */
  lemma NarrowerAre(w: Window)
    requires w.since <= w.until
    ensures var ws := NarrowerWindows(w);
      && (w.since == w.until <==> ws == [])
      && (ws != [] ==> Tiles(ws, w.since, w.until))
      && (w.until - w.since >= 7 ==> forall i :: 0 <= i < |ws| - 1 ==> ws[i].until == ws[i].since + 6)
      && (w.until - w.since >= 7 ==> ws[|ws| - 1].until <= ws[|ws| - 1].since + 6)
      && (w.until - w.since < 7 ==> forall i :: 0 <= i < |ws| ==> ws[i].until == ws[i].since)
  {
    var days := if Days(w) > 7 then 7 else 1;
    SplitTiles(w, days);
    SplitSizes(w, days);
  }

  lemma {:induction false} SplitSizes(w: Window, days: nat)
    requires days > 0 && w.since <= w.until
    ensures forall i :: 0 <= i < |Split(w, days)| - 1 ==> Days(Split(w, days)[i]) == days
    decreases Size(w)
  {
    var ws := Split(w, days);
    if ws[0].until < w.until {
      var rest := Window(ws[0].until + 1, w.until);
      SplitSizes(rest, days);
      assert forall i :: 0 < i < |ws| ==> ws[i] == Split(rest, days)[i - 1];
    }
  }
}
