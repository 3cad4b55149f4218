/** Checkpointed entity scans. Times are epoch milliseconds on one clock; a cursor that is missing or
    does not parse is None. A scan that fails commits nothing. */
module ScanCheckpoint {
  import opened Options

  const DAY_MS: int := 86_400_000
  const HEAVY_MAX_AGE_MS: int := 7 * DAY_MS
  const OVERLAP_SECONDS: int := 300

  /** Start of the newest heavy ad read, with the key of its API version and field set. */
  datatype HeavyCursor = HeavyCursor(at: nat, shape: nat)

  datatype Cursors = Cursors(scan: Option<nat>, full: Option<nat>, heavy: Option<HeavyCursor>)

  /** What one scan reads of the own fields of ads: all of them, or those updated since a second. */
  datatype AdRead = Everything | Since(seconds: int)

  predicate FullMode(c: Cursors, at: nat) {
    c.scan.None? || c.full.None? || c.scan.value > at || c.full.value > at || at - c.full.value >= DAY_MS
  }

  function UpdatedSince(checkpoint: nat): int {
    var seconds := checkpoint / 1000 - OVERLAP_SECONDS;
    if seconds < 0 then 0 else seconds
  }

  datatype FullPlan = Lean(updatedSince: int) | Heavy(reason: string)

  function FullReadPlan(c: Cursors, at: nat, shape: nat): FullPlan {
    if c.scan.None? || c.scan.value > at then Heavy("no_scan_checkpoint")
    else if c.heavy.None? || c.heavy.value.at > at then Heavy("no_heavy_checkpoint")
    else if c.heavy.value.shape != shape then Heavy("heavy_shape_changed")
    else if at - c.heavy.value.at >= HEAVY_MAX_AGE_MS then Heavy("heavy_reconcile_due")
    else Lean(UpdatedSince(c.scan.value))
  }

  /** One scan: its start, the current heavy shape, whether a lean full read had to fall back to the
      heavy one, whether an incremental scan asks for the next full read, whether CLOSE committed. */
  datatype Scan = Scan(at: nat, shape: nat, fellBack: bool, wantsFull: bool, committed: bool)

  predicate ReadsHeavy(c: Cursors, s: Scan) {
    FullMode(c, s.at) && (FullReadPlan(c, s.at, s.shape).Heavy? || s.fellBack)
  }

  function AdReadOf(c: Cursors, s: Scan): AdRead {
    if !FullMode(c, s.at) then Since(UpdatedSince(c.scan.value))
    else if ReadsHeavy(c, s) then Everything
    else Since(FullReadPlan(c, s.at, s.shape).updatedSince)
  }

  function Greatest(current: Option<nat>, at: nat): Option<nat> {
    if current.Some? && current.value > at then current else Some(at)
  }

  /** `<start>|<shape>` cursors compare by start first. */
  function GreatestHeavy(current: Option<HeavyCursor>, new_: HeavyCursor): Option<HeavyCursor> {
    if current.Some? && (current.value.at > new_.at || (current.value.at == new_.at && current.value.shape > new_.shape)) then current
    else Some(new_)
  }

  /** CLOSE: a committed scan advances the cursors; an incremental one that could not carry a status
      change to the children ages the full-read cursor to the epoch. */
  function Close(c: Cursors, s: Scan): Cursors {
    if !s.committed then c
    else
      var scan := Greatest(c.scan, s.at);
      if FullMode(c, s.at) then
        Cursors(scan, Greatest(c.full, s.at),
                if ReadsHeavy(c, s) then GreatestHeavy(c.heavy, HeavyCursor(s.at, s.shape)) else c.heavy)
      else if s.wantsFull && c.full.value <= s.at then c.(scan := scan, full := Some(0))
      else c.(scan := scan)
  }

  /** The cursors before scan `n` of a run that started with none. */
  function CursorsAt(run: seq<Scan>, n: nat): Cursors
    requires n <= |run|
  {
    if n == 0 then Cursors(None, None, None) else Close(CursorsAt(run, n - 1), run[n - 1])
  }

  predicate IsFull(run: seq<Scan>, n: nat)
    requires n < |run|
  {
    FullMode(CursorsAt(run, n), run[n].at)
  }

  predicate IsHeavy(run: seq<Scan>, n: nat)
    requires n < |run|
  {
    ReadsHeavy(CursorsAt(run, n), run[n])
  }

  // ----- No update is lost -----

  /** An own-field update: Meta stamps it with whole seconds and shows it to reads some time later. */
  datatype Update = Update(time: nat, visible: nat)

  predicate Reads(run: seq<Scan>, n: nat, u: Update)
    requires n < |run|
  {
    var read := AdReadOf(CursorsAt(run, n), run[n]);
    u.visible <= run[n].at && (read.Everything? || u.time / 1000 >= read.seconds)
  }

  lemma {:induction false} CheckpointIsAStart(run: seq<Scan>, n: nat)
    requires n <= |run| && CursorsAt(run, n).scan.Some?
    ensures exists m: nat :: m < n && run[m].committed && run[m].at == CursorsAt(run, n).scan.value
  {
    if run[n - 1].committed && CursorsAt(run, n).scan == Some(run[n - 1].at) {
    } else {
      CheckpointIsAStart(run, n - 1);
    }
  }

  /** The longest lag the overlap covers: 300 s, and the millisecond by which a checkpoint must precede
      an update it has not seen. */
  const COVERED_LAG: nat := OVERLAP_SECONDS * 1000 + 1

  /** With a visibility lag of at most that, the first committed scan that starts once the update is
      visible reads it, whatever its mode and however many scans failed before. */
  lemma FirstScanReads(run: seq<Scan>, n: nat, u: Update)
    requires n < |run| && u.visible <= run[n].at
    requires u.visible <= u.time + COVERED_LAG
    requires forall m: nat :: m < n && run[m].committed ==> run[m].at < u.visible
    ensures Reads(run, n, u)
  {
    var c := CursorsAt(run, n);
    if c.scan.Some? {
      CheckpointIsAStart(run, n);
      assert u.time / 1000 >= UpdatedSince(c.scan.value);
    }
  }

  /** No update is lost: once a scan that started after it became visible has committed, some
      committed scan of the run has read it. */
  lemma {:induction false} NoUpdateLost(run: seq<Scan>, n: nat, u: Update)
    requires n < |run| && run[n].committed && u.visible <= run[n].at
    requires u.visible <= u.time + COVERED_LAG
    ensures exists m: nat :: m <= n && run[m].committed && Reads(run, m, u)
  {
    if m: nat :| m < n && run[m].committed && run[m].at >= u.visible {
      NoUpdateLost(run, m, u);
    } else {
      FirstScanReads(run, n, u);
    }
  }

  /** Some committed scan up to `n` has read the update. */
  ghost predicate ReadBy(run: seq<Scan>, n: nat, u: Update)
    requires n < |run|
  {
    exists m: nat :: m <= n && run[m].committed && Reads(run, m, u)
  }

  /** In every run, no update that stays hidden at most `lag` milliseconds is lost. */
  ghost predicate LagSafe(lag: nat) {
    forall run: seq<Scan>, n: nat, u: Update ::
      n < |run| && run[n].committed && u.visible <= run[n].at && u.visible <= u.time + lag ==> ReadBy(run, n, u)
  }

  const EARLY := Scan(1_000_000_000, 0, false, false, true)
  const LATE := Scan(1_000_060_000, 0, false, false, true)
  const HIDDEN := Update(999_699_999, 1_000_000_001)

  /** A full scan one millisecond before the update shows and the incremental scan after it both commit,
      and neither reads it. */
  lemma HiddenIsLost()
    ensures HIDDEN.visible == HIDDEN.time + COVERED_LAG + 1 && HIDDEN.visible <= LATE.at
    ensures !ReadBy([EARLY, LATE], 1, HIDDEN)
  {
    var run := [EARLY, LATE];
    assert CursorsAt(run, 1) == Close(CursorsAt(run, 0), EARLY);
    assert CursorsAt(run, 1).scan == Some(1_000_000_000);
    assert AdReadOf(CursorsAt(run, 1), LATE) == Since(999_700);
    assert !Reads(run, 0, HIDDEN) && !Reads(run, 1, HIDDEN);
  }

  /** No update hidden up to `lag` is lost exactly for lags up to 300 001 ms. */
  lemma LagSafeIff(lag: nat)
    ensures LagSafe(lag) <==> lag <= COVERED_LAG
  {
    if lag <= COVERED_LAG {
      forall run: seq<Scan>, n: nat, u: Update |
        n < |run| && run[n].committed && u.visible <= run[n].at && u.visible <= u.time + lag
        ensures ReadBy(run, n, u)
      {
        NoUpdateLost(run, n, u);
      }
    } else {
      HiddenIsLost();
    }
  }

  // ----- Full and heavy reads are never overdue -----

  lemma {:induction false} FullCursorBound(run: seq<Scan>, n: nat)
    requires n <= |run|
    ensures var full := CursorsAt(run, n).full;
      full.Some? ==> exists m: nat :: m < n && run[m].committed && IsFull(run, m) && full.value <= run[m].at
  {
    if n > 0 {
      FullCursorBound(run, n - 1);
      if run[n - 1].committed && IsFull(run, n - 1) && CursorsAt(run, n).full == Some(run[n - 1].at) {
      } else if CursorsAt(run, n - 1).full.Some? {
        var m: nat :| m < n - 1 && run[m].committed && IsFull(run, m) && CursorsAt(run, n - 1).full.value <= run[m].at;
      }
    }
  }

  /** Any scan that starts 24 h or more after every committed full scan's start is full. */
  lemma FullAtLeastDaily(run: seq<Scan>, n: nat)
    requires n < |run|
    requires forall m: nat :: m < n && run[m].committed && IsFull(run, m) ==> run[n].at >= run[m].at + DAY_MS
    ensures IsFull(run, n)
  {
    FullCursorBound(run, n);
  }

  lemma {:induction false} HeavyCursorBound(run: seq<Scan>, n: nat)
    requires n <= |run|
    ensures var heavy := CursorsAt(run, n).heavy;
      heavy.Some? ==> exists m: nat ::
        m < n && run[m].committed && IsHeavy(run, m) && heavy.value == HeavyCursor(run[m].at, run[m].shape)
  {
    if n > 0 && CursorsAt(run, n).heavy.Some? {
      if CursorsAt(run, n).heavy == CursorsAt(run, n - 1).heavy {
        HeavyCursorBound(run, n - 1);
      }
    }
  }

  /** A full scan that is not heavy follows a committed heavy one of the same shape, under 7 days
      before: a creative rename the lean read cannot see is picked up by then. */
  lemma LeanNeedsRecentHeavy(run: seq<Scan>, n: nat)
    requires n < |run| && IsFull(run, n) && !IsHeavy(run, n)
    ensures exists m: nat ::
      && m < n && run[m].committed && IsHeavy(run, m)
      && run[m].shape == run[n].shape && run[m].at <= run[n].at < run[m].at + HEAVY_MAX_AGE_MS
  {
    HeavyCursorBound(run, n);
  }

  /** A full read an incremental scan asked for is not lost: until a full scan commits, every later
      scan runs full (dates in the first day of 1970 aside). */
  lemma {:induction false} RequestedFullReadHappens(run: seq<Scan>, n: nat, k: nat)
    requires n < k < |run| && run[n].committed && run[n].wantsFull && !IsFull(run, n)
    requires forall m: nat :: n < m < k ==> !(run[m].committed && IsFull(run, m))
    requires forall m: nat :: n < m <= k ==> run[m].at >= DAY_MS
    ensures IsFull(run, k) && CursorsAt(run, k).full == Some(0)
  {
    if k > n + 1 {
      RequestedFullReadHappens(run, n, k - 1);
    }
  }

  // ----- Full and heavy reads are made only when due -----

  /** No scan before `n` that committed started after it. */
  predicate ClockForward(run: seq<Scan>, n: nat)
    requires n < |run|
  {
    forall k :: 0 <= k < n && run[k].committed ==> run[k].at <= run[n].at
  }

  lemma {:induction false} CursorsBefore(run: seq<Scan>, n: nat, limit: nat)
    requires n <= |run| && forall k :: 0 <= k < n && run[k].committed ==> run[k].at <= limit
    ensures var c := CursorsAt(run, n);
      && (c.full.Some? ==> c.scan.Some?)
      && (c.scan.Some? ==> c.scan.value <= limit) && (c.full.Some? ==> c.full.value <= limit)
      && (c.heavy.Some? ==> c.heavy.value.at <= limit)
  {
    if n > 0 { CursorsBefore(run, n - 1, limit); }
  }

  /** A committed full scan whose completeness no later scan of the run has revoked. */
  predicate FullStands(run: seq<Scan>, m: nat, n: nat)
    requires n <= |run|
  {
    && m < n && run[m].committed && IsFull(run, m)
    && forall k :: m < k < n && run[k].committed && run[k].wantsFull ==> IsFull(run, k)
  }

  lemma {:induction false} StandingBound(run: seq<Scan>, n: nat, m: nat)
    requires n <= |run| && FullStands(run, m, n)
    ensures CursorsAt(run, n).full.Some? && CursorsAt(run, n).full.value >= run[m].at
  {
    if m < n - 1 { StandingBound(run, n - 1, m); }
  }

  lemma {:induction false} FullCursorIs(run: seq<Scan>, n: nat)
    requires n <= |run|
    ensures var full := CursorsAt(run, n).full;
      full.Some? ==> full == Some(0) || exists m: nat :: m < n && FullStands(run, m, n) && run[m].at == full.value
  {
    if n > 0 {
      FullCursorIs(run, n - 1);
      var was, full := CursorsAt(run, n - 1).full, CursorsAt(run, n).full;
      if run[n - 1].committed && IsFull(run, n - 1) && full == Some(run[n - 1].at) {
        assert FullStands(run, n - 1, n);
      } else if full == was && was.Some? && was != Some(0) {
        var m: nat :| m < n - 1 && FullStands(run, m, n - 1) && run[m].at == was.value;
        if full != Some(0) { StillStands(run, n, m); }
      }
    }
  }

  lemma StillStands(run: seq<Scan>, n: nat, m: nat)
    requires 0 < n <= |run| && FullStands(run, m, n - 1)
    requires CursorsAt(run, n).full == CursorsAt(run, n - 1).full && CursorsAt(run, n).full != Some(0)
    ensures FullStands(run, m, n)
  {
    StandingBound(run, n - 1, m);
  }

  /** While the clock does not go back, a scan is incremental if and only if a committed full scan, not
      revoked since by one that asked for a full read, started less than 86 400 000 ms before it. */
  lemma IncrementalIff(run: seq<Scan>, n: nat)
    requires n < |run| && ClockForward(run, n) && run[n].at >= 86_400_000
    ensures !IsFull(run, n) <==> exists m: nat :: m < n && FullStands(run, m, n) && run[n].at < run[m].at + 86_400_000
  {
    CursorsBefore(run, n, run[n].at);
    FullCursorIs(run, n);
    if m: nat :| m < n && FullStands(run, m, n) && run[n].at < run[m].at + 86_400_000 {
      StandingBound(run, n, m);
    }
  }

  lemma {:induction false} HeavyCursorAtLeast(run: seq<Scan>, n: nat, m: nat)
    requires m < n <= |run| && run[m].committed && IsHeavy(run, m)
    ensures CursorsAt(run, n).heavy.Some? && CursorsAt(run, n).heavy.value.at >= run[m].at
  {
    if m < n - 1 { HeavyCursorAtLeast(run, n - 1, m); }
  }

  /** A full scan within 604 800 000 ms of a committed heavy one is lean, unless it has to fall back or a
      heavy one of another shape was made. */
  lemma LeanWhenRecentHeavy(run: seq<Scan>, n: nat, m: nat)
    requires n < |run| && ClockForward(run, n) && !run[n].fellBack
    requires m < n && run[m].committed && IsHeavy(run, m) && run[n].at < run[m].at + 604_800_000
    requires forall k: nat :: k < n && run[k].committed && IsHeavy(run, k) ==> run[k].shape == run[n].shape
    ensures !IsHeavy(run, n)
  {
    CursorsBefore(run, n, run[n].at);
    HeavyCursorAtLeast(run, n, m);
    HeavyCursorBound(run, n);
    FirstIsCommitted(run, n, m);
  }

  lemma {:induction false} FirstIsCommitted(run: seq<Scan>, n: nat, m: nat)
    requires m < n <= |run| && run[m].committed
    ensures CursorsAt(run, n).scan.Some? && CursorsAt(run, n).scan.value >= run[m].at
  {
    if m < n - 1 { FirstIsCommitted(run, n - 1, m); }
  }

  /** An incremental scan reads exactly what was updated from 300 s before the newest committed start. */
  lemma IncrementalReads(run: seq<Scan>, n: nat) returns (m: nat)
    requires n < |run| && !IsFull(run, n)
    ensures m < n && run[m].committed && forall k :: 0 <= k < n && run[k].committed ==> run[k].at <= run[m].at
    ensures forall u: Update :: Reads(run, n, u) <==> u.visible <= run[n].at && u.time / 1000 + 300 >= run[m].at / 1000
  {
    CheckpointIsAStart(run, n);
    m :| m < n && run[m].committed && run[m].at == CursorsAt(run, n).scan.value;
    forall k | 0 <= k < n && run[k].committed ensures run[k].at <= run[m].at { FirstIsCommitted(run, n, k); }
  }

  // ----- Why a full read is heavy -----

  lemma {:induction false} SomeHeavy(run: seq<Scan>, n: nat)
    requires n <= |run|
    ensures CursorsAt(run, n).scan.None? <==> forall k :: 0 <= k < n ==> !run[k].committed
    ensures CursorsAt(run, n).heavy.None? <==> forall k :: 0 <= k < n && run[k].committed ==> !IsHeavy(run, k)
  {
    if n > 0 { SomeHeavy(run, n - 1); }
  }

  /** While the clock does not go back, the reason for a heavy read tells what the run lacks: a committed
      scan, a committed heavy one, one of this shape as the newest, or one less than 604 800 000 ms old. */
  lemma HeavyReasonTells(run: seq<Scan>, n: nat)
    requires n < |run| && ClockForward(run, n)
    ensures var plan := FullReadPlan(CursorsAt(run, n), run[n].at, run[n].shape);
      && (plan == Heavy("no_scan_checkpoint") <==> forall k :: 0 <= k < n ==> !run[k].committed)
      && (plan == Heavy("no_heavy_checkpoint") <==>
            (exists k :: 0 <= k < n && run[k].committed) && forall k :: 0 <= k < n && run[k].committed ==> !IsHeavy(run, k))
      && (plan == Heavy("heavy_shape_changed") ==> exists m: nat :: NewestHeavy(run, m, n) && run[m].shape != run[n].shape)
      && (plan == Heavy("heavy_reconcile_due") ==> exists m: nat ::
            NewestHeavy(run, m, n) && run[m].shape == run[n].shape && run[n].at >= run[m].at + 604_800_000)
  {
    CursorsBefore(run, n, run[n].at);
    SomeHeavy(run, n);
    if CursorsAt(run, n).heavy.Some? { var m := NewestHeavyOf(run, n); }
  }

  predicate NewestHeavy(run: seq<Scan>, m: nat, n: nat)
    requires n <= |run|
  {
    && m < n && run[m].committed && IsHeavy(run, m)
    && forall k :: 0 <= k < n && run[k].committed && IsHeavy(run, k) ==> run[k].at <= run[m].at
  }

  lemma NewestHeavyOf(run: seq<Scan>, n: nat) returns (m: nat)
    requires n <= |run| && CursorsAt(run, n).heavy.Some?
    ensures NewestHeavy(run, m, n) && CursorsAt(run, n).heavy == Some(HeavyCursor(run[m].at, run[m].shape))
  {
    HeavyCursorBound(run, n);
    m :| m < n && run[m].committed && IsHeavy(run, m) && CursorsAt(run, n).heavy.value == HeavyCursor(run[m].at, run[m].shape);
    forall k | 0 <= k < n && run[k].committed && IsHeavy(run, k) ensures run[k].at <= run[m].at { HeavyCursorAtLeast(run, n, k); }
  }
}
