/** Two levels: rolling the derived ad set rows up again derives the campaign rows. */
module RollupLevels {
  import opened Options
  import opened RollupSums
  import opened RollupActions
  import opened RollupResults
  import opened HotRollup

  /** A derived row as a source row. */
  function AsRow(d: Derived): Row {
    Row(Some(d.campaignId), d.adsetId, Some(d.day), d.names, Num(d.spend), Num(d.clicks), Num(d.linkClicks), Num(d.impressions),
      d.actions, d.actionValues, d.results, d.goal)
  }

  function AsRows(ds: seq<Derived>): seq<Row> {
    seq(|ds|, i requires 0 <= i < |ds| => AsRow(ds[i]))
  }

  function Part(rows: seq<Row>, id: string): seq<Row> {
    Group(Adset, id, rows)
  }

  /** The ad sets of a campaign's rows, each once. */
  predicate Parted(rows: seq<Row>, ids: seq<string>) {
    && rows != [] && Distinct(ids)
    && (forall i :: 0 <= i < |rows| ==> IdOf(Adset)(rows[i]) in ids)
    && forall i :: 0 <= i < |ids| ==> Part(rows, ids[i]) != []
  }

  /** `ds` derives them. */
  ghost predicate Split(rows: seq<Row>, ids: seq<string>, ds: seq<Derived>, indicators: seq<string>) {
    && Parted(rows, ids) && |ids| == |ds|
    && forall i :: 0 <= i < |ids| ==> Measures(ds[i], Part(rows, ids[i]), indicators)
  }

  lemma PartIs(rows: seq<Row>, id: string, row: Row)
    ensures row in Part(rows, id) <==> row in rows && IdOf(Adset)(row) == id
  {
    InFilter(KeyIs(IdOf(Adset), id), rows, row);
  }

  /** What holds of every ad set's every row holds of every row, and conversely. */
  lemma RowsOfParts(rows: seq<Row>, ids: seq<string>, p: Row -> bool)
    requires Parted(rows, ids)
    ensures (forall x :: x in rows ==> p(x)) <==> (forall i :: 0 <= i < |ids| ==> forall x :: x in Part(rows, ids[i]) ==> p(x))
  {
    if forall i :: 0 <= i < |ids| ==> forall x :: x in Part(rows, ids[i]) ==> p(x) {
      forall x | x in rows ensures p(x) {
        var k :| 0 <= k < |rows| && rows[k] == x;
        var i :| 0 <= i < |ids| && ids[i] == IdOf(Adset)(x);
        PartIs(rows, ids[i], x);
      }
    }
    forall i, x | 0 <= i < |ids| && x in Part(rows, ids[i]) ensures x in rows { PartIs(rows, ids[i], x); }
  }

  /** A number that is additive at the first level is additive at the second. */
  lemma LevelSum(rows: seq<Row>, ids: seq<string>, ds: seq<Derived>, f: Row -> real, g: Row -> real)
    requires Parted(rows, ids) && |ids| == |ds|
    requires forall i :: 0 <= i < |ids| ==> f(AsRow(ds[i])) == SumBy(g, Part(rows, ids[i]))
    ensures SumBy(f, AsRows(ds)) == SumBy(g, rows)
  {
    SumPointwise(f, AsRows(ds), GroupTotal(g, IdOf(Adset), rows), ids);
    SumOfGroups(g, IdOf(Adset), ids, rows);
  }

  // ----- Numbers -----

  predicate MicroSpend(rows: seq<Row>) {
    forall i :: 0 <= i < |rows| ==> IsMicro(Spend(rows[i]))
  }

  lemma PartsKeepMicros(rows: seq<Row>, id: string, f: Row -> real)
    requires forall i :: 0 <= i < |rows| ==> IsMicro(f(rows[i]))
    ensures IsMicro(SumBy(f, Part(rows, id)))
  {
    var part := Part(rows, id);
    forall i | 0 <= i < |part| ensures IsMicro(f(part[i])) {
      assert part[i] in part;
      PartIs(rows, id, part[i]);
    }
    SumIsMicro(f, part);
  }

  lemma SpendLevels(rows: seq<Row>, ids: seq<string>, ds: seq<Derived>)
    requires Parted(rows, ids) && |ids| == |ds| && forall i :: 0 <= i < |ids| ==> Numbers(ds[i], Part(rows, ids[i]))
    requires MicroSpend(rows)
    ensures SumBy(Spend, AsRows(ds)) == SumBy(Spend, rows)
  {
    forall i | 0 <= i < |ids| ensures Spend(AsRow(ds[i])) == SumBy(Spend, Part(rows, ids[i])) {
      PartsKeepMicros(rows, ids[i], Spend);
      RoundSumKeepsMicros(SumBy(Spend, Part(rows, ids[i])));
    }
    LevelSum(rows, ids, ds, Spend, Spend);
  }

  lemma RoundIsWhole(x: real)
    ensures Whole(Round(x))
  {
    FloorIs(Round(x), (x + 0.5).Floor);
  }

  /** Whole counts need no assumption on the input. */
  lemma CountLevels(rows: seq<Row>, ids: seq<string>, ds: seq<Derived>)
    requires Parted(rows, ids) && |ids| == |ds| && forall i :: 0 <= i < |ids| ==> Numbers(ds[i], Part(rows, ids[i]))
    ensures SumBy(Clicks, AsRows(ds)) == SumBy(Clicks, rows)
    ensures SumBy(LinkClicks, AsRows(ds)) == SumBy(LinkClicks, rows)
    ensures SumBy(Impressions, AsRows(ds)) == SumBy(Impressions, rows)
  {
    forall i | 0 <= i < |ids|
      ensures Clicks(AsRow(ds[i])) == SumBy(Clicks, Part(rows, ids[i]))
      ensures LinkClicks(AsRow(ds[i])) == SumBy(LinkClicks, Part(rows, ids[i]))
      ensures Impressions(AsRow(ds[i])) == SumBy(Impressions, Part(rows, ids[i]))
    {
      WholeTotal(Clicks, Part(rows, ids[i]));
      WholeTotal(LinkClicks, Part(rows, ids[i]));
      WholeTotal(Impressions, Part(rows, ids[i]));
    }
    LevelSum(rows, ids, ds, Clicks, Clicks);
    LevelSum(rows, ids, ds, LinkClicks, LinkClicks);
    LevelSum(rows, ids, ds, Impressions, Impressions);
  }

  lemma WholeTotal(f: Row -> real, part: seq<Row>)
    requires f == Clicks || f == LinkClicks || f == Impressions
    ensures Round(SumBy(f, part)) == SumBy(f, part)
  {
    forall i | 0 <= i < |part| ensures Whole(f(part[i])) {
      RoundIsWhole(Finite(part[i].clicks));
      RoundIsWhole(Finite(part[i].linkClicks));
      RoundIsWhole(Finite(part[i].impressions));
    }
    SumIsWhole(f, part);
    WholeRounds(SumBy(f, part));
  }

  // ----- Goal -----

  ghost predicate GoalsDerived(rows: seq<Row>, ids: seq<string>, ds: seq<Derived>) {
    && Parted(rows, ids) && |ids| == |ds|
    && forall i :: 0 <= i < |ids| ==> CommonGoal(Part(rows, ids[i]), ds[i].goal)
  }

  lemma GoalLevels(rows: seq<Row>, ids: seq<string>, ds: seq<Derived>, goal: Option<string>)
    requires GoalsDerived(rows, ids, ds)
    ensures CommonGoal(AsRows(ds), goal) <==> CommonGoal(rows, goal)
  {
    forall g ensures AllHaveGoal(AsRows(ds), g) <==> AllHaveGoal(rows, g) {
      GoalAgrees(rows, ids, ds, g);
    }
  }

  lemma GoalAgrees(rows: seq<Row>, ids: seq<string>, ds: seq<Derived>, g: string)
    requires GoalsDerived(rows, ids, ds)
    ensures AllHaveGoal(AsRows(ds), g) <==> AllHaveGoal(rows, g)
  {
    var has := (row: Row) => NonEmpty(row.goal) == Some(g);
    AllHaveGoalIs(rows, g);
    forall i | 0 <= i < |ids| ensures has(AsRow(ds[i])) <==> forall x :: x in Part(rows, ids[i]) ==> has(x) {
      AllHaveGoalIs(Part(rows, ids[i]), g);
      DerivedGoal(Part(rows, ids[i]), ds[i].goal);
    }
    EveryLevel(rows, ids, ds, has);
    assert IdOf(Adset)(rows[0]) in ids;
    AllHaveGoalIs(AsRows(ds), g);
  }

  lemma DerivedGoal(rows: seq<Row>, goal: Option<string>)
    requires rows != [] && CommonGoal(rows, goal)
    ensures NonEmpty(goal) == goal
  {
    assert NonEmpty(rows[0].goal) != Some("");
    assert !AllHaveGoal(rows, "");
  }

  lemma AllHaveGoalIs(rows: seq<Row>, g: string)
    requires rows != []
    ensures AllHaveGoal(rows, g) <==> forall x :: x in rows ==> NonEmpty(x.goal) == Some(g)
  {
  }

  // ----- Results -----

  lemma CountsReadBack(vs: seq<WindowValue>, counts: Sums)
    requires ListsCounts(vs, counts) && forall w :: w in counts ==> counts[w] >= 0.0
    ensures ValuesUpTo(vs) == Some(counts) && (counts != map[] ==> vs != [])
  {
    ValuesIff(vs);
    var read := ValuesUpTo(vs).value;
    forall w ensures (w in read <==> w in counts) && AtKey(read, w) == AtKey(counts, w) {
      if i :| 0 <= i < |vs| && WindowOf(vs[i]) == Some(w) { assert read[w] == Finite(vs[i].value); }
    }
    SameSums(read, counts);
  }

  /** A derived list has one entry for an indicator the ads reported, and none for any other. */
  lemma {:induction false} DerivedEntry(out: seq<Entry>, ads: seq<Results>, indicators: seq<string>, indicator: string)
    requires ListsResults(out, ads, indicators) && Distinct(indicators)
    ensures var found, total := Filter(NamedBy(indicator), out), TotalOf(ads, indicator);
      if indicator in indicators && !total.Nothing? then |found| == 1 && EntryStates(found[0], indicator, total) else found == []
  {
    if indicators != [] {
      var n := |indicators| - 1;
      assert indicators == indicators[..n] + [indicators[n]];
      DistinctSnoc(indicators[..n], indicators[n]);
      if TotalOf(ads, indicators[n]).Nothing? {
        DerivedEntry(out, ads, indicators[..n], indicator);
      } else {
        DerivedEntry(out[..|out| - 1], ads, indicators[..n], indicator);
      }
    }
  }

  function ResultsOf(rows: seq<Row>, indicator: string): Total {
    TotalOf(AdResults(rows), indicator)
  }

  lemma RoundedCounts(total: Total)
    requires total.Values? && total.counts != map[] && forall w :: w in total.counts ==> total.counts[w] >= 0.0
    ensures RoundedSums(total.counts) != map[]
    ensures forall w :: w in RoundedSums(total.counts) ==> RoundedSums(total.counts)[w] >= 0.0
  {
    var w :| w in total.counts;
    assert w in RoundedSums(total.counts);
    forall w | w in total.counts ensures RoundSum(total.counts[w]) >= 0.0 {
      assert total.counts[w] * MICRO >= 0.0;
      assert (total.counts[w] * MICRO + 0.5).Floor >= 0;
    }
  }

  /** A derived row's results read back as what they state: values as values, unknown and nothing as neither. */
  lemma DerivedReads(results: Results, ads: seq<Results>, indicators: seq<string>, indicator: string)
    requires StatesResults(results, ads, indicators) && Distinct(indicators) && indicator in indicators
    ensures Reported(results, indicator) <==> !TotalOf(ads, indicator).Nothing?
    ensures WindowValues(results, indicator) ==
      if TotalOf(ads, indicator).Values? then Some(RoundedSums(TotalOf(ads, indicator).counts)) else None
  {
    var out, total := (if results.None? then [] else results.value), TotalOf(ads, indicator);
    DerivedEntry(out, ads, indicators, indicator);
    ReportedIs(out, indicator);
    if total.Values? {
      TotalIff(ads, indicator);
      RoundedCounts(total);
      CountsReadBack(Filter(NamedBy(indicator), out)[0].values.value, RoundedSums(total.counts));
    }
  }

  lemma ReportedIs(out: seq<Entry>, indicator: string)
    ensures (exists i :: 0 <= i < |out| && IsNamed(out[i], indicator)) <==> Filter(NamedBy(indicator), out) != []
  {
    var found := Filter(NamedBy(indicator), out);
    if found != [] {
      assert found[0] in found;
      InFilter(NamedBy(indicator), out, found[0]);
    }
    if i :| 0 <= i < |out| && IsNamed(out[i], indicator) {
      InFilter(NamedBy(indicator), out, out[i]);
    }
  }

  function RowCountIn(indicator: string, w: string): Row -> real {
    (row: Row) => CountIn(indicator, w)(row.results)
  }

  ghost predicate MicroResults(rows: seq<Row>, indicator: string) {
    forall i, w :: 0 <= i < |rows| ==> IsMicro(RowCountIn(indicator, w)(rows[i]))
  }

  lemma CountsByRow(rows: seq<Row>, indicator: string, w: string)
    ensures AtKey(WindowTotals(AdResults(rows), indicator), w) == SumBy(RowCountIn(indicator, w), rows)
    ensures w in WindowTotals(AdResults(rows), indicator) <==> exists x :: x in rows && HasWindow(x, indicator, w)
  {
    WindowTotal(AdResults(rows), indicator, w);
    SumPointwise(CountIn(indicator, w), AdResults(rows), RowCountIn(indicator, w), rows);
    forall i | 0 <= i < |rows| ensures AdResults(rows)[i] == rows[i].results && rows[i] in rows {
    }
    if w in Windows(AdResults(rows), indicator) {
      var i :| 0 <= i < |rows| && WindowValues(AdResults(rows)[i], indicator).Some? && w in WindowValues(AdResults(rows)[i], indicator).value;
      assert HasWindow(rows[i], indicator, w);
    }
    if x :| x in rows && HasWindow(x, indicator, w) {
      var i :| 0 <= i < |rows| && rows[i] == x;
      assert AdResults(rows)[i] == x.results;
    }
  }

  predicate HasWindow(row: Row, indicator: string, w: string) {
    var m := WindowValues(row.results, indicator);
    m.Some? && w in m.value
  }

  predicate GivesValues(row: Row, indicator: string) {
    WindowValues(row.results, indicator).Some?
  }

  predicate Mentions(row: Row, indicator: string) {
    Reported(row.results, indicator)
  }

  lemma TotalByRow(rows: seq<Row>, indicator: string)
    requires rows != []
    ensures ResultsOf(rows, indicator).Nothing? <==> forall x :: x in rows ==> !Mentions(x, indicator)
    ensures ResultsOf(rows, indicator).Values? <==> forall x :: x in rows ==> GivesValues(x, indicator)
    ensures ResultsOf(rows, indicator).Values? ==> ResultsOf(rows, indicator).counts == WindowTotals(AdResults(rows), indicator)
  {
    var ads := AdResults(rows);
    TotalIff(ads, indicator);
    forall i | 0 <= i < |rows|
      ensures rows[i] in rows
      ensures Reported(ads[i], indicator) <==> Mentions(rows[i], indicator)
      ensures WindowValues(ads[i], indicator).Some? <==> GivesValues(rows[i], indicator)
    {
    }
    forall x | x in rows ensures exists i :: 0 <= i < |ads| && ads[i] == x.results {
      var i :| 0 <= i < |rows| && rows[i] == x;
      assert ads[i] == x.results;
    }
  }

  ghost predicate ResultsDerived(rows: seq<Row>, ids: seq<string>, ds: seq<Derived>, indicators: seq<string>) {
    && Parted(rows, ids) && |ids| == |ds| && Distinct(indicators)
    && forall i :: 0 <= i < |ids| ==> StatesResults(ds[i].results, AdResults(Part(rows, ids[i])), indicators)
  }

  /** Values, unknown or nothing: the second level states what the first level's ads state. */
  lemma ResultLevels(rows: seq<Row>, ids: seq<string>, ds: seq<Derived>, indicators: seq<string>, indicator: string)
    requires ResultsDerived(rows, ids, ds, indicators) && indicator in indicators && MicroResults(rows, indicator)
    ensures ResultsOf(AsRows(ds), indicator) == ResultsOf(rows, indicator)
  {
    StatesLevels(rows, ids, ds, indicators, indicator);
    TotalByRow(rows, indicator);
    assert IdOf(Adset)(rows[0]) in ids;
    TotalByRow(AsRows(ds), indicator);
    if ResultsOf(rows, indicator).Values? {
      CountLevelsOf(rows, ids, ds, indicators, indicator);
    }
  }

  lemma StatesLevels(rows: seq<Row>, ids: seq<string>, ds: seq<Derived>, indicators: seq<string>, indicator: string)
    requires ResultsDerived(rows, ids, ds, indicators) && indicator in indicators
    ensures (forall x :: x in AsRows(ds) ==> !Mentions(x, indicator)) <==> (forall x :: x in rows ==> !Mentions(x, indicator))
    ensures (forall x :: x in AsRows(ds) ==> GivesValues(x, indicator)) <==> (forall x :: x in rows ==> GivesValues(x, indicator))
  {
    var silent, give := (x: Row) => !Mentions(x, indicator), (x: Row) => GivesValues(x, indicator);
    forall i | 0 <= i < |ids|
      ensures silent(AsRow(ds[i])) <==> forall x :: x in Part(rows, ids[i]) ==> silent(x)
      ensures give(AsRow(ds[i])) <==> forall x :: x in Part(rows, ids[i]) ==> give(x)
    {
      OnePartStates(Part(rows, ids[i]), ds[i], indicators, indicator);
    }
    EveryLevel(rows, ids, ds, silent);
    EveryLevel(rows, ids, ds, give);
  }

  lemma EveryLevel(rows: seq<Row>, ids: seq<string>, ds: seq<Derived>, p: Row -> bool)
    requires Parted(rows, ids) && |ids| == |ds|
    requires forall i :: 0 <= i < |ids| ==> (p(AsRow(ds[i])) <==> forall x :: x in Part(rows, ids[i]) ==> p(x))
    ensures (forall x :: x in AsRows(ds) ==> p(x)) <==> (forall x :: x in rows ==> p(x))
  {
    RowsOfParts(rows, ids, p);
    forall i | 0 <= i < |ds| ensures AsRow(ds[i]) in AsRows(ds) { assert AsRows(ds)[i] == AsRow(ds[i]); }
    assert forall x :: x in AsRows(ds) ==> exists i :: 0 <= i < |ds| && x == AsRow(ds[i]);
  }

  lemma OnePartStates(part: seq<Row>, d: Derived, indicators: seq<string>, indicator: string)
    requires part != [] && StatesResults(d.results, AdResults(part), indicators) && Distinct(indicators) && indicator in indicators
    ensures !Mentions(AsRow(d), indicator) <==> forall x :: x in part ==> !Mentions(x, indicator)
    ensures GivesValues(AsRow(d), indicator) <==> forall x :: x in part ==> GivesValues(x, indicator)
  {
    DerivedReads(d.results, AdResults(part), indicators, indicator);
    TotalByRow(part, indicator);
  }

  lemma CountLevelsOf(rows: seq<Row>, ids: seq<string>, ds: seq<Derived>, indicators: seq<string>, indicator: string)
    requires ResultsDerived(rows, ids, ds, indicators) && indicator in indicators && MicroResults(rows, indicator)
    requires forall x :: x in rows ==> GivesValues(x, indicator)
    ensures WindowTotals(AdResults(AsRows(ds)), indicator) == WindowTotals(AdResults(rows), indicator)
  {
    var again, once := WindowTotals(AdResults(AsRows(ds)), indicator), WindowTotals(AdResults(rows), indicator);
    forall w ensures (w in again <==> w in once) && AtKey(again, w) == AtKey(once, w) {
      WindowLevels(rows, ids, ds, indicators, indicator, w);
      CountsByRow(rows, indicator, w);
      CountsByRow(AsRows(ds), indicator, w);
    }
    SameSums(again, once);
  }

  lemma WindowLevels(rows: seq<Row>, ids: seq<string>, ds: seq<Derived>, indicators: seq<string>, indicator: string, w: string)
    requires ResultsDerived(rows, ids, ds, indicators) && indicator in indicators && MicroResults(rows, indicator)
    requires forall x :: x in rows ==> GivesValues(x, indicator)
    ensures SumBy(RowCountIn(indicator, w), AsRows(ds)) == SumBy(RowCountIn(indicator, w), rows)
    ensures (forall x :: x in AsRows(ds) ==> !HasWindow(x, indicator, w)) <==> (forall x :: x in rows ==> !HasWindow(x, indicator, w))
  {
    var lacks := (x: Row) => !HasWindow(x, indicator, w);
    forall i | 0 <= i < |ids|
      ensures RowCountIn(indicator, w)(AsRow(ds[i])) == SumBy(RowCountIn(indicator, w), Part(rows, ids[i]))
      ensures lacks(AsRow(ds[i])) <==> forall x :: x in Part(rows, ids[i]) ==> lacks(x)
    {
      forall x | x in Part(rows, ids[i]) ensures GivesValues(x, indicator) { PartIs(rows, ids[i], x); }
      PartsKeepMicros(rows, ids[i], RowCountIn(indicator, w));
      OnePartCounts(Part(rows, ids[i]), ds[i], indicators, indicator, w);
    }
    LevelSum(rows, ids, ds, RowCountIn(indicator, w), RowCountIn(indicator, w));
    EveryLevel(rows, ids, ds, lacks);
  }

  lemma OnePartCounts(part: seq<Row>, d: Derived, indicators: seq<string>, indicator: string, w: string)
    requires StatesResults(d.results, AdResults(part), indicators) && Distinct(indicators) && indicator in indicators
    requires part != [] && IsMicro(SumBy(RowCountIn(indicator, w), part)) && forall x :: x in part ==> GivesValues(x, indicator)
    ensures RowCountIn(indicator, w)(AsRow(d)) == SumBy(RowCountIn(indicator, w), part)
    ensures HasWindow(AsRow(d), indicator, w) <==> exists x :: x in part && HasWindow(x, indicator, w)
  {
    OnePartReads(part, d, indicators, indicator);
    CountsByRow(part, indicator, w);
    RoundSumKeepsMicros(SumBy(RowCountIn(indicator, w), part));
    var m := WindowTotals(AdResults(part), indicator);
    RoundedAt(m, w);
    assert AsRow(d).results == d.results;
    assert CountIn(indicator, w)(d.results) == AtKey(RoundedSums(m), w);
  }

  lemma OnePartReads(part: seq<Row>, d: Derived, indicators: seq<string>, indicator: string)
    requires StatesResults(d.results, AdResults(part), indicators) && Distinct(indicators) && indicator in indicators
    requires part != [] && forall x :: x in part ==> GivesValues(x, indicator)
    ensures WindowValues(d.results, indicator) == Some(RoundedSums(WindowTotals(AdResults(part), indicator)))
  {
    DerivedReads(d.results, AdResults(part), indicators, indicator);
    TotalByRow(part, indicator);
  }

  lemma RoundedAt(sums: Sums, k: string)
    ensures AtKey(RoundedSums(sums), k) == RoundSum(AtKey(sums, k))
  {
    RoundSumKeepsMicros(0.0);
  }
}
