/** One configured outcome over a group's ads: values, unknown, or nothing; never a partial sum. */
module RollupResults {
  import opened Options
  import opened RollupSums

  datatype WindowValue = WindowValue(windows: Option<seq<Option<string>>>, value: Raw)
  datatype Entry = Entry(indicator: Option<string>, values: Option<seq<WindowValue>>)

  /** An ad's `results` member: absent, or its entries. */
  type Results = Option<seq<Entry>>

  datatype Total = Nothing | Unknown | Values(counts: Sums)

  // ----- One ad -----

  function WindowOf(v: WindowValue): Option<string> {
    if v.windows.Some? && |v.windows.value| == 1 then NonEmpty(v.windows.value[0]) else None
  }

  predicate CountGiven(v: WindowValue) {
    v.value.Num? && v.value.x >= 0.0
  }

  function ValuesUpTo(vs: seq<WindowValue>): Option<Sums> {
    if vs == [] then Some(map[])
    else
      var before, last := ValuesUpTo(vs[..|vs| - 1]), vs[|vs| - 1];
      if before.None? || WindowOf(last).None? || WindowOf(last).value in before.value || !CountGiven(last) then None
      else Some(before.value[WindowOf(last).value := last.value.x])
  }

  predicate IsNamed(e: Entry, indicator: string) {
    e.indicator == Some(indicator)
  }

  function NamedBy(indicator: string): Entry -> bool {
    (e: Entry) => IsNamed(e, indicator)
  }

  function WindowValues(results: Results, indicator: string): Option<Sums> {
    if results.None? then None
    else
      var entries := Filter(NamedBy(indicator), results.value);
      if |entries| != 1 || entries[0].values.None? || entries[0].values.value == [] then None
      else ValuesUpTo(entries[0].values.value)
  }

  predicate WindowsDistinct(vs: seq<WindowValue>) {
    forall i, j :: 0 <= i < j < |vs| ==> WindowOf(vs[i]) != WindowOf(vs[j])
  }

  predicate Summable(vs: seq<WindowValue>) {
    (forall i :: 0 <= i < |vs| ==> WindowOf(vs[i]).Some? && CountGiven(vs[i])) && WindowsDistinct(vs)
  }

  predicate Reads(m: Sums, vs: seq<WindowValue>) {
    && (forall i :: 0 <= i < |vs| ==> WindowOf(vs[i]).Some? && WindowOf(vs[i]).value in m && m[WindowOf(vs[i]).value] == Finite(vs[i].value))
    && forall w :: w in m ==> exists i :: 0 <= i < |vs| && WindowOf(vs[i]) == Some(w)
  }

  /** An entry's values count exactly when each has one window of its own and a count that is no
      negative number, and then each window has its own value. */
  lemma ValuesIff(vs: seq<WindowValue>)
    ensures ValuesUpTo(vs).Some? <==> Summable(vs)
    ensures ValuesUpTo(vs).Some? ==>
      Reads(ValuesUpTo(vs).value, vs) && forall w :: w in ValuesUpTo(vs).value ==> ValuesUpTo(vs).value[w] >= 0.0
  {
    if ValuesUpTo(vs).Some? { ReadValues(vs); }
    if Summable(vs) { SummableValues(vs); }
  }

  lemma {:induction false} ReadValues(vs: seq<WindowValue>)
    requires ValuesUpTo(vs).Some?
    ensures Summable(vs) && Reads(ValuesUpTo(vs).value, vs)
    ensures forall w :: w in ValuesUpTo(vs).value ==> ValuesUpTo(vs).value[w] >= 0.0
  {
    if vs != [] {
      var front, last := vs[..|vs| - 1], vs[|vs| - 1];
      ReadValues(front);
      ReadsSnoc(ValuesUpTo(front).value, front, last);
      assert vs == front + [last];
    }
  }

  lemma ReadsSnoc(m: Sums, vs: seq<WindowValue>, v: WindowValue)
    requires Reads(m, vs) && WindowsDistinct(vs) && WindowOf(v).Some? && WindowOf(v).value !in m
    ensures Reads(m[WindowOf(v).value := Finite(v.value)], vs + [v]) && WindowsDistinct(vs + [v])
  {
    var all, next := vs + [v], m[WindowOf(v).value := Finite(v.value)];
    forall w | w in next ensures exists i :: 0 <= i < |all| && WindowOf(all[i]) == Some(w) {
      if w in m {
        var i :| 0 <= i < |vs| && WindowOf(vs[i]) == Some(w);
        assert all[i] == vs[i];
      } else {
        assert all[|vs|] == v;
      }
    }
  }

  lemma {:induction false} SummableValues(vs: seq<WindowValue>)
    requires Summable(vs)
    ensures ValuesUpTo(vs).Some?
  {
    if vs != [] {
      SummableValues(vs[..|vs| - 1]);
      ReadValues(vs[..|vs| - 1]);
      LastWindow(vs);
    }
  }

  lemma LastWindow(vs: seq<WindowValue>)
    requires vs != [] && WindowOf(vs[|vs| - 1]).Some?
    requires ValuesUpTo(vs[..|vs| - 1]).Some? && Reads(ValuesUpTo(vs[..|vs| - 1]).value, vs[..|vs| - 1])
    ensures WindowOf(vs[|vs| - 1]).value in ValuesUpTo(vs[..|vs| - 1]).value <==>
      exists i :: 0 <= i < |vs| - 1 && WindowOf(vs[i]) == WindowOf(vs[|vs| - 1])
  {
    var front, m := vs[..|vs| - 1], ValuesUpTo(vs[..|vs| - 1]).value;
    forall i | 0 <= i < |vs| - 1 ensures WindowOf(vs[i]).Some? && WindowOf(vs[i]).value in m { assert front[i] == vs[i]; }
  }

  method ReadWindowValues(results: Results, indicator: string) returns (r: Option<Sums>)
    ensures r == WindowValues(results, indicator)
  {
    if results.None? {
      return None;
    }
    var entries := Filter(NamedBy(indicator), results.value);
    if |entries| != 1 || entries[0].values.None? || entries[0].values.value == [] {
      return None;
    }
    var vs := entries[0].values.value;
    var byWindow: Sums := map[];
    for i := 0 to |vs|
      invariant ValuesUpTo(vs[..i]) == Some(byWindow)
    {
      var w := WindowOf(vs[i]);
      assert vs[..i + 1][..i] == vs[..i];
      if w.None? || w.value in byWindow || !CountGiven(vs[i]) {
        StaysNone(vs, i + 1);
        return None;
      }
      byWindow := byWindow[w.value := vs[i].value.x];
    }
    assert vs[..|vs|] == vs;
    return Some(byWindow);
  }

  lemma {:induction false} StaysNone(vs: seq<WindowValue>, i: nat)
    requires i <= |vs| && ValuesUpTo(vs[..i]).None?
    ensures ValuesUpTo(vs).None?
    decreases |vs| - i
  {
    if i < |vs| {
      assert vs[..i + 1][..i] == vs[..i];
      StaysNone(vs, i + 1);
    } else {
      assert vs[..i] == vs;
    }
  }

  // ----- A group of ads -----

  predicate Reported(results: Results, indicator: string) {
    results.Some? && exists i :: 0 <= i < |results.value| && IsNamed(results.value[i], indicator)
  }

  function CountIn(indicator: string, w: string): Results -> real {
    (results: Results) =>
      var m := WindowValues(results, indicator);
      if m.Some? && w in m.value then m.value[w] else 0.0
  }

  predicate AllSummable(ads: seq<Results>, indicator: string) {
    forall i :: 0 <= i < |ads| ==> WindowValues(ads[i], indicator).Some?
  }

  function Windows(ads: seq<Results>, indicator: string): set<string> {
    set i, w | 0 <= i < |ads| && WindowValues(ads[i], indicator).Some? && w in WindowValues(ads[i], indicator).value :: w
  }

  /** Nothing when no ad reported the indicator; the windows' totals when every ad gave summable
      values; otherwise unknown. */
  function TotalOf(ads: seq<Results>, indicator: string): Total {
    if !exists i :: 0 <= i < |ads| && Reported(ads[i], indicator) then Nothing
    else if !AllSummable(ads, indicator) then Unknown
    else Values(WindowTotals(ads, indicator))
  }

  function WindowTotals(ads: seq<Results>, indicator: string): Sums {
    map w | w in Windows(ads, indicator) :: SumBy(CountIn(indicator, w), ads)
  }

  lemma WindowsSnoc(ads: seq<Results>, ad: Results, indicator: string)
    requires WindowValues(ad, indicator).Some?
    ensures Windows(ads + [ad], indicator) == Windows(ads, indicator) + WindowValues(ad, indicator).value.Keys
  {
    var all := ads + [ad];
    forall w | w in Windows(ads, indicator) + WindowValues(ad, indicator).value.Keys ensures w in Windows(all, indicator) {
      if w in Windows(ads, indicator) {
        var i :| 0 <= i < |ads| && WindowValues(ads[i], indicator).Some? && w in WindowValues(ads[i], indicator).value;
        assert all[i] == ads[i];
      } else {
        assert all[|ads|] == ad;
      }
    }
  }

  lemma {:induction false} CountsOfAbsent(ads: seq<Results>, indicator: string, w: string)
    requires w !in Windows(ads, indicator)
    ensures SumBy(CountIn(indicator, w), ads) == 0.0
  {
    if ads != [] {
      var front := ads[..|ads| - 1];
      assert forall i :: 0 <= i < |front| ==> front[i] == ads[i];
      CountsOfAbsent(front, indicator, w);
    }
  }

  method SumResultIndicator(ads: seq<Results>, indicator: string) returns (total: Total)
    ensures total == TotalOf(ads, indicator)
  {
    var reported := exists i :: 0 <= i < |ads| && Reported(ads[i], indicator);
    if !reported {
      return Nothing;
    }
    var totals: Sums := map[];
    for i := 0 to |ads|
      invariant AllSummable(ads[..i], indicator)
      invariant totals == WindowTotals(ads[..i], indicator)
    {
      var byWindow := ReadWindowValues(ads[i], indicator);
      if byWindow.None? {
        return Unknown;
      }
      AddAd(ads[..i], ads[i], indicator);
      assert ads[..i + 1] == ads[..i] + [ads[i]];
      totals := AddTo(totals, byWindow.value);
    }
    assert ads[..|ads|] == ads;
    return Values(totals);
  }

  lemma WindowTotal(ads: seq<Results>, indicator: string, w: string)
    ensures AtKey(WindowTotals(ads, indicator), w) == SumBy(CountIn(indicator, w), ads)
  {
    if w !in Windows(ads, indicator) { CountsOfAbsent(ads, indicator, w); }
  }

  lemma AddAd(ads: seq<Results>, ad: Results, indicator: string)
    requires WindowValues(ad, indicator).Some?
    ensures WindowTotals(ads + [ad], indicator) == AddTo(WindowTotals(ads, indicator), WindowValues(ad, indicator).value)
  {
    var now := WindowTotals(ads + [ad], indicator);
    var expected := AddTo(WindowTotals(ads, indicator), WindowValues(ad, indicator).value);
    WindowsSnoc(ads, ad, indicator);
    forall w ensures (w in now <==> w in expected) && AtKey(now, w) == AtKey(expected, w) {
      SumSnoc(CountIn(indicator, w), ads, ad);
      WindowTotal(ads, indicator, w);
      WindowTotal(ads + [ad], indicator, w);
    }
    SameSums(now, expected);
  }

  /** A total has values exactly when some ad reported the indicator and every ad gave summable
      values; counts are never negative; ads that all gave none are nothing, a mix is unknown. */
  lemma TotalIff(ads: seq<Results>, indicator: string)
    ensures TotalOf(ads, indicator).Values? <==> ads != [] && AllSummable(ads, indicator)
    ensures TotalOf(ads, indicator).Nothing? <==> forall i :: 0 <= i < |ads| ==> !Reported(ads[i], indicator)
    ensures TotalOf(ads, indicator).Values? ==>
      && TotalOf(ads, indicator).counts != map[]
      && forall w :: w in TotalOf(ads, indicator).counts ==> TotalOf(ads, indicator).counts[w] >= 0.0
  {
    forall i | 0 <= i < |ads| && WindowValues(ads[i], indicator).Some? ensures Reported(ads[i], indicator) {
      SummableIsReported(ads[i], indicator);
    }
    if ads != [] && AllSummable(ads, indicator) {
      assert Reported(ads[0], indicator);
      TotalsAreCounts(ads, indicator);
    }
  }

  lemma TotalsAreCounts(ads: seq<Results>, indicator: string)
    requires ads != [] && AllSummable(ads, indicator)
    ensures WindowTotals(ads, indicator) != map[]
    ensures forall w :: w in WindowTotals(ads, indicator) ==> WindowTotals(ads, indicator)[w] >= 0.0
  {
    SummableIsReported(ads[0], indicator);
    var w :| w in WindowValues(ads[0], indicator).value;
    assert w in Windows(ads, indicator);
    forall w | w in Windows(ads, indicator) ensures SumBy(CountIn(indicator, w), ads) >= 0.0 {
      forall i | 0 <= i < |ads| ensures CountIn(indicator, w)(ads[i]) >= 0.0 { SummableIsReported(ads[i], indicator); }
      SumOfNonNegative(CountIn(indicator, w), ads);
    }
  }

  lemma SummableIsReported(results: Results, indicator: string)
    requires WindowValues(results, indicator).Some?
    ensures Reported(results, indicator)
    ensures WindowValues(results, indicator).value != map[]
    ensures forall w :: w in WindowValues(results, indicator).value ==> WindowValues(results, indicator).value[w] >= 0.0
  {
    var entries := Filter(NamedBy(indicator), results.value);
    assert entries[0] in entries;
    InFilter(NamedBy(indicator), results.value, entries[0]);
    var i :| 0 <= i < |results.value| && results.value[i] == entries[0];
    assert IsNamed(results.value[i], indicator);
    ValuesIff(entries[0].values.value);
  }
}
