/** What a rollup conserves, and that the order of its rows does not matter. */
module RollupOrder {
  import opened Options
  import opened RollupSums
  import opened RollupActions
  import opened RollupResults
  import opened HotRollup

  // ----- Conservation -----

  function One(row: Row): real { 1.0 }
  function RowCount(out: Rolled): real { out.adRowCount as real }
  function RolledSpend(out: Rolled): real { out.row.spend }
  function RolledClicks(out: Rolled): real { out.row.clicks }
  function RolledLinkClicks(out: Rolled): real { out.row.linkClicks }
  function RolledImpressions(out: Rolled): real { out.row.impressions }

  lemma {:induction false} SumOfOnes(rows: seq<Row>)
    ensures SumBy(One, rows) == |rows| as real
  {
    if rows != [] { SumOfOnes(rows[..|rows| - 1]); }
  }

  /** What every derived row says of its group, the rows' totals say of the whole. */
  lemma TotalOfRolled(grain: Grain, out: seq<Rolled>, rows: seq<Row>, indicators: seq<string>, f: Rolled -> real, g: Row -> real)
    requires AllRolled(grain, out, rows, indicators)
    requires forall i :: 0 <= i < |out| ==> f(out[i]) == SumBy(g, Group(grain, Order(grain, rows)[i], rows))
    ensures SumBy(f, out) == SumBy(g, rows)
  {
    OrderIs(grain, rows);
    SumPointwise(f, out, GroupTotal(g, IdOf(grain), rows), Order(grain, rows));
    SumOfGroups(g, IdOf(grain), Order(grain, rows), rows);
  }

  lemma SpendIsClose(grain: Grain, out: seq<Rolled>, rows: seq<Row>, indicators: seq<string>, i: nat)
    requires AllRolled(grain, out, rows, indicators) && i < |out|
    ensures -0.0000005 <= out[i].row.spend - SumBy(Spend, Group(grain, Order(grain, rows)[i], rows)) <= 0.0000005
  {
    assert IsRolled(grain, out[i], Order(grain, rows)[i], rows, indicators);
    RoundSumIsClose(SumBy(Spend, Group(grain, Order(grain, rows)[i], rows)));
  }

  lemma {:induction false} SumIsClose(f: Rolled -> real, out: seq<Rolled>, g: string -> real, ids: seq<string>)
    requires |out| == |ids| && forall i :: 0 <= i < |out| ==> -0.0000005 <= f(out[i]) - g(ids[i]) <= 0.0000005
    ensures -0.0000005 * |out| as real <= SumBy(f, out) - SumBy(g, ids) <= 0.0000005 * |out| as real
  {
    if out != [] {
      var n := |out| - 1;
      SumIsClose(f, out[..n], g, ids[..n]);
      assert 0.0000005 * |out| as real == 0.0000005 * n as real + 0.0000005;
    }
  }

  /** At both grains, ad rows, clicks, link clicks and impressions are all accounted for, and rounding
      moves spend by at most half a millionth per derived row. */
  lemma Conserved(grain: Grain, out: seq<Rolled>, rows: seq<Row>, indicators: seq<string>)
    requires AllRolled(grain, out, rows, indicators)
    ensures SumBy(RowCount, out) == |rows| as real
    ensures SumBy(RolledClicks, out) == SumBy(Clicks, rows)
    ensures SumBy(RolledLinkClicks, out) == SumBy(LinkClicks, rows)
    ensures SumBy(RolledImpressions, out) == SumBy(Impressions, rows)
    ensures -0.0000005 * |out| as real <= SumBy(RolledSpend, out) - SumBy(Spend, rows) <= 0.0000005 * |out| as real
  {
    var ids := Order(grain, rows);
    forall i | 0 <= i < |out|
      ensures RowCount(out[i]) == SumBy(One, Group(grain, ids[i], rows)) && Numbers(out[i].row, Group(grain, ids[i], rows))
    {
      assert IsRolled(grain, out[i], ids[i], rows, indicators);
      SumOfOnes(Group(grain, ids[i], rows));
    }
    SumOfOnes(rows);
    TotalOfRolled(grain, out, rows, indicators, RowCount, One);
    TotalOfRolled(grain, out, rows, indicators, RolledClicks, Clicks);
    TotalOfRolled(grain, out, rows, indicators, RolledLinkClicks, LinkClicks);
    TotalOfRolled(grain, out, rows, indicators, RolledImpressions, Impressions);
    forall i | 0 <= i < |out|
      ensures -0.0000005 <= RolledSpend(out[i]) - GroupTotal(Spend, IdOf(grain), rows)(ids[i]) <= 0.0000005
    {
      SpendIsClose(grain, out, rows, indicators, i);
    }
    SumIsClose(RolledSpend, out, GroupTotal(Spend, IdOf(grain), rows), ids);
    OrderIs(grain, rows);
    SumOfGroups(Spend, IdOf(grain), ids, rows);
  }

  // ----- Order -----

  lemma SameMembers<T>(s: seq<T>, t: seq<T>, x: T)
    requires multiset(s) == multiset(t)
    ensures x in s <==> x in t
  {
    assert x in multiset(s) <==> x in multiset(t);
  }

  lemma {:induction false} FlatConcat(kind: Kind, s: seq<Row>, t: seq<Row>)
    ensures Flat(kind, s + t) == Flat(kind, s) + Flat(kind, t)
  {
    if t == [] {
      assert s + t == s;
    } else {
      var front, last := t[..|t| - 1], t[|t| - 1];
      FlatConcat(kind, s, front);
      Regroup(s, front, [last]);
      assert t == front + [last];
      SnocLists(kind, s + front, last);
      Regroup(Flat(kind, s), Flat(kind, front), ElementsOf(kind, last));
    }
  }

  lemma Regroup<T>(a: seq<T>, b: seq<T>, c: seq<T>)
    ensures a + b + c == a + (b + c)
  {
  }

  lemma FlatRemove(kind: Kind, t: seq<Row>, i: nat)
    requires i < |t|
    ensures multiset(Flat(kind, t)) == multiset(Flat(kind, t[..i] + t[i + 1..])) + multiset(ElementsOf(kind, t[i]))
  {
    assert t == t[..i] + [t[i]] + t[i + 1..];
    FlatConcat(kind, t[..i] + [t[i]], t[i + 1..]);
    SnocLists(kind, t[..i], t[i]);
    FlatConcat(kind, t[..i], t[i + 1..]);
  }

  lemma {:induction false} FlatOfPermutation(kind: Kind, s: seq<Row>, t: seq<Row>)
    requires multiset(s) == multiset(t)
    ensures multiset(Flat(kind, s)) == multiset(Flat(kind, t))
  {
    if s == [] {
      assert |multiset(t)| == 0;
    } else {
      var i := LastOccursIn(s, t);
      FlatOfPermutation(kind, s[..|s| - 1], t[..i] + t[i + 1..]);
      FlatRemove(kind, t, i);
    }
  }

  lemma {:induction false} AdResultsOfPermutation(s: seq<Row>, t: seq<Row>)
    requires multiset(s) == multiset(t)
    ensures multiset(AdResults(s)) == multiset(AdResults(t))
  {
    if s == [] {
      assert |multiset(t)| == 0;
    } else {
      var n := |s| - 1;
      var i := LastOccursIn(s, t);
      var rest := t[..i] + t[i + 1..];
      AdResultsOfPermutation(s[..n], rest);
      assert AdResults(s) == AdResults(s[..n]) + [s[n].results];
      assert AdResults(t) == AdResults(t[..i]) + [t[i].results] + AdResults(t[i + 1..]);
      assert AdResults(rest) == AdResults(t[..i]) + AdResults(t[i + 1..]);
    }
  }

  lemma TotalOfPermutation(ads: seq<Results>, others: seq<Results>, indicator: string)
    requires multiset(ads) == multiset(others)
    ensures TotalOf(ads, indicator) == TotalOf(others, indicator)
  {
    forall x ensures x in ads <==> x in others { SameMembers(ads, others, x); }
    assert (exists i :: 0 <= i < |ads| && Reported(ads[i], indicator)) <==> (exists x :: x in ads && Reported(x, indicator));
    assert (exists i :: 0 <= i < |others| && Reported(others[i], indicator)) <==> (exists x :: x in others && Reported(x, indicator));
    assert AllSummable(ads, indicator) <==> forall x :: x in ads ==> WindowValues(x, indicator).Some?;
    assert AllSummable(others, indicator) <==> forall x :: x in others ==> WindowValues(x, indicator).Some?;
    WindowTotalsOfPermutation(ads, others, indicator);
  }

  lemma WindowTotalsOfPermutation(ads: seq<Results>, others: seq<Results>, indicator: string)
    requires multiset(ads) == multiset(others)
    ensures WindowTotals(ads, indicator) == WindowTotals(others, indicator)
  {
    forall w ensures w in Windows(ads, indicator) <==> w in Windows(others, indicator) {
      WindowsAre(ads, indicator, w);
      WindowsAre(others, indicator, w);
      forall x ensures x in ads <==> x in others { SameMembers(ads, others, x); }
    }
    forall w | w in Windows(ads, indicator) ensures WindowTotals(ads, indicator)[w] == WindowTotals(others, indicator)[w] {
      SumOfPermutation(CountIn(indicator, w), ads, others);
    }
  }

  lemma WindowsAre(ads: seq<Results>, indicator: string, w: string)
    ensures w in Windows(ads, indicator) <==> exists x :: x in ads && WindowValues(x, indicator).Some? && w in WindowValues(x, indicator).value
  {
  }

  /** A derived row measures any permutation of its rows. */
  lemma MeasuresPermutation(d: Derived, s: seq<Row>, t: seq<Row>, indicators: seq<string>)
    requires multiset(s) == multiset(t) && Measures(d, s, indicators)
    ensures Measures(d, t, indicators)
  {
    SumOfPermutation(Spend, s, t);
    SumOfPermutation(Clicks, s, t);
    SumOfPermutation(LinkClicks, s, t);
    SumOfPermutation(Impressions, s, t);
    ListsPermutation(Actions, d.actions, s, t);
    ListsPermutation(ActionValues, d.actionValues, s, t);
    AdResultsOfPermutation(s, t);
    forall i | 0 <= i < |indicators| ensures TotalOf(AdResults(s), indicators[i]) == TotalOf(AdResults(t), indicators[i]) {
      TotalOfPermutation(AdResults(s), AdResults(t), indicators[i]);
    }
    SameResults(if d.results.None? then [] else d.results.value, AdResults(s), AdResults(t), indicators);
    GoalOfPermutation(s, t, d.goal);
  }

  lemma ListsPermutation(kind: Kind, list: Option<seq<Element>>, s: seq<Row>, t: seq<Row>)
    requires multiset(s) == multiset(t)
    ensures ListsActions(kind, list, s) <==> ListsActions(kind, list, t)
  {
    forall x ensures x in s <==> x in t { SameMembers(s, t, x); }
    assert AnyList(kind, s) <==> exists x :: x in s && ListOf(kind, x).Some?;
    assert AnyList(kind, t) <==> exists x :: x in t && ListOf(kind, x).Some?;
    FlatOfPermutation(kind, s, t);
    TableOfPermutation(Flat(kind, s), Flat(kind, t));
  }

  lemma GoalOfPermutation(s: seq<Row>, t: seq<Row>, goal: Option<string>)
    requires multiset(s) == multiset(t) && CommonGoal(s, goal)
    ensures CommonGoal(t, goal)
  {
    assert |s| == |multiset(s)| == |multiset(t)| == |t|;
    forall x ensures x in s <==> x in t { SameMembers(s, t, x); }
    forall g ensures AllHaveGoal(t, g) <==> AllHaveGoal(s, g) {
      assert AllHaveGoal(s, g) <==> s != [] && forall x :: x in s ==> NonEmpty(x.goal) == Some(g);
      assert AllHaveGoal(t, g) <==> t != [] && forall x :: x in t ==> NonEmpty(x.goal) == Some(g);
    }
  }

  lemma RollablePermutation(s: seq<Row>, t: seq<Row>)
    requires multiset(s) == multiset(t) && Rollable(s)
    ensures Rollable(t)
  {
    forall x ensures x in s <==> x in t { SameMembers(s, t, x); }
    forall i | 0 <= i < |t| ensures Attributed(t[i]) && Typed(t[i]) {
      assert t[i] in s;
    }
    forall i, j | 0 <= i < j < |t|
      ensures t[i].dateStart == t[j].dateStart && (t[i].adsetId == t[j].adsetId ==> t[i].campaignId == t[j].campaignId)
    {
      assert t[i] in s && t[j] in s;
    }
  }

  /** Success, the entities, and every derived number survive any reordering of the rows. */
  lemma OrderDoesNotMatter(grain: Grain, out: seq<Rolled>, s: seq<Row>, t: seq<Row>, indicators: seq<string>, i: nat)
    requires multiset(s) == multiset(t) && AllRolled(grain, out, s, indicators) && i < |out|
    ensures Rollable(s) <==> Rollable(t)
    ensures forall id :: id in Order(grain, s) <==> id in Order(grain, t)
    ensures var group := Group(grain, out[i].entityId, t);
      out[i].entityId == Order(grain, s)[i] && out[i].adRowCount == |group| && Measures(out[i].row, group, indicators)
  {
    if Rollable(s) { RollablePermutation(s, t); }
    if Rollable(t) { RollablePermutation(t, s); }
    forall id ensures id in Order(grain, s) <==> id in Order(grain, t) {
      SameOrderMembers(grain, s, t, id);
    }
    var id := Order(grain, s)[i];
    assert IsRolled(grain, out[i], id, s, indicators);
    FilterOfPermutation(KeyIs(IdOf(grain), id), s, t);
    assert |Group(grain, id, s)| == |multiset(Group(grain, id, s))| == |multiset(Group(grain, id, t))|;
    MeasuresPermutation(out[i].row, Group(grain, id, s), Group(grain, id, t), indicators);
  }

  lemma SameOrderMembers(grain: Grain, s: seq<Row>, t: seq<Row>, id: string)
    requires multiset(s) == multiset(t)
    ensures id in Order(grain, s) <==> id in Order(grain, t)
  {
    OrderIs(grain, s);
    OrderIs(grain, t);
    forall x ensures x in s <==> x in t { SameMembers(s, t, x); }
    assert id in Order(grain, s) <==> exists x :: x in s && IdOf(grain)(x) == id;
    assert id in Order(grain, t) <==> exists x :: x in t && IdOf(grain)(x) == id;
  }
}
