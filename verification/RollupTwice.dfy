/** Rolling up the rolled-up ad sets: what it measures of the original ad rows. */
module RollupTwice {
  import opened Options
  import opened RollupSums
  import opened RollupActions
  import opened RollupResults
  import opened HotRollup
  import opened RollupLevels
  import opened RollupActionLevels

  // ----- One campaign -----

  /** Spend, actions and counts are multiples of a millionth, as the stored columns are. */
  ghost predicate Micros(rows: seq<Row>, indicators: seq<string>) {
    && MicroSpend(rows) && MicroActions(Actions, rows) && MicroActions(ActionValues, rows)
    && forall i :: 0 <= i < |indicators| ==> MicroResults(rows, indicators[i])
  }

  ghost predicate Harmless(kind: Kind, rows: seq<Row>, ids: seq<string>) {
    forall t :: BareIsHarmless(kind, rows, ids, t)
  }

  lemma SplitLists(kind: Kind, rows: seq<Row>, ids: seq<string>, ds: seq<Derived>, indicators: seq<string>)
    requires Split(rows, ids, ds, indicators) && MicroActions(kind, rows)
    ensures ListsDerived(kind, rows, ids, ds)
  {
    forall i | 0 <= i < |ids| ensures ListsActions(kind, ListOf(kind, AsRow(ds[i])), Part(rows, ids[i])) {
      assert Measures(ds[i], Part(rows, ids[i]), indicators);
    }
  }

  lemma AnyListLevels(kind: Kind, rows: seq<Row>, ids: seq<string>, ds: seq<Derived>)
    requires ListsDerived(kind, rows, ids, ds)
    ensures AnyList(kind, AsRows(ds)) <==> AnyList(kind, rows)
  {
    var lacks := (x: Row) => ListOf(kind, x).None?;
    forall i | 0 <= i < |ids| ensures lacks(AsRow(ds[i])) <==> forall x :: x in Part(rows, ids[i]) ==> lacks(x) {
      AnyListIs(kind, Part(rows, ids[i]));
    }
    EveryLevel(rows, ids, ds, lacks);
    AnyListIs(kind, AsRows(ds));
    AnyListIs(kind, rows);
  }

  lemma AnyListIs(kind: Kind, rows: seq<Row>)
    ensures !AnyList(kind, rows) <==> forall x :: x in rows ==> ListOf(kind, x).None?
  {
  }

  lemma SumIsMicroAt(kind: Kind, rows: seq<Row>, ids: seq<string>, ds: seq<Derived>, t: string, k: string)
    requires ListsDerived(kind, rows, ids, ds)
    ensures IsMicro(SumBy(RowAmount(kind, t, k), rows)) && IsMicro(SumBy(RowAmount(kind, t, k), AsRows(ds)))
  {
    var once, bare := SumBy(RowAmount(kind, t, k), rows), SumBy(BareValue(kind, rows, t), ids);
    FloorIs(0.0, 0);
    SumIsMicro(RowAmount(kind, t, k), rows);
    AmountLevels(kind, rows, ids, ds, t, k);
    BareMicros(kind, rows, ids, t);
    MicroPlus(SumBy(RowAmount(kind, t, k), AsRows(ds)), once, if k == CLICK then bare else 0.0);
  }

  lemma SumsAreMicro(kind: Kind, rows: seq<Row>, ids: seq<string>, ds: seq<Derived>, t: string)
    requires ListsDerived(kind, rows, ids, ds)
    ensures MicroSums(SumsFor(kind, rows, t)) && MicroSums(SumsFor(kind, AsRows(ds), t))
  {
    forall k ensures IsMicro(AtKey(SumsFor(kind, rows, t), k)) {
      SumsByRow(kind, rows, t, k);
      SumIsMicroAt(kind, rows, ids, ds, t, k);
    }
    forall k ensures IsMicro(AtKey(SumsFor(kind, AsRows(ds), t), k)) {
      SumsByRow(kind, AsRows(ds), t, k);
      SumIsMicroAt(kind, rows, ids, ds, t, k);
    }
  }

  lemma BareMicros(kind: Kind, rows: seq<Row>, ids: seq<string>, t: string)
    requires MicroActions(kind, rows)
    ensures IsMicro(SumBy(BareValue(kind, rows, t), ids))
  {
    forall i | 0 <= i < |ids| ensures IsMicro(BareValue(kind, rows, t)(ids[i])) {
      PartMicros(kind, rows, ids[i], t);
      assert IsMicro(AtKey(SumsFor(kind, Part(rows, ids[i]), t), VALUE));
      FloorIs(0.0, 0);
    }
    SumIsMicro(BareValue(kind, rows, t), ids);
  }

  lemma MicroPlus(total: real, x: real, y: real)
    requires total == x + y && IsMicro(x) && IsMicro(y)
    ensures IsMicro(total)
  {
    WholeSum(x * MICRO, y * MICRO);
    assert total * MICRO == x * MICRO + y * MICRO;
  }

  lemma ListsDetermine(es: seq<Element>, a: Table, b: Table)
    requires Lists(es, a) && Lists(es, b)
    ensures a == b
  {
    ListedBy(es, a, b);
    ListedBy(es, b, a);
  }

  lemma ListedBy(es: seq<Element>, a: Table, b: Table)
    requires Lists(es, a) && Lists(es, b)
    ensures forall t :: t in a ==> t in b && a[t] == b[t]
  {
    forall t | t in a ensures t in b && a[t] == b[t] {
      assert t in TypesIn(es);
      var i :| 0 <= i < |es| && TypesIn(es)[i] == t;
      assert ListsType(es[i], a) && ListsType(es[i], b);
      FieldsDetermine(a[t], b[t]);
    }
  }

  lemma FieldsDetermine(a: Sums, b: Sums)
    requires AsFields(a) == AsFields(b)
    ensures a == b
  {
    assert a.Keys == AsFields(a).Keys == b.Keys;
    forall k | k in a ensures a[k] == b[k] { assert AsFields(a)[k] == AsFields(b)[k]; }
  }

  lemma ActionsAgreeIff(kind: Kind, rows: seq<Row>, ids: seq<string>, ds: seq<Derived>, list: Option<seq<Element>>)
    requires ListsDerived(kind, rows, ids, ds) && ListsActions(kind, list, AsRows(ds))
    ensures ListsActions(kind, list, rows) <==> Harmless(kind, rows, ids)
  {
    TablesAgreeIff(kind, rows, ids, ds);
    AnyListLevels(kind, rows, ids, ds);
    NoListNoElements(kind, rows);
    NoListNoElements(kind, AsRows(ds));
    forall t ensures MicroSums(SumsFor(kind, rows, t)) && MicroSums(SumsFor(kind, AsRows(ds), t)) {
      SumsAreMicro(kind, rows, ids, ds, t);
    }
    RoundedTable(kind, rows);
    RoundedTable(kind, AsRows(ds));
    if list.Some? && ListsActions(kind, list, rows) {
      ListsDetermine(list.value, TableOf(Flat(kind, rows)), TableOf(Flat(kind, AsRows(ds))));
    }
  }

  /** A campaign row derived from derived ad set rows measures the campaign's ad rows: always, in every
      number, rate, goal and result; in its action lists exactly when no bare list counts. */
  lemma CampaignLevels(rows: seq<Row>, ids: seq<string>, ds: seq<Derived>, indicators: seq<string>, again: Derived)
    requires Split(rows, ids, ds, indicators) && Distinct(indicators) && Micros(rows, indicators)
    requires Measures(again, AsRows(ds), indicators)
    ensures Numbers(again, rows) && CommonGoal(rows, again.goal) && StatesResults(again.results, AdResults(rows), indicators)
    ensures ListsActions(Actions, again.actions, rows) <==> Harmless(Actions, rows, ids)
    ensures ListsActions(ActionValues, again.actionValues, rows) <==> Harmless(ActionValues, rows, ids)
    ensures Measures(again, rows, indicators) <==> Harmless(Actions, rows, ids) && Harmless(ActionValues, rows, ids)
  {
    SpendLevels(rows, ids, ds);
    CountLevels(rows, ids, ds);
    GoalLevels(rows, ids, ds, again.goal);
    ResultsAgree(rows, ids, ds, indicators, again.results);
    SplitLists(Actions, rows, ids, ds, indicators);
    SplitLists(ActionValues, rows, ids, ds, indicators);
    ActionsAgreeIff(Actions, rows, ids, ds, again.actions);
    ActionsAgreeIff(ActionValues, rows, ids, ds, again.actionValues);
  }

  lemma ResultsAgree(rows: seq<Row>, ids: seq<string>, ds: seq<Derived>, indicators: seq<string>, results: Results)
    requires ResultsDerived(rows, ids, ds, indicators) && StatesResults(results, AdResults(AsRows(ds)), indicators)
    requires forall i :: 0 <= i < |indicators| ==> MicroResults(rows, indicators[i])
    ensures StatesResults(results, AdResults(rows), indicators)
  {
    forall i | 0 <= i < |indicators| ensures TotalOf(AdResults(AsRows(ds)), indicators[i]) == TotalOf(AdResults(rows), indicators[i]) {
      ResultLevels(rows, ids, ds, indicators, indicators[i]);
    }
    SameResults(if results.None? then [] else results.value, AdResults(AsRows(ds)), AdResults(rows), indicators);
  }

  // ----- The whole rollup, twice -----

  function DerivedRows(out: seq<Rolled>): seq<Derived> {
    seq(|out|, i requires 0 <= i < |out| => out[i].row)
  }

  function Ids(out: seq<Rolled>): seq<string> {
    seq(|out|, i requires 0 <= i < |out| => out[i].entityId)
  }

  function Under(campaign: string): Rolled -> bool {
    (r: Rolled) => r.row.campaignId == campaign
  }

  /** The campaign's ad sets, and their derived rows. */
  function AdsetsOf(campaign: string, adsets: seq<Rolled>): seq<Rolled> {
    Filter(Under(campaign), adsets)
  }

  lemma {:induction false} CampaignOfDerived(campaign: string, adsets: seq<Rolled>)
    ensures Group(Campaign, campaign, AsRows(DerivedRows(adsets))) == AsRows(DerivedRows(AdsetsOf(campaign, adsets)))
  {
    if adsets != [] {
      var front, last := adsets[..|adsets| - 1], adsets[|adsets| - 1];
      CampaignOfDerived(campaign, front);
      var key := KeyIs(IdOf(Campaign), campaign);
      assert AsRows(DerivedRows(adsets)) == AsRows(DerivedRows(front)) + [AsRow(last.row)];
      FilterSnoc(key, AsRows(DerivedRows(front)), AsRow(last.row));
      assert adsets == front + [last];
      var chosen := AdsetsOf(campaign, front);
      assert AsRows(DerivedRows(chosen + [last])) == AsRows(DerivedRows(chosen)) + [AsRow(last.row)];
      assert AdsetsOf(campaign, adsets) == chosen + (if Under(campaign)(last) then [last] else []);
      if !Under(campaign)(last) { assert chosen + [] == chosen; }
    }
  }

  lemma {:induction false} AdsetsAreDistinct(campaign: string, adsets: seq<Rolled>)
    requires Distinct(Ids(adsets))
    ensures Distinct(Ids(AdsetsOf(campaign, adsets)))
    ensures forall id :: id in Ids(AdsetsOf(campaign, adsets)) ==> id in Ids(adsets)
  {
    if adsets != [] {
      var front, last := adsets[..|adsets| - 1], adsets[|adsets| - 1];
      assert Ids(adsets) == Ids(front) + [last.entityId];
      DistinctSnoc(Ids(front), last.entityId);
      AdsetsAreDistinct(campaign, front);
      var chosen := AdsetsOf(campaign, front);
      DistinctSnoc(Ids(chosen), last.entityId);
      assert Ids(chosen + [last]) == Ids(chosen) + [last.entityId];
      if !Under(campaign)(last) { assert AdsetsOf(campaign, adsets) == chosen; }
    }
  }

  lemma {:induction false} FilterWithin<T>(p: T -> bool, q: T -> bool, s: seq<T>)
    requires forall x :: x in s && p(x) ==> q(x)
    ensures Filter(p, Filter(q, s)) == Filter(p, s)
  {
    if s != [] {
      var front, last := s[..|s| - 1], s[|s| - 1];
      FilterWithin(p, q, front);
      FilterSnoc(p, Filter(q, front), last);
      if !q(last) { assert Filter(q, s) == Filter(q, front) && !p(last); }
    }
  }

  /** An ad set's rows are all in its campaign. */
  lemma AdsetWithinCampaign(rows: seq<Row>, id: string, campaign: string, first: Row)
    requires Rollable(rows) && first in rows && IdOf(Adset)(first) == id && IdOf(Campaign)(first) == campaign
    ensures Part(Group(Campaign, campaign, rows), id) == Group(Adset, id, rows)
  {
    forall x | x in rows && KeyIs(IdOf(Adset), id)(x) ensures KeyIs(IdOf(Campaign), campaign)(x) {
      SameCampaign(rows, first, x);
    }
    FilterWithin(KeyIs(IdOf(Adset), id), KeyIs(IdOf(Campaign), campaign), rows);
  }

  lemma SameCampaign(rows: seq<Row>, x: Row, y: Row)
    requires Rollable(rows) && x in rows && y in rows && IdOf(Adset)(x) == IdOf(Adset)(y)
    ensures x.adsetId == y.adsetId && x.campaignId == y.campaignId && x.dateStart == y.dateStart
    ensures Attributed(x) && Attributed(y)
  {
    var i :| 0 <= i < |rows| && rows[i] == x;
    var j :| 0 <= j < |rows| && rows[j] == y;
    assert Attributed(rows[i]) && Attributed(rows[j]);
  }

  /** What a derived ad set row of a successful rollup is. */
  lemma RolledAdset(rows: seq<Row>, adsets: seq<Rolled>, indicators: seq<string>, r: Rolled) returns (first: Row)
    requires Rollable(rows) && AllRolled(Adset, adsets, rows, indicators) && r in adsets
    ensures first in rows && Attributed(first)
    ensures r.entityId == Text(first.adsetId) && r.row.campaignId == Text(first.campaignId) && r.row.day == Text(first.dateStart)
    ensures r.row.adsetId == Some(r.entityId)
    ensures Measures(r.row, Part(Group(Campaign, r.row.campaignId, rows), r.entityId), indicators)
    ensures Part(Group(Campaign, r.row.campaignId, rows), r.entityId) != []
  {
    var k :| 0 <= k < |adsets| && adsets[k] == r;
    var id := Order(Adset, rows)[k];
    assert IsRolled(Adset, adsets[k], id, rows, indicators);
    GroupIs(Adset, id, rows);
    first := Group(Adset, id, rows)[0];
    SameCampaign(rows, first, first);
    AdsetWithinCampaign(rows, id, r.row.campaignId, first);
  }

  lemma OrderIds(rows: seq<Row>, adsets: seq<Rolled>, indicators: seq<string>)
    requires AllRolled(Adset, adsets, rows, indicators)
    ensures Ids(adsets) == Order(Adset, rows) && Distinct(Ids(adsets))
  {
    forall k | 0 <= k < |adsets| ensures adsets[k].entityId == Order(Adset, rows)[k] {
      assert IsRolled(Adset, adsets[k], Order(Adset, rows)[k], rows, indicators);
    }
    OrderIs(Adset, rows);
  }

  lemma RowsAdset(rows: seq<Row>, adsets: seq<Rolled>, indicators: seq<string>, campaign: string, x: Row)
    requires Rollable(rows) && AllRolled(Adset, adsets, rows, indicators) && x in Group(Campaign, campaign, rows)
    ensures IdOf(Adset)(x) in Ids(AdsetsOf(campaign, adsets))
  {
    InFilter(KeyIs(IdOf(Campaign), campaign), rows, x);
    OrderIs(Adset, rows);
    OrderIds(rows, adsets, indicators);
    var j :| 0 <= j < |rows| && rows[j] == x;
    assert IdOf(Adset)(rows[j]) in Ids(adsets);
    IsChosen(rows, adsets, indicators, campaign, x);
  }

  lemma IsChosen(rows: seq<Row>, adsets: seq<Rolled>, indicators: seq<string>, campaign: string, x: Row)
    requires Rollable(rows) && AllRolled(Adset, adsets, rows, indicators) && x in rows && IdOf(Campaign)(x) == campaign
    requires IdOf(Adset)(x) in Ids(adsets)
    ensures IdOf(Adset)(x) in Ids(AdsetsOf(campaign, adsets))
  {
    var k :| 0 <= k < |adsets| && Ids(adsets)[k] == IdOf(Adset)(x);
    var first := RolledAdset(rows, adsets, indicators, adsets[k]);
    SameCampaign(rows, first, x);
    InFilter(Under(campaign), adsets, adsets[k]);
    var chosen := AdsetsOf(campaign, adsets);
    var m :| 0 <= m < |chosen| && chosen[m] == adsets[k];
    assert Ids(chosen)[m] == IdOf(Adset)(x);
  }

  /** The derived ad set rows of a campaign split its ad rows. */
  lemma CampaignIsSplit(rows: seq<Row>, adsets: seq<Rolled>, indicators: seq<string>, campaign: string)
    requires Rollable(rows) && AllRolled(Adset, adsets, rows, indicators) && campaign in Order(Campaign, rows)
    ensures var chosen := AdsetsOf(campaign, adsets);
      Split(Group(Campaign, campaign, rows), Ids(chosen), DerivedRows(chosen), indicators)
  {
    var group, chosen := Group(Campaign, campaign, rows), AdsetsOf(campaign, adsets);
    GroupIs(Campaign, campaign, rows);
    OrderIds(rows, adsets, indicators);
    AdsetsAreDistinct(campaign, adsets);
    forall i | 0 <= i < |group| ensures IdOf(Adset)(group[i]) in Ids(chosen) {
      assert group[i] in group;
      RowsAdset(rows, adsets, indicators, campaign, group[i]);
    }
    forall i | 0 <= i < |chosen|
      ensures Part(group, Ids(chosen)[i]) != [] && Measures(DerivedRows(chosen)[i], Part(group, Ids(chosen)[i]), indicators)
    {
      assert chosen[i] in chosen;
      InFilter(Under(campaign), adsets, chosen[i]);
      var first := RolledAdset(rows, adsets, indicators, chosen[i]);
    }
  }

  lemma GroupMicros(grain: Grain, rows: seq<Row>, id: string, indicators: seq<string>)
    requires Micros(rows, indicators)
    ensures Micros(Group(grain, id, rows), indicators)
  {
    var group := Group(grain, id, rows);
    forall i | 0 <= i < |group| ensures exists j :: 0 <= j < |rows| && rows[j] == group[i] {
      assert group[i] in group;
      InFilter(KeyIs(IdOf(grain), id), rows, group[i]);
    }
    forall i, t, k | 0 <= i < |group|
      ensures IsMicro(RowAmount(Actions, t, k)(group[i])) && IsMicro(RowAmount(ActionValues, t, k)(group[i]))
    {
      var j :| 0 <= j < |rows| && rows[j] == group[i];
      assert IsMicro(RowAmount(Actions, t, k)(rows[j])) && IsMicro(RowAmount(ActionValues, t, k)(rows[j]));
    }
    forall m, i, w | 0 <= m < |indicators| && 0 <= i < |group| ensures IsMicro(RowCountIn(indicators[m], w)(group[i])) {
      var j :| 0 <= j < |rows| && rows[j] == group[i];
      assert MicroResults(rows, indicators[m]);
      assert IsMicro(RowCountIn(indicators[m], w)(rows[j]));
    }
  }

  /** The derived ad set rows can themselves be rolled up. */
  lemma DerivedRollable(rows: seq<Row>, adsets: seq<Rolled>, indicators: seq<string>)
    requires Rollable(rows) && AllRolled(Adset, adsets, rows, indicators)
    ensures Rollable(AsRows(DerivedRows(adsets)))
  {
    var again := AsRows(DerivedRows(adsets));
    OrderIds(rows, adsets, indicators);
    forall i | 0 <= i < |again| ensures Attributed(again[i]) && Typed(again[i]) && again[i].adsetId == Some(Ids(adsets)[i]) {
      var first := RolledAdset(rows, adsets, indicators, adsets[i]);
      DerivedTyped(adsets[i].row, Part(Group(Campaign, adsets[i].row.campaignId, rows), adsets[i].entityId), indicators);
    }
    forall i, j | 0 <= i < j < |again| ensures again[i].dateStart == again[j].dateStart {
      var x := RolledAdset(rows, adsets, indicators, adsets[i]);
      var y := RolledAdset(rows, adsets, indicators, adsets[j]);
      SameDay(rows, x, y);
    }
  }

  lemma SameDay(rows: seq<Row>, x: Row, y: Row)
    requires Rollable(rows) && x in rows && y in rows
    ensures x.dateStart == y.dateStart
  {
    var i :| 0 <= i < |rows| && rows[i] == x;
    var j :| 0 <= j < |rows| && rows[j] == y;
  }

  lemma DerivedTyped(d: Derived, part: seq<Row>, indicators: seq<string>)
    requires Measures(d, part, indicators)
    ensures Typed(AsRow(d))
  {
    if d.actions.Some? {
      TableIsReal(Flat(Actions, part));
      RereadListing(d.actions.value, Rounded(TableOf(Flat(Actions, part))), "", "");
    }
    if d.actionValues.Some? {
      TableIsReal(Flat(ActionValues, part));
      RereadListing(d.actionValues.value, Rounded(TableOf(Flat(ActionValues, part))), "", "");
    }
  }

  /** The campaigns of the second rollup are those of the first. */
  lemma SameCampaigns(rows: seq<Row>, adsets: seq<Rolled>, indicators: seq<string>, campaign: string)
    requires Rollable(rows) && AllRolled(Adset, adsets, rows, indicators)
    ensures campaign in Order(Campaign, rows) <==> campaign in Order(Campaign, AsRows(DerivedRows(adsets)))
  {
    var again := AsRows(DerivedRows(adsets));
    OrderIs(Campaign, rows);
    OrderIs(Campaign, again);
    if campaign in Order(Campaign, rows) {
      CampaignIsSplit(rows, adsets, indicators, campaign);
      CampaignOfDerived(campaign, adsets);
      GroupIs(Campaign, campaign, again);
      GroupIs(Campaign, campaign, rows);
      assert IdOf(Adset)(Group(Campaign, campaign, rows)[0]) in Ids(AdsetsOf(campaign, adsets));
    }
    if campaign in Order(Campaign, again) {
      var k :| 0 <= k < |again| && IdOf(Campaign)(again[k]) == campaign;
      var first := RolledAdset(rows, adsets, indicators, adsets[k]);
      var j :| 0 <= j < |rows| && rows[j] == first;
      assert IdOf(Campaign)(rows[j]) == campaign;
    }
  }

  /** Roll up ad rows, then roll up the derived ad set rows: it succeeds, and each campaign row it gives
      measures that campaign's ad rows, its action lists exactly when no bare list counts there. */
  lemma TwoLevels(rows: seq<Row>, adsets: seq<Rolled>, again: seq<Rolled>, indicators: seq<string>, i: nat)
    requires Rollable(rows) && AllRolled(Adset, adsets, rows, indicators)
    requires Distinct(indicators) && Micros(rows, indicators)
    requires AllRolled(Campaign, again, AsRows(DerivedRows(adsets)), indicators) && i < |again|
    ensures Rollable(AsRows(DerivedRows(adsets)))
    ensures
      var campaign, row := again[i].entityId, again[i].row;
      var group, ids := Group(Campaign, campaign, rows), Ids(AdsetsOf(campaign, adsets));
      && Numbers(row, group) && CommonGoal(group, row.goal) && StatesResults(row.results, AdResults(group), indicators)
      && (Measures(row, group, indicators) <==> Harmless(Actions, group, ids) && Harmless(ActionValues, group, ids))
  {
    var campaign := again[i].entityId;
    var chosen := AdsetsOf(campaign, adsets);
    assert IsRolled(Campaign, again[i], Order(Campaign, AsRows(DerivedRows(adsets)))[i], AsRows(DerivedRows(adsets)), indicators);
    SameCampaigns(rows, adsets, indicators, campaign);
    DerivedRollable(rows, adsets, indicators);
    CampaignOfDerived(campaign, adsets);
    CampaignIsSplit(rows, adsets, indicators, campaign);
    GroupMicros(Campaign, rows, campaign, indicators);
    CampaignLevels(Group(Campaign, campaign, rows), Ids(chosen), DerivedRows(chosen), indicators, again[i].row);
  }

  /** With no element counting `value` beside a null headline, the second rollup measures everything. */
  lemma PlainTwoLevels(rows: seq<Row>, adsets: seq<Rolled>, again: seq<Rolled>, indicators: seq<string>, i: nat)
    requires Rollable(rows) && AllRolled(Adset, adsets, rows, indicators)
    requires Distinct(indicators) && Micros(rows, indicators)
    requires AllRolled(Campaign, again, AsRows(DerivedRows(adsets)), indicators) && i < |again|
    requires PlainRows(Actions, rows) && PlainRows(ActionValues, rows)
    ensures Measures(again[i].row, Group(Campaign, again[i].entityId, rows), indicators)
  {
    var campaign := again[i].entityId;
    var ids, group := Ids(AdsetsOf(campaign, adsets)), Group(Campaign, campaign, rows);
    TwoLevels(rows, adsets, again, indicators, i);
    PlainGroup(Actions, rows, campaign);
    PlainGroup(ActionValues, rows, campaign);
    forall t ensures BareIsHarmless(Actions, group, ids, t) && BareIsHarmless(ActionValues, group, ids, t) {
      PlainIsHarmless(Actions, group, ids, t);
      PlainIsHarmless(ActionValues, group, ids, t);
    }
  }

  lemma PlainGroup(kind: Kind, rows: seq<Row>, campaign: string)
    requires PlainRows(kind, rows)
    ensures PlainRows(kind, Group(Campaign, campaign, rows))
  {
    var group := Group(Campaign, campaign, rows);
    forall i | 0 <= i < |group| ensures exists j :: 0 <= j < |rows| && rows[j] == group[i] {
      assert group[i] in group;
      InFilter(KeyIs(IdOf(Campaign), campaign), rows, group[i]);
    }
  }
}
