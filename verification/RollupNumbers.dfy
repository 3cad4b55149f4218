/** The derived numbers told by the ad rows' own fields, and every ad row counted once. */
module RollupNumbers {
  import opened Options
  import opened RollupSums
  import opened RollupActions
  import opened RollupResults
  import opened HotRollup
  import opened RollupOrder

  // ----- What a row tells -----

  datatype Told = Told(spend: real, clicks: int, linkClicks: int, impressions: int)

  /** A field that is no number tells zero. */
  predicate TellsAmount(raw: Raw, x: real) {
    if raw.Num? then x == raw.x else x == 0.0
  }

  /** Counts are read to the nearest whole number, halves up. */
  predicate TellsCount(raw: Raw, n: int) {
    if raw.Num? then n as real - 0.5 <= raw.x < n as real + 0.5 else n == 0
  }

  predicate Tells(row: Row, t: Told) {
    && TellsAmount(row.spend, t.spend) && TellsCount(row.clicks, t.clicks)
    && TellsCount(row.linkClicks, t.linkClicks) && TellsCount(row.impressions, t.impressions)
  }

  predicate AllTold(rows: seq<Row>, told: seq<Told>) {
    |told| == |rows| && forall i :: 0 <= i < |rows| ==> Tells(rows[i], told[i])
  }

  function Total(told: seq<Told>): Told {
    if told == [] then Told(0.0, 0, 0, 0)
    else
      var t, rest := told[0], Total(told[1..]);
      Told(t.spend + rest.spend, t.clicks + rest.clicks, t.linkClicks + rest.linkClicks, t.impressions + rest.impressions)
  }

  lemma {:induction false} TotalSnoc(told: seq<Told>, t: Told)
    ensures var all, before := Total(told + [t]), Total(told);
      && all.spend == before.spend + t.spend && all.clicks == before.clicks + t.clicks
      && all.linkClicks == before.linkClicks + t.linkClicks && all.impressions == before.impressions + t.impressions
  {
    if told != [] {
      TotalSnoc(told[1..], t);
      assert (told + [t])[1..] == told[1..] + [t];
    }
  }

  lemma NearestIs(raw: Raw, n: int)
    requires TellsCount(raw, n)
    ensures Round(Finite(raw)) == n as real
  {
    if raw.Num? { FloorIs(raw.x + 0.5, n); } else { FloorIs(0.5, 0); }
  }

  lemma RowTells(row: Row, t: Told)
    requires Tells(row, t)
    ensures Spend(row) == t.spend && Clicks(row) == t.clicks as real
    ensures LinkClicks(row) == t.linkClicks as real && Impressions(row) == t.impressions as real
  {
    NearestIs(row.clicks, t.clicks);
    NearestIs(row.linkClicks, t.linkClicks);
    NearestIs(row.impressions, t.impressions);
  }

  /** Every row tells something, and only one thing. */
  lemma ToldOnce(row: Row) returns (t: Told)
    ensures Tells(row, t) && forall u :: Tells(row, u) ==> u == t
  {
    t := Told(Spend(row), Clicks(row).Floor, LinkClicks(row).Floor, Impressions(row).Floor);
  }

  lemma {:induction false} SumsAreTold(rows: seq<Row>, told: seq<Told>)
    requires AllTold(rows, told)
    ensures SumBy(Spend, rows) == Total(told).spend && SumBy(Clicks, rows) == Total(told).clicks as real
    ensures SumBy(LinkClicks, rows) == Total(told).linkClicks as real
    ensures SumBy(Impressions, rows) == Total(told).impressions as real
  {
    if rows != [] {
      var n := |rows| - 1;
      SumsAreTold(rows[..n], told[..n]);
      RowTells(rows[n], told[n]);
      TotalSnoc(told[..n], told[n]);
      assert told == told[..n] + [told[n]];
    }
  }

  // ----- What a derived row states -----

  predicate Near(x: real, y: real, gap: real) {
    -gap <= x - y <= gap
  }

  /** The counts are the told ones, spend is their sum at six decimals, and each rate is what gives the
      numerator back, missing only over zero. */
  predicate States(d: Derived, t: Told) {
    && RoundedTo(d.spend, t.spend)
    && d.clicks == t.clicks as real && d.linkClicks == t.linkClicks as real && d.impressions == t.impressions as real
    && Rate(d.ctr, 100.0, d.clicks, d.impressions) && Rate(d.cpm, 1000.0, d.spend, d.impressions)
    && Rate(d.cpc, 1.0, d.spend, d.clicks)
  }

  /** The nearest number at six decimals, halves up. */
  predicate RoundedTo(x: real, sum: real) {
    (x * 1000000.0).Floor as real == x * 1000000.0 && -0.0000005 < x - sum <= 0.0000005
  }

  predicate Rate(rate: Option<real>, scale: real, a: real, b: real) {
    (rate.None? <==> b == 0.0) && (rate.Some? ==> rate.value * b == scale * a)
  }

  lemma RatioIs(a: real, b: real, scale: real)
    ensures Rate(Ratio(a, b, scale), scale, a, b)
  {
    if b != 0.0 {
      var q := a / b;
      assert q * b == a;
      assert q * scale * b == scale * (q * b);
    }
  }

  lemma RatesAre(d: Derived, rows: seq<Row>)
    requires Numbers(d, rows)
    ensures Rate(d.ctr, 100.0, d.clicks, d.impressions) && Rate(d.cpm, 1000.0, d.spend, d.impressions)
    ensures Rate(d.cpc, 1.0, d.spend, d.clicks)
  {
    RatioIs(d.clicks, d.impressions, 100.0);
    RatioIs(d.spend, d.clicks, 1.0);
    RatioIs(d.spend, d.impressions, 1000.0);
  }

  lemma SpendIs(x: real)
    ensures RoundedTo(RoundSum(x), x)
  {
    RoundSumIsClose(x);
    assert RoundSum(x) * 1000000.0 == Round(x * 1000000.0);
  }

  lemma NumbersAre(d: Derived, rows: seq<Row>, told: seq<Told>)
    requires Numbers(d, rows) && AllTold(rows, told)
    ensures States(d, Total(told))
  {
    SumsAreTold(rows, told);
    SpendIs(SumBy(Spend, rows));
    RatesAre(d, rows);
  }

  // ----- Which rows a derived row speaks for -----

  function Owner(grain: Grain, row: Row): Option<string> {
    match grain
    case Campaign => row.campaignId
    case Adset => row.adsetId
  }

  /** Exactly the rows of the entity, in their order. */
  predicate Owns(grain: Grain, id: string, rows: seq<Row>, own: seq<nat>) {
    && (forall k :: 0 <= k < |own| ==> own[k] < |rows| && Owner(grain, rows[own[k]]) == Some(id))
    && (forall j, k :: 0 <= j < k < |own| ==> own[j] < own[k])
    && forall i: nat :: i < |rows| && Owner(grain, rows[i]) == Some(id) ==> i in own
  }

  function Pick<T>(s: seq<T>, own: seq<nat>): seq<T>
    requires forall k :: 0 <= k < |own| ==> own[k] < |s|
  {
    seq(|own|, k requires 0 <= k < |own| => s[own[k]])
  }

  lemma {:induction false} GroupRows(grain: Grain, id: string, rows: seq<Row>) returns (own: seq<nat>)
    requires id != "" && forall i :: 0 <= i < |rows| ==> Attributed(rows[i])
    ensures Owns(grain, id, rows, own) && Group(grain, id, rows) == Pick(rows, own)
  {
    own := [];
    if rows != [] {
      var n := |rows| - 1;
      var before := GroupRows(grain, id, rows[..n]);
      own := if Owner(grain, rows[n]) == Some(id) then before + [n] else before;
      OwnsSnoc(grain, id, rows, before);
      PickSnoc(rows, before);
      GroupSnoc(grain, id, rows);
    }
  }

  lemma GroupSnoc(grain: Grain, id: string, rows: seq<Row>)
    requires id != "" && rows != []
    ensures var n := |rows| - 1;
      Group(grain, id, rows) == Group(grain, id, rows[..n]) + if Owner(grain, rows[n]) == Some(id) then [rows[n]] else []
  {
    var n := |rows| - 1;
    assert rows == rows[..n] + [rows[n]];
    FilterSnoc(KeyIs(IdOf(grain), id), rows[..n], rows[n]);
  }

  lemma PickSnoc<T>(s: seq<T>, own: seq<nat>)
    requires s != [] && forall k :: 0 <= k < |own| ==> own[k] < |s| - 1
    ensures Pick(s, own) == Pick(s[..|s| - 1], own) && Pick(s, own + [|s| - 1]) == Pick(s, own) + [s[|s| - 1]]
  {
  }

  lemma OwnsSnoc(grain: Grain, id: string, rows: seq<Row>, before: seq<nat>)
    requires rows != [] && Owns(grain, id, rows[..|rows| - 1], before)
    ensures Owns(grain, id, rows, if Owner(grain, rows[|rows| - 1]) == Some(id) then before + [|rows| - 1] else before)
  {
    var n := |rows| - 1;
    var own := if Owner(grain, rows[n]) == Some(id) then before + [n] else before;
    forall k | 0 <= k < |own| ensures own[k] < |rows| && Owner(grain, rows[own[k]]) == Some(id) {
      if k < |before| { assert own[k] == before[k] && rows[..n][before[k]] == rows[before[k]]; }
    }
    forall i: nat | i < |rows| && Owner(grain, rows[i]) == Some(id) ensures i in own {
      if i < n { assert rows[..n][i] == rows[i] && i in before; }
    }
  }

  /** A derived row states the totals of exactly the rows of its entity. */
  lemma DerivedNumbers(grain: Grain, out: seq<Rolled>, rows: seq<Row>, told: seq<Told>, indicators: seq<string>, i: nat)
    returns (own: seq<nat>)
    requires Rollable(rows) && AllTold(rows, told) && AllRolled(grain, out, rows, indicators) && i < |out|
    ensures Owns(grain, out[i].entityId, rows, own) && own != [] && out[i].adRowCount == |own|
    ensures States(out[i].row, Total(Pick(told, own)))
  {
    var id := Order(grain, rows)[i];
    assert IsRolled(grain, out[i], id, rows, indicators);
    EntityNamed(grain, rows, id);
    own := GroupRows(grain, id, rows);
    NumbersAre(out[i].row, Pick(rows, own), Pick(told, own));
  }

  /** Its campaign and its day are those of every one of these rows. */
  lemma DerivedParents(grain: Grain, out: seq<Rolled>, rows: seq<Row>, indicators: seq<string>, i: nat, r: nat)
    requires Rollable(rows) && AllRolled(grain, out, rows, indicators) && i < |out|
    requires r < |rows| && Owner(grain, rows[r]) == Some(out[i].entityId)
    ensures rows[r].campaignId == Some(out[i].row.campaignId) && rows[r].dateStart == Some(out[i].row.day)
    ensures out[i].row.adsetId == match grain case Campaign => None case Adset => rows[r].adsetId
  {
    var id := Order(grain, rows)[i];
    assert IsRolled(grain, out[i], id, rows, indicators);
    var f := FirstOfGroup(grain, id, rows);
    if f != r { SameParents(rows, if f < r then f else r, if f < r then r else f); }
  }

  lemma FirstOfGroup(grain: Grain, id: string, rows: seq<Row>) returns (f: nat)
    requires Rollable(rows) && Group(grain, id, rows) != []
    ensures f < |rows| && rows[f] == Group(grain, id, rows)[0] && Owner(grain, rows[f]) == Some(id) && Attributed(rows[f])
  {
    GroupIs(grain, id, rows);
    f :| f < |rows| && rows[f] == Group(grain, id, rows)[0];
    assert Attributed(rows[f]);
  }

  lemma SameParents(rows: seq<Row>, i: nat, j: nat)
    requires Rollable(rows) && i < j < |rows|
    ensures rows[i].dateStart == rows[j].dateStart
    ensures rows[i].adsetId == rows[j].adsetId ==> rows[i].campaignId == rows[j].campaignId
  {
  }

  /** Every entity some row names has one derived row, and there are no others. */
  lemma EntitiesAre(grain: Grain, out: seq<Rolled>, rows: seq<Row>, indicators: seq<string>)
    requires Rollable(rows) && AllRolled(grain, out, rows, indicators)
    ensures forall i, j :: 0 <= i < j < |out| ==> out[i].entityId != out[j].entityId
    ensures forall id :: (exists i :: 0 <= i < |out| && out[i].entityId == id) <==>
                         (exists r :: 0 <= r < |rows| && Owner(grain, rows[r]) == Some(id))
  {
    OrderIs(grain, rows);
    forall i | 0 <= i < |out| ensures out[i].entityId == Order(grain, rows)[i] {
      assert IsRolled(grain, out[i], Order(grain, rows)[i], rows, indicators);
    }
    forall id ensures (exists i :: 0 <= i < |out| && out[i].entityId == id) <==>
                      (exists r :: 0 <= r < |rows| && Owner(grain, rows[r]) == Some(id))
    {
      EntityNamed(grain, rows, id);
      if id in Order(grain, rows) {
        var i :| 0 <= i < |Order(grain, rows)| && Order(grain, rows)[i] == id;
        assert out[i].entityId == id;
      }
    }
  }

  lemma EntityNamed(grain: Grain, rows: seq<Row>, id: string)
    requires Rollable(rows)
    ensures id in Order(grain, rows) <==> exists r :: 0 <= r < |rows| && Owner(grain, rows[r]) == Some(id)
    ensures id in Order(grain, rows) ==> id != ""
  {
    OrderIs(grain, rows);
    forall r | 0 <= r < |rows| ensures Owner(grain, rows[r]) == Some(IdOf(grain)(rows[r])) && IdOf(grain)(rows[r]) != "" {
      assert Attributed(rows[r]);
    }
  }

  /** Derived rows come in the order in which their entities first appear. */
  lemma {:induction false} FirstSeenOrder(grain: Grain, rows: seq<Row>) returns (first: seq<nat>)
    requires forall i :: 0 <= i < |rows| ==> Attributed(rows[i])
    ensures |first| == |Order(grain, rows)|
    ensures forall k :: 0 <= k < |first| ==> IsFirst(grain, Order(grain, rows)[k], rows, first[k])
    ensures forall j, k :: 0 <= j < k < |first| ==> first[j] < first[k]
  {
    first := [];
    if rows != [] {
      var n := |rows| - 1;
      first := FirstSeenOrder(grain, rows[..n]);
      assert forall i :: 0 <= i < n ==> rows[..n][i] == rows[i];
      OrderIs(grain, rows[..n]);
      assert Attributed(rows[n]);
      var id := IdOf(grain)(rows[n]);
      if id !in Order(grain, rows[..n]) {
        forall i | 0 <= i < n ensures Owner(grain, rows[i]) != Some(id) { assert IdOf(grain)(rows[..n][i]) != id; }
        first := first + [n];
      }
    }
  }

  predicate IsFirst(grain: Grain, id: string, rows: seq<Row>, r: nat) {
    r < |rows| && Owner(grain, rows[r]) == Some(id) && forall i :: 0 <= i < r ==> Owner(grain, rows[i]) != Some(id)
  }

  // ----- Everything accounted for -----

  /** The numbers the derived rows state. */
  predicate AllStated(out: seq<Rolled>, stated: seq<Told>) {
    && |stated| == |out|
    && forall i :: 0 <= i < |out| ==>
      && out[i].row.spend == stated[i].spend && out[i].row.clicks == stated[i].clicks as real
      && out[i].row.linkClicks == stated[i].linkClicks as real && out[i].row.impressions == stated[i].impressions as real
  }

  lemma {:induction false} SumsAreStated(out: seq<Rolled>, stated: seq<Told>)
    requires AllStated(out, stated)
    ensures SumBy(RolledSpend, out) == Total(stated).spend && SumBy(RolledClicks, out) == Total(stated).clicks as real
    ensures SumBy(RolledLinkClicks, out) == Total(stated).linkClicks as real
    ensures SumBy(RolledImpressions, out) == Total(stated).impressions as real
  {
    if out != [] {
      var n := |out| - 1;
      SumsAreStated(out[..n], stated[..n]);
      TotalSnoc(stated[..n], stated[n]);
      assert stated == stated[..n] + [stated[n]];
    }
  }

  /** At either grain the derived rows together state what the ad rows together tell: the counts exactly,
      spend within half a millionth for each derived row. */
  lemma AllAccountedFor(grain: Grain, out: seq<Rolled>, rows: seq<Row>, told: seq<Told>, stated: seq<Told>, indicators: seq<string>)
    requires AllTold(rows, told) && AllRolled(grain, out, rows, indicators) && AllStated(out, stated)
    ensures Total(stated).clicks == Total(told).clicks && Total(stated).linkClicks == Total(told).linkClicks
    ensures Total(stated).impressions == Total(told).impressions
    ensures Near(Total(stated).spend, Total(told).spend, 0.0000005 * |out| as real)
  {
    Conserved(grain, out, rows, indicators);
    SumsAreTold(rows, told);
    SumsAreStated(out, stated);
  }

  // ----- Names and days -----

  predicate Missing(s: Option<string>) {
    s == None || s == Some("")
  }

  /** The first that is not missing. */
  predicate FirstGiven(name: Option<string>, column: seq<Option<string>>) {
    if name.None? then forall i :: 0 <= i < |column| ==> Missing(column[i])
    else exists i :: 0 <= i < |column| && column[i] == name && !Missing(name) && forall j :: 0 <= j < i ==> Missing(column[j])
  }

  lemma FirstSnoc(name: Option<string>, column: seq<Option<string>>, next: Option<string>)
    requires FirstGiven(name, column)
    ensures FirstGiven(OrElse(name, next), column + [next])
  {
    var all := column + [next];
    assert forall i :: 0 <= i < |column| ==> all[i] == column[i];
    assert all[|column|] == next;
    if name.Some? {
      var i :| 0 <= i < |column| && column[i] == name && !Missing(name) && forall j :: 0 <= j < i ==> Missing(column[j]);
      assert all[i] == name;
    }
  }

  function Column(rows: seq<Row>, f: Names -> Option<string>): (c: seq<Option<string>>)
    ensures |c| == |rows| && forall i :: 0 <= i < |rows| ==> c[i] == f(rows[i].names)
  {
    seq(|rows|, i requires 0 <= i < |rows| => f(rows[i].names))
  }

  lemma ColumnSnoc(rows: seq<Row>, row: Row, f: Names -> Option<string>, name: Option<string>)
    requires FirstGiven(name, Column(rows, f))
    ensures FirstGiven(OrElse(name, f(row.names)), Column(rows + [row], f))
  {
    FirstSnoc(name, Column(rows, f), f(row.names));
    assert Column(rows + [row], f) == Column(rows, f) + [f(row.names)];
  }

  lemma {:induction false} NamesAre(rows: seq<Row>)
    ensures FirstGiven(NamesOf(rows).campaign, Column(rows, (n: Names) => n.campaign))
    ensures FirstGiven(NamesOf(rows).adset, Column(rows, (n: Names) => n.adset))
    ensures FirstGiven(NamesOf(rows).dateStop, Column(rows, (n: Names) => n.dateStop))
    ensures FirstGiven(NamesOf(rows).objective, Column(rows, (n: Names) => n.objective))
    ensures FirstGiven(NamesOf(rows).currency, Column(rows, (n: Names) => n.currency))
  {
    if rows != [] {
      var front, last := rows[..|rows| - 1], rows[|rows| - 1];
      NamesAre(front);
      assert rows == front + [last];
      ColumnSnoc(front, last, (n: Names) => n.campaign, NamesOf(front).campaign);
      ColumnSnoc(front, last, (n: Names) => n.adset, NamesOf(front).adset);
      ColumnSnoc(front, last, (n: Names) => n.dateStop, NamesOf(front).dateStop);
      ColumnSnoc(front, last, (n: Names) => n.objective, NamesOf(front).objective);
      ColumnSnoc(front, last, (n: Names) => n.currency, NamesOf(front).currency);
    }
  }

  // ----- Refusals -----

  predicate HasUntyped(row: Row) {
    || (row.actions.Some? && exists j :: 0 <= j < |row.actions.value| && Missing(row.actions.value[j].actionType))
    || (row.actionValues.Some? && exists j :: 0 <= j < |row.actionValues.value| && Missing(row.actionValues.value[j].actionType))
  }

  predicate SameDay(rows: seq<Row>, i: nat)
    requires i < |rows|
  {
    forall j :: 0 <= j < i ==> rows[j].dateStart == rows[i].dateStart
  }

  /** The ad set of row `i` was reported under another campaign before. */
  predicate Elsewhere(rows: seq<Row>, i: nat)
    requires i < |rows|
  {
    exists j :: 0 <= j < i && rows[j].adsetId == rows[i].adsetId && rows[j].campaignId != rows[i].campaignId
  }

  /** What is wrong with row `i`, given that nothing is wrong with the rows before it. */
  predicate Wrong(rows: seq<Row>, i: nat, error: Error)
    requires i < |rows|
  {
    var row := rows[i];
    var dated := !Missing(row.campaignId) && !Missing(row.adsetId) && !Missing(row.dateStart);
    match error
    case MissingCampaign => Missing(row.campaignId)
    case MissingAdset => !Missing(row.campaignId) && Missing(row.adsetId)
    case MissingDate => !Missing(row.campaignId) && !Missing(row.adsetId) && Missing(row.dateStart)
    case TwoDays => dated && !SameDay(rows, i)
    case UntypedAction => dated && SameDay(rows, i) && HasUntyped(row)
    case TwoCampaigns => dated && SameDay(rows, i) && !HasUntyped(row) && Elsewhere(rows, i)
  }

  ghost predicate NoneWrong(rows: seq<Row>, n: nat)
    requires n <= |rows|
  {
    forall i, error :: 0 <= i < n ==> !Wrong(rows, i, error)
  }

  /** The first row with something wrong is refused for it, and rows are refused only then. */
  lemma {:induction false} RefusalIs(rows: seq<Row>)
    ensures FirstRefusal(rows).None? <==> NoneWrong(rows, |rows|)
    ensures FirstRefusal(rows).Some? ==>
      exists i: nat :: i < |rows| && Wrong(rows, i, FirstRefusal(rows).value) && NoneWrong(rows, i)
  {
    if rows != [] {
      var n := |rows| - 1;
      var front := rows[..n];
      RefusalIs(front);
      forall i: nat, e | i < n ensures Wrong(front, i, e) <==> Wrong(rows, i, e) { WrongBefore(rows, i, e); }
      if FirstRefusal(front).None? {
        RefusalHereIs(rows, n);
      } else {
        var i: nat :| i < n && Wrong(front, i, FirstRefusal(front).value) && NoneWrong(front, i);
        assert Wrong(rows, i, FirstRefusal(rows).value);
      }
    }
  }

  lemma WrongBefore(rows: seq<Row>, i: nat, e: Error)
    requires i < |rows| - 1
    ensures Wrong(rows[..|rows| - 1], i, e) <==> Wrong(rows, i, e)
  {
    assert forall j :: 0 <= j < |rows| - 1 ==> rows[..|rows| - 1][j] == rows[j];
  }

  lemma RefusalHereIs(rows: seq<Row>, n: nat)
    requires |rows| == n + 1 && FirstRefusal(rows[..n]).None?
    ensures forall e :: Wrong(rows, n, e) <==> FirstRefusal(rows) == Some(e)
  {
    var refusal := Refusal(rows[..n], rows[n]);
    RefusedFor(rows, n);
    forall e ensures Wrong(rows, n, e) <==> refusal == Some(e) {
      if Wrong(rows, n, e) { OneWrong(rows, n, e); }
    }
  }

  lemma OneWrong(rows: seq<Row>, n: nat, e: Error)
    requires n < |rows| && Wrong(rows, n, e)
    ensures forall d :: Wrong(rows, n, d) ==> d == e
  {
  }

  lemma RefusedFor(rows: seq<Row>, n: nat)
    requires |rows| == n + 1 && FirstRefusal(rows[..n]).None?
    ensures var refusal := Refusal(rows[..n], rows[n]);
      (refusal.Some? ==> Wrong(rows, n, refusal.value)) && (refusal.None? ==> forall e :: !Wrong(rows, n, e))
  {
    OneDay(rows, n);
    UntypedIs(rows[n]);
    ElsewhereIs(rows, n);
  }

  lemma OneDay(rows: seq<Row>, n: nat)
    requires |rows| == n + 1 && FirstRefusal(rows[..n]).None?
    ensures SameDay(rows, n) <==> rows[..n] == [] || rows[..n][|rows[..n]| - 1].dateStart == rows[n].dateStart
  {
    RefusedIff(rows[..n]);
    forall j | 0 <= j < n ensures rows[j].dateStart == rows[n - 1].dateStart {
      assert rows[..n][j] == rows[j] && rows[..n][n - 1] == rows[n - 1];
    }
  }

  lemma ElsewhereIs(rows: seq<Row>, n: nat)
    requires |rows| == n + 1
    ensures Elsewhere(rows, n) <==> exists i :: 0 <= i < |rows[..n]| && rows[..n][i].adsetId == rows[n].adsetId && rows[..n][i].campaignId != rows[n].campaignId
  {
    assert forall j :: 0 <= j < n ==> rows[..n][j] == rows[j];
    if j :| 0 <= j < n && rows[j].adsetId == rows[n].adsetId && rows[j].campaignId != rows[n].campaignId {
      assert rows[..n][j] == rows[j];
    }
  }

  lemma UntypedIs(row: Row)
    ensures HasUntyped(row) <==> !Typed(row)
  {
    if HasUntyped(row) {
      if row.actions.Some? && exists j :: 0 <= j < |row.actions.value| && Missing(row.actions.value[j].actionType) {
        var j :| 0 <= j < |row.actions.value| && Missing(row.actions.value[j].actionType);
        assert !IsTyped(ElementsOf(Actions, row)[j]);
      } else {
        var j :| 0 <= j < |row.actionValues.value| && Missing(row.actionValues.value[j].actionType);
        assert !IsTyped(ElementsOf(ActionValues, row)[j]);
      }
    }
  }
}
