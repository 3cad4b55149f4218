/** The rollup: one day of ad rows, summed per campaign and per ad set. */
module HotRollup {
  import opened Options
  import opened RollupSums
  import opened RollupActions
  import opened RollupResults

  /** Fields that keep the first non-empty value. */
  datatype Names = Names(campaign: Option<string>, adset: Option<string>, dateStop: Option<string>,
                         objective: Option<string>, currency: Option<string>)

  datatype Row = Row(
    campaignId: Option<string>, adsetId: Option<string>, dateStart: Option<string>, names: Names,
    spend: Raw, clicks: Raw, linkClicks: Raw, impressions: Raw,
    actions: Option<seq<Element>>, actionValues: Option<seq<Element>>, results: Results, goal: Option<string>)

  datatype Derived = Derived(
    campaignId: string, adsetId: Option<string>, day: string, names: Names,
    spend: real, clicks: real, linkClicks: real, impressions: real,
    ctr: Option<real>, cpc: Option<real>, cpm: Option<real>,
    actions: Option<seq<Element>>, actionValues: Option<seq<Element>>, results: Results, goal: Option<string>)

  datatype Rolled = Rolled(entityId: string, adRowCount: nat, row: Derived)

  datatype Grain = Campaign | Adset

  datatype Error = MissingCampaign | MissingAdset | MissingDate | TwoDays | UntypedAction | TwoCampaigns

  datatype Result = Done(campaigns: seq<Rolled>, adsets: seq<Rolled>) | Refused(error: Error)

  // ----- What a row says -----

  function Text(s: Option<string>): string {
    if s.Some? then s.value else ""
  }

  function IdOf(grain: Grain): Row -> string {
    (row: Row) => Text(if grain.Campaign? then row.campaignId else row.adsetId)
  }

  function Spend(row: Row): real { Finite(row.spend) }
  function Clicks(row: Row): real { Round(Finite(row.clicks)) }
  function LinkClicks(row: Row): real { Round(Finite(row.linkClicks)) }
  function Impressions(row: Row): real { Round(Finite(row.impressions)) }

  datatype Kind = Actions | ActionValues

  function ListOf(kind: Kind, row: Row): Option<seq<Element>> {
    if kind.Actions? then row.actions else row.actionValues
  }

  function ElementsOf(kind: Kind, row: Row): seq<Element> {
    if ListOf(kind, row).Some? then ListOf(kind, row).value else []
  }

  predicate Typed(row: Row) {
    AllTyped(ElementsOf(Actions, row)) && AllTyped(ElementsOf(ActionValues, row))
  }

  // ----- What a group of rows derives -----

  predicate AnyList(kind: Kind, rows: seq<Row>) {
    exists i :: 0 <= i < |rows| && ListOf(kind, rows[i]).Some?
  }

  function Flat(kind: Kind, rows: seq<Row>): seq<Element> {
    if rows == [] then [] else Flat(kind, rows[..|rows| - 1]) + ElementsOf(kind, rows[|rows| - 1])
  }

  function AdResults(rows: seq<Row>): seq<Results> {
    seq(|rows|, i requires 0 <= i < |rows| => rows[i].results)
  }

  function Goals(rows: seq<Row>): set<Option<string>> {
    set row | row in rows :: NonEmpty(row.goal)
  }

  predicate AllHaveGoal(rows: seq<Row>, goal: string) {
    rows != [] && forall i :: 0 <= i < |rows| ==> NonEmpty(rows[i].goal) == Some(goal)
  }

  /** The goal every row has, if there is one. */
  ghost predicate CommonGoal(rows: seq<Row>, goal: Option<string>) {
    forall g :: goal == Some(g) <==> AllHaveGoal(rows, g)
  }

  function OrElse(first: Option<string>, next: Option<string>): Option<string> {
    if first.Some? then first else NonEmpty(next)
  }

  function NamesOf(rows: seq<Row>): Names {
    if rows == [] then Names(None, None, None, None, None)
    else AddNames(NamesOf(rows[..|rows| - 1]), rows[|rows| - 1].names)
  }

  function AddNames(n: Names, more: Names): Names {
    Names(OrElse(n.campaign, more.campaign), OrElse(n.adset, more.adset), OrElse(n.dateStop, more.dateStop),
      OrElse(n.objective, more.objective), OrElse(n.currency, more.currency))
  }

  predicate ListsActions(kind: Kind, list: Option<seq<Element>>, rows: seq<Row>) {
    && (list.Some? <==> AnyList(kind, rows))
    && (list.Some? ==> Lists(list.value, Rounded(TableOf(Flat(kind, rows)))))
  }

  function Ratio(a: real, b: real, scale: real): Option<real> {
    if b == 0.0 then None else Some(a / b * scale)
  }

  /** Window totals as an entry's values, in some order. */
  predicate ListsCounts(vs: seq<WindowValue>, counts: Sums) {
    && (forall i :: 0 <= i < |vs| ==>
          WindowOf(vs[i]).Some? && WindowOf(vs[i]).value in counts && vs[i].value == Num(counts[WindowOf(vs[i]).value]))
    && WindowsDistinct(vs)
    && forall w :: w in counts ==> exists i :: 0 <= i < |vs| && WindowOf(vs[i]) == Some(w)
  }

  predicate EntryStates(e: Entry, indicator: string, total: Total) {
    && e.indicator == Some(indicator)
    && (total.Unknown? ==> e.values.None?)
    && (total.Values? ==> e.values.Some? && ListsCounts(e.values.value, RoundedSums(total.counts)))
  }

  /** One entry per indicator some ad reported, in the caller's order. */
  predicate ListsResults(out: seq<Entry>, ads: seq<Results>, indicators: seq<string>) {
    if indicators == [] then out == []
    else
      var n := |indicators| - 1;
      var total := TotalOf(ads, indicators[n]);
      if total.Nothing? then ListsResults(out, ads, indicators[..n])
      else out != [] && EntryStates(out[|out| - 1], indicators[n], total) && ListsResults(out[..|out| - 1], ads, indicators[..n])
  }

  /** The list depends on the ads only through the totals. */
  lemma {:induction false} SameResults(out: seq<Entry>, ads: seq<Results>, others: seq<Results>, indicators: seq<string>)
    requires forall i :: 0 <= i < |indicators| ==> TotalOf(ads, indicators[i]) == TotalOf(others, indicators[i])
    ensures ListsResults(out, ads, indicators) <==> ListsResults(out, others, indicators)
  {
    if indicators != [] {
      SameResults(out, ads, others, indicators[..|indicators| - 1]);
      if out != [] { SameResults(out[..|out| - 1], ads, others, indicators[..|indicators| - 1]); }
    }
  }

  predicate StatesResults(results: Results, ads: seq<Results>, indicators: seq<string>) {
    if results.None? then ListsResults([], ads, indicators)
    else results.value != [] && ListsResults(results.value, ads, indicators)
  }

  predicate Numbers(d: Derived, rows: seq<Row>) {
    && d.spend == RoundSum(SumBy(Spend, rows)) && d.clicks == SumBy(Clicks, rows)
    && d.linkClicks == SumBy(LinkClicks, rows) && d.impressions == SumBy(Impressions, rows)
    && d.ctr == Ratio(d.clicks, d.impressions, 100.0) && d.cpc == Ratio(d.spend, d.clicks, 1.0)
    && d.cpm == Ratio(d.spend, d.impressions, 1000.0)
  }

  ghost predicate Derives(d: Derived, rows: seq<Row>, indicators: seq<string>) {
    Measures(d, rows, indicators) && d.names == NamesOf(rows)
  }

  /** Every derived number, list, result and the goal. */
  ghost predicate Measures(d: Derived, rows: seq<Row>, indicators: seq<string>) {
    && Numbers(d, rows)
    && ListsActions(Actions, d.actions, rows) && ListsActions(ActionValues, d.actionValues, rows)
    && StatesResults(d.results, AdResults(rows), indicators) && CommonGoal(rows, d.goal)
  }

  // ----- One group -----

  class GroupAccumulator {
    const campaignId: string
    const adsetId: Option<string>
    const day: string
    const indicators: seq<string>
    var adRowCount: nat
    var spend: real
    var clicks: real
    var linkClicks: real
    var impressions: real
    var names: Names
    var goals: set<Option<string>>
    var actions: ActionAccumulator?
    var actionValues: ActionAccumulator?
    var adResults: seq<Results>
    ghost var seen: seq<Row>
    ghost var Repr: set<object>

    ghost predicate Owned()
      reads this, Repr
    {
      && this in Repr && actions != this as object && actionValues != this as object
      && (actions != null ==> actions in Repr)
      && (actionValues != null ==> actionValues in Repr && actionValues != actions)
    }

    ghost predicate SumsOf(rows: seq<Row>)
      reads this
    {
      && adRowCount == |rows| && spend == SumBy(Spend, rows) && clicks == SumBy(Clicks, rows)
      && linkClicks == SumBy(LinkClicks, rows) && impressions == SumBy(Impressions, rows)
      && names == NamesOf(rows) && goals == Goals(rows) && adResults == AdResults(rows)
    }

    ghost predicate ListsOf(rows: seq<Row>)
      reads this, actions, actionValues
    {
      && Accumulates(actions, Actions, rows) && Accumulates(actionValues, ActionValues, rows)
    }

    ghost predicate Valid()
      reads this, Repr
    {
      Owned() && SumsOf(seen) && ListsOf(seen)
    }

    constructor (campaignId: string, adsetId: Option<string>, day: string, indicators: seq<string>)
      ensures Valid() && seen == [] && fresh(Repr)
      ensures this.campaignId == campaignId && this.adsetId == adsetId && this.day == day && this.indicators == indicators
    {
      this.campaignId, this.adsetId, this.day, this.indicators := campaignId, adsetId, day, indicators;
      adRowCount, spend, clicks, linkClicks, impressions := 0, 0.0, 0.0, 0.0, 0.0;
      names, goals, actions, actionValues, adResults := Names(None, None, None, None, None), {}, null, null, [];
      seen, Repr := [], {this};
    }

    method AddNumbers(row: Row)
      requires SumsOf(seen)
      modifies this`adRowCount, this`spend, this`clicks, this`linkClicks, this`impressions, this`names, this`goals, this`adResults
      ensures SumsOf(seen + [row])
    {
      SnocSums(seen, row);
      adRowCount, spend, clicks := adRowCount + 1, spend + Spend(row), clicks + Clicks(row);
      linkClicks, impressions := linkClicks + LinkClicks(row), impressions + Impressions(row);
      names, goals := AddNames(names, row.names), goals + {NonEmpty(row.goal)};
      adResults := adResults + [row.results];
    }

    method AddLists(row: Row) returns (ok: bool)
      requires Owned() && ListsOf(seen)
      modifies this`actions, this`actionValues, this`Repr, actions, actionValues
      ensures ok <==> Typed(row)
      ensures ok ==> Owned() && ListsOf(seen + [row]) && fresh(Repr - old(Repr)) && old(Repr) <= Repr
    {
      var list, values;
      list, ok := AddList(actions, Actions, seen, row);
      if !ok { return; }
      values, ok := AddList(actionValues, ActionValues, seen, row);
      if !ok { return; }
      actions, actionValues := list, values;
      if list != null { Repr := Repr + {list}; }
      if values != null { Repr := Repr + {values}; }
    }

    /** Fails exactly on a row with an untyped action. */
    method Add(row: Row) returns (ok: bool)
      requires Valid()
      modifies Repr
      ensures ok <==> Typed(row)
      ensures ok ==> Valid() && seen == old(seen) + [row] && fresh(Repr - old(Repr)) && old(Repr) <= Repr
    {
      AddNumbers(row);
      ok := AddLists(row);
      if ok { seen := seen + [row]; }
    }

    method Build() returns (d: Derived)
      requires Valid() && seen != []
      ensures Derives(d, seen, indicators) && d.campaignId == campaignId && d.adsetId == adsetId && d.day == day
    {
      var rounded := RoundSum(spend);
      var goal := PickGoal(goals, seen);
      var built, listed := None, None;
      if actions != null {
        var es := actions.Elements();
        built := Some(es);
      }
      if actionValues != null {
        var es := actionValues.Elements();
        listed := Some(es);
      }
      var results := BuildResults(adResults, indicators);
      d := Derived(campaignId, adsetId, day, names, rounded, clicks, linkClicks, impressions,
        Ratio(clicks, impressions, 100.0), Ratio(rounded, clicks, 1.0), Ratio(rounded, impressions, 1000.0),
        built, listed, if results == [] then None else Some(results), goal);
    }
  }

  /** The accumulator holds a group's elements, and is there once some row had a list. */
  ghost predicate Accumulates(acc: ActionAccumulator?, kind: Kind, rows: seq<Row>)
    reads acc
  {
    && (acc != null <==> AnyList(kind, rows))
    && (acc != null ==> acc.Valid() && acc.seen == Flat(kind, rows))
  }

  /** Adds a row's list to its accumulator, making one for the first list of a group. */
  method AddList(acc: ActionAccumulator?, kind: Kind, ghost rows: seq<Row>, row: Row) returns (next: ActionAccumulator?, ok: bool)
    requires Accumulates(acc, kind, rows)
    modifies acc
    ensures ok <==> AllTyped(ElementsOf(kind, row))
    ensures ok ==> Accumulates(next, kind, rows + [row])
    ensures next == acc || (acc == null && fresh(next))
  {
    SnocLists(kind, rows, row);
    NoListNoElements(kind, rows);
    next, ok := acc, true;
    if ListOf(kind, row).Some? {
      if next == null { next := new ActionAccumulator(); }
      ok := next.Add(ListOf(kind, row).value);
    }
  }

  lemma SnocSums(rows: seq<Row>, row: Row)
    ensures SumBy(Spend, rows + [row]) == SumBy(Spend, rows) + Spend(row)
    ensures SumBy(Clicks, rows + [row]) == SumBy(Clicks, rows) + Clicks(row)
    ensures SumBy(LinkClicks, rows + [row]) == SumBy(LinkClicks, rows) + LinkClicks(row)
    ensures SumBy(Impressions, rows + [row]) == SumBy(Impressions, rows) + Impressions(row)
    ensures NamesOf(rows + [row]) == AddNames(NamesOf(rows), row.names)
    ensures Goals(rows + [row]) == Goals(rows) + {NonEmpty(row.goal)}
    ensures AdResults(rows + [row]) == AdResults(rows) + [row.results]
  {
    assert (rows + [row])[..|rows|] == rows;
    assert forall r :: r in rows + [row] <==> r in rows || r == row;
  }

  lemma SnocLists(kind: Kind, rows: seq<Row>, row: Row)
    ensures Flat(kind, rows + [row]) == Flat(kind, rows) + ElementsOf(kind, row)
    ensures AnyList(kind, rows + [row]) <==> AnyList(kind, rows) || ListOf(kind, row).Some?
  {
    var all := rows + [row];
    assert all[..|rows|] == rows && all[|rows|] == row;
    if AnyList(kind, rows) {
      var i :| 0 <= i < |rows| && ListOf(kind, rows[i]).Some?;
      assert all[i] == rows[i];
    }
  }

  lemma {:induction false} NoListNoElements(kind: Kind, rows: seq<Row>)
    ensures !AnyList(kind, rows) ==> Flat(kind, rows) == []
  {
    if rows != [] && !AnyList(kind, rows) {
      assert forall i :: 0 <= i < |rows| - 1 ==> rows[..|rows| - 1][i] == rows[i];
      NoListNoElements(kind, rows[..|rows| - 1]);
    }
  }

  method PickGoal(goals: set<Option<string>>, ghost rows: seq<Row>) returns (goal: Option<string>)
    requires rows != [] && goals == Goals(rows)
    ensures CommonGoal(rows, goal)
  {
    assert rows[0] in rows && NonEmpty(rows[0].goal) in goals;
    var first :| first in goals;
    goal := if goals == {first} then first else None;
    assert forall i :: 0 <= i < |rows| ==> NonEmpty(rows[i].goal) in goals;
    forall g ensures goal == Some(g) <==> AllHaveGoal(rows, g) {
      if AllHaveGoal(rows, g) {
        assert forall row :: row in rows ==> NonEmpty(row.goal) == Some(g);
        assert goals == {Some(g)};
      }
    }
  }

  method BuildResults(ads: seq<Results>, indicators: seq<string>) returns (out: seq<Entry>)
    ensures ListsResults(out, ads, indicators)
  {
    out := [];
    for i := 0 to |indicators|
      invariant ListsResults(out, ads, indicators[..i])
    {
      assert indicators[..i + 1][..i] == indicators[..i];
      var total := SumResultIndicator(ads, indicators[i]);
      match total {
        case Nothing =>
        case Unknown =>
          out := out + [Entry(Some(indicators[i]), None)];
        case Values(counts) =>
          CountedWindowsAreNamed(ads, indicators[i]);
          var vs := CountsAsValues(RoundedSums(counts));
          out := out + [Entry(Some(indicators[i]), Some(vs))];
      }
    }
    assert indicators[..|indicators|] == indicators;
  }

  lemma CountedWindowsAreNamed(ads: seq<Results>, indicator: string)
    ensures "" !in WindowTotals(ads, indicator)
  {
    forall i | 0 <= i < |ads| && WindowValues(ads[i], indicator).Some? ensures "" !in WindowValues(ads[i], indicator).value {
      var vs := Filter(NamedBy(indicator), ads[i].value)[0].values.value;
      ValuesIff(vs);
      ReadWindowsAreNamed(ValuesUpTo(vs).value, vs);
    }
  }

  lemma ReadWindowsAreNamed(m: Sums, vs: seq<WindowValue>)
    requires Reads(m, vs)
    ensures "" !in m
  {
    assert forall i :: 0 <= i < |vs| ==> WindowOf(vs[i]) != Some("");
  }

  method CountsAsValues(counts: Sums) returns (vs: seq<WindowValue>)
    requires "" !in counts
    ensures ListsCounts(vs, counts)
  {
    vs := [];
    var left := counts.Keys;
    while left != {}
      invariant left <= counts.Keys
      invariant forall i :: 0 <= i < |vs| ==>
        && WindowOf(vs[i]).Some? && WindowOf(vs[i]).value in counts && WindowOf(vs[i]).value !in left
        && vs[i].value == Num(counts[WindowOf(vs[i]).value])
      invariant WindowsDistinct(vs)
      invariant forall w :: w in counts && w !in left ==> exists i :: 0 <= i < |vs| && WindowOf(vs[i]) == Some(w)
      decreases left
    {
      var w :| w in left;
      var v := WindowValue(Some([Some(w)]), Num(counts[w]));
      ghost var before := vs;
      vs := vs + [v];
      assert vs[|before|] == v && forall i :: 0 <= i < |before| ==> vs[i] == before[i];
      left := left - {w};
    }
  }

  // ----- One grain -----

  /** The rows of one entity. */
  function Group(grain: Grain, id: string, rows: seq<Row>): seq<Row> {
    Filter(KeyIs(IdOf(grain), id), rows)
  }

  /** Entities in order of first appearance. */
  function Order(grain: Grain, rows: seq<Row>): seq<string> {
    if rows == [] then []
    else
      var before, id := Order(grain, rows[..|rows| - 1]), IdOf(grain)(rows[|rows| - 1]);
      if id in before then before else before + [id]
  }

  lemma {:induction false} OrderIs(grain: Grain, rows: seq<Row>)
    ensures Distinct(Order(grain, rows))
    ensures forall id :: id in Order(grain, rows) <==> exists i :: 0 <= i < |rows| && IdOf(grain)(rows[i]) == id
  {
    if rows != [] {
      var front, last := rows[..|rows| - 1], rows[|rows| - 1];
      OrderIs(grain, front);
      DistinctSnoc(Order(grain, front), IdOf(grain)(last));
      forall id ensures id in Order(grain, rows) <==> exists i :: 0 <= i < |rows| && IdOf(grain)(rows[i]) == id {
        if i :| 0 <= i < |front| && IdOf(grain)(front[i]) == id { assert rows[i] == front[i]; }
      }
    }
  }

  lemma {:induction false} GroupIs(grain: Grain, id: string, rows: seq<Row>)
    ensures forall i :: 0 <= i < |Group(grain, id, rows)| ==>
      Group(grain, id, rows)[i] in rows && IdOf(grain)(Group(grain, id, rows)[i]) == id
    ensures Group(grain, id, rows) == [] <==> id !in Order(grain, rows)
  {
    if rows != [] { GroupIs(grain, id, rows[..|rows| - 1]); }
  }

  /** A derived row of its grain: it is named after the entity and derives the entity's rows. */
  ghost predicate IsRolled(grain: Grain, out: Rolled, id: string, rows: seq<Row>, indicators: seq<string>) {
    var group := Group(grain, id, rows);
    && group != [] && out.entityId == id && out.adRowCount == |group| && Derives(out.row, group, indicators)
    && out.row.campaignId == Text(group[0].campaignId) && out.row.day == Text(group[0].dateStart)
    && out.row.adsetId == (if grain.Adset? then Some(id) else None)
  }

  ghost predicate AllRolled(grain: Grain, out: seq<Rolled>, rows: seq<Row>, indicators: seq<string>) {
    && |out| == |Order(grain, rows)|
    && forall i :: 0 <= i < |out| ==> IsRolled(grain, out[i], Order(grain, rows)[i], rows, indicators)
  }

  /** The accumulator of one entity. */
  ghost predicate Holds(grain: Grain, indicators: seq<string>, g: GroupAccumulator, id: string, rows: seq<Row>)
    reads g, g.Repr
  {
    && g.Valid() && g.seen == Group(grain, id, rows) && Identified(grain, indicators, g, id, g.seen)
  }

  ghost predicate Identified(grain: Grain, indicators: seq<string>, g: GroupAccumulator, id: string, group: seq<Row>)
    reads g
  {
    && group != [] && g.campaignId == Text(group[0].campaignId) && g.day == Text(group[0].dateStart)
    && g.adsetId == (if grain.Adset? then Some(id) else None) && g.indicators == indicators
  }

  /** Accumulators with objects of their own among `parts`. */
  ghost predicate Apart(byId: map<string, GroupAccumulator>, parts: set<object>)
    reads parts
  {
    && (forall id :: id in byId ==> byId[id] in parts && byId[id] in byId[id].Repr && byId[id].Repr <= parts)
    && forall a, b :: a in byId && b in byId && a != b ==> byId[a].Repr !! byId[b].Repr
  }

  /** Each entity's accumulator holds that entity's rows. */
  ghost predicate Filed(grain: Grain, indicators: seq<string>, byId: map<string, GroupAccumulator>, parts: set<object>, rows: seq<Row>)
    reads parts
  {
    && Apart(byId, parts)
    && forall id {:trigger Holds(grain, indicators, byId[id], id, rows)} :: id in byId ==> Holds(grain, indicators, byId[id], id, rows)
  }

  lemma SetAside(grain: Grain, indicators: seq<string>, byId: map<string, GroupAccumulator>, parts: set<object>, rows: seq<Row>, id: string)
    requires Filed(grain, indicators, byId, parts, rows) && id in byId
    ensures Filed(grain, indicators, byId - {id}, parts - byId[id].Repr, rows) && Holds(grain, indicators, byId[id], id, rows)
  {
    assert Holds(grain, indicators, byId[id], id, rows);
  }

  lemma FileBack(grain: Grain, indicators: seq<string>, rest: map<string, GroupAccumulator>, parts: set<object>,
                 rows: seq<Row>, id: string, group: GroupAccumulator, row: Row)
    requires Filed(grain, indicators, rest, parts, rows) && id !in rest && id == IdOf(grain)(row)
    requires group.Repr !! parts && Holds(grain, indicators, group, id, rows + [row])
    ensures Filed(grain, indicators, rest[id := group], parts + group.Repr, rows + [row])
  {
    SnocGroups(grain, rows, row);
    var all := rest[id := group];
    forall k | k in all ensures Holds(grain, indicators, all[k], k, rows + [row]) {
      if k != id { assert Holds(grain, indicators, rest[k], k, rows); }
    }
  }

  /** A map that remembers insertion order. */
  datatype Index = Index(byId: map<string, GroupAccumulator>, order: seq<string>)

  ghost predicate Indexed(grain: Grain, indicators: seq<string>, index: Index, parts: set<object>, rows: seq<Row>)
    reads parts
  {
    && Filed(grain, indicators, index.byId, parts, rows)
    && index.order == Order(grain, rows) && forall id :: id in index.byId <==> id in index.order
  }

  /** The accumulator of the row's entity, opened at its first row, and the rest. */
  method Find(grain: Grain, indicators: seq<string>, index: Index, ghost parts: set<object>, ghost seen: seq<Row>, row: Row)
    returns (group: GroupAccumulator, ghost rest: map<string, GroupAccumulator>, ghost others: set<object>)
    requires Indexed(grain, indicators, index, parts, seen)
    ensures var id := IdOf(grain)(row); Filed(grain, indicators, rest, others, seen) && rest == index.byId - {id}
    ensures var id := IdOf(grain)(row);
      && group.Valid() && group.Repr !! others && group.seen == Group(grain, id, seen)
      && Identified(grain, indicators, group, id, group.seen + [row])
    ensures others <= parts && (if IdOf(grain)(row) in index.byId then parts == others + group.Repr else fresh(group.Repr) && parts == others)
  {
    var id, byId := IdOf(grain)(row), index.byId;
    GroupIs(grain, id, seen);
    if id in byId {
      group := byId[id];
      SetAside(grain, indicators, byId, parts, seen, id);
      rest, others := byId - {id}, parts - group.Repr;
    } else {
      group := new GroupAccumulator(Text(row.campaignId), if grain.Adset? then Some(id) else None, Text(row.dateStart), indicators);
      rest, others := byId, parts;
      assert rest == byId - {id};
    }
  }

  /** Files the row under its entity. */
  method File(grain: Grain, indicators: seq<string>, index: Index, ghost parts: set<object>, ghost seen: seq<Row>, row: Row)
    returns (ok: bool, next: Index, ghost all: set<object>)
    requires Indexed(grain, indicators, index, parts, seen)
    modifies parts
    ensures ok <==> Typed(row)
    ensures ok ==> Indexed(grain, indicators, next, all, seen + [row]) && fresh(all - parts) && parts <= all
  {
    var id := IdOf(grain)(row);
    var group; ghost var rest, others;
    group, rest, others := Find(grain, indicators, index, parts, seen, row);
    next := Index(index.byId[id := group], if id in index.byId then index.order else index.order + [id]);
    assert next.byId == rest[id := group];
    ok := group.Add(row);
    all := others + group.Repr;
    if ok {
      SnocGroups(grain, seen, row);
      FileBack(grain, indicators, rest, others, seen, id, group, row);
    }
  }

  method BuildOne(grain: Grain, indicators: seq<string>, index: Index, ghost parts: set<object>, ghost seen: seq<Row>, id: string)
    returns (out: Rolled)
    requires Indexed(grain, indicators, index, parts, seen) && id in index.byId
    ensures IsRolled(grain, out, id, seen, indicators)
  {
    var group := index.byId[id];
    assert Holds(grain, indicators, index.byId[id], id, seen);
    var row := group.Build();
    return Rolled(id, group.adRowCount, row);
  }

  method BuildAll(grain: Grain, indicators: seq<string>, index: Index, ghost parts: set<object>, ghost seen: seq<Row>)
    returns (out: seq<Rolled>)
    requires Indexed(grain, indicators, index, parts, seen)
    ensures AllRolled(grain, out, seen, indicators)
  {
    out := [];
    for i := 0 to |index.order|
      invariant |out| == i
      invariant forall k {:trigger out[k]} :: 0 <= k < i ==> IsRolled(grain, out[k], index.order[k], seen, indicators)
    {
      var rolled := BuildOne(grain, indicators, index, parts, seen, index.order[i]);
      out := out + [rolled];
    }
  }

  lemma SnocGroups(grain: Grain, rows: seq<Row>, row: Row)
    ensures var id := IdOf(grain)(row);
      && Order(grain, rows + [row]) == (if id in Order(grain, rows) then Order(grain, rows) else Order(grain, rows) + [id])
      && Group(grain, id, rows + [row]) == Group(grain, id, rows) + [row]
    ensures forall k :: k != IdOf(grain)(row) ==> Group(grain, k, rows + [row]) == Group(grain, k, rows)
  {
    assert (rows + [row])[..|rows|] == rows;
    forall k ensures Group(grain, k, rows + [row]) == Group(grain, k, rows) + (if IdOf(grain)(row) == k then [row] else []) {
      FilterSnoc(KeyIs(IdOf(grain), k), rows, row);
    }
  }

  // ----- The rollup -----

  /** Why a row is refused after the rows before it. */
  function Refusal(seen: seq<Row>, row: Row): Option<Error> {
    if NonEmpty(row.campaignId).None? then Some(MissingCampaign)
    else if NonEmpty(row.adsetId).None? then Some(MissingAdset)
    else if NonEmpty(row.dateStart).None? then Some(MissingDate)
    else if seen != [] && row.dateStart != seen[|seen| - 1].dateStart then Some(TwoDays)
    else if !Typed(row) then Some(UntypedAction)
    else if exists i :: 0 <= i < |seen| && seen[i].adsetId == row.adsetId && seen[i].campaignId != row.campaignId then Some(TwoCampaigns)
    else None
  }

  function FirstRefusal(rows: seq<Row>): Option<Error> {
    if rows == [] then None
    else
      var before := FirstRefusal(rows[..|rows| - 1]);
      if before.Some? then before else Refusal(rows[..|rows| - 1], rows[|rows| - 1])
  }

  predicate Attributed(row: Row) {
    NonEmpty(row.campaignId).Some? && NonEmpty(row.adsetId).Some? && NonEmpty(row.dateStart).Some?
  }

  /** Every row is attributed, of one day, with typed actions, and each ad set is under one campaign. */
  predicate Rollable(rows: seq<Row>) {
    && (forall i :: 0 <= i < |rows| ==> Attributed(rows[i]) && Typed(rows[i]))
    && (forall i, j :: 0 <= i < j < |rows| ==> rows[i].dateStart == rows[j].dateStart)
    && (forall i, j :: 0 <= i < j < |rows| && rows[i].adsetId == rows[j].adsetId ==> rows[i].campaignId == rows[j].campaignId)
  }

  lemma {:induction false} RefusedIff(rows: seq<Row>)
    ensures FirstRefusal(rows).None? <==> Rollable(rows)
  {
    if rows != [] {
      var n := |rows| - 1;
      var front := rows[..n];
      RefusedIff(front);
      assert forall i :: 0 <= i < n ==> front[i] == rows[i];
      if Rollable(front) && Attributed(rows[n]) && Typed(rows[n]) {
        if Refusal(front, rows[n]).None? {
          forall i | 0 <= i < n ensures rows[i].dateStart == rows[n].dateStart { assert i < n - 1 ==> front[i].dateStart == front[n - 1].dateStart; }
        }
      }
    }
  }

  lemma {:induction false} RefusalStays(rows: seq<Row>, i: nat)
    requires i <= |rows| && FirstRefusal(rows[..i]).Some?
    ensures FirstRefusal(rows) == FirstRefusal(rows[..i])
    decreases |rows| - i
  {
    if i < |rows| {
      assert rows[..i + 1][..i] == rows[..i];
      RefusalStays(rows, i + 1);
    } else {
      assert rows[..i] == rows;
    }
  }

  /** Derives every campaign and ad set when all rows can be attributed; names the first refusal otherwise. */
  method RollUp(rows: seq<Row>, indicators: seq<string>) returns (result: Result)
    ensures result.Done? <==> Rollable(rows)
    ensures result.Done? ==>
      && AllRolled(Campaign, result.campaigns, rows, indicators)
      && AllRolled(Adset, result.adsets, rows, indicators)
    ensures result.Refused? ==> FirstRefusal(rows) == Some(result.error)
  {
    RefusedIff(rows);
    var error, campaigns, adsets; ghost var parts, adsetParts;
    error, campaigns, adsets, parts, adsetParts := FileAll(rows, indicators);
    if error.Some? {
      return Refused(error.value);
    }
    var campaignRows := BuildAll(Campaign, indicators, campaigns, parts, rows);
    var adsetRows := BuildAll(Adset, indicators, adsets, adsetParts, rows);
    return Done(campaignRows, adsetRows);
  }

  /** Files the rows in turn, up to the first one refused. */
  method FileAll(rows: seq<Row>, indicators: seq<string>)
    returns (error: Option<Error>, campaigns: Index, adsets: Index, ghost parts: set<object>, ghost adsetParts: set<object>)
    ensures error == FirstRefusal(rows)
    ensures error.None? ==> Indexed(Campaign, indicators, campaigns, parts, rows) && Indexed(Adset, indicators, adsets, adsetParts, rows)
    ensures error.None? ==> fresh(parts) && fresh(adsetParts)
  {
    campaigns, adsets, parts, adsetParts := Index(map[], []), Index(map[], []), {}, {};
    for i := 0 to |rows|
      invariant Indexed(Campaign, indicators, campaigns, parts, rows[..i]) && Indexed(Adset, indicators, adsets, adsetParts, rows[..i])
      invariant parts !! adsetParts && fresh(parts) && fresh(adsetParts)
      invariant FirstRefusal(rows[..i]).None?
    {
      error, campaigns, adsets, parts, adsetParts := FileRow(rows, i, indicators, campaigns, adsets, parts, adsetParts);
      if error.Some? {
        return;
      }
    }
    assert rows[..|rows|] == rows;
    error := None;
  }

  /** Files one row at both grains, or says why not. */
  method FileRow(rows: seq<Row>, i: nat, indicators: seq<string>, campaigns: Index, adsets: Index, ghost parts: set<object>, ghost adsetParts: set<object>)
    returns (error: Option<Error>, nextCampaigns: Index, nextAdsets: Index, ghost nextParts: set<object>, ghost nextAdsetParts: set<object>)
    requires i < |rows| && FirstRefusal(rows[..i]).None? && parts !! adsetParts
    requires Indexed(Campaign, indicators, campaigns, parts, rows[..i]) && Indexed(Adset, indicators, adsets, adsetParts, rows[..i])
    modifies parts, adsetParts
    ensures error.Some? ==> error == FirstRefusal(rows)
    ensures error.None? ==>
      && Indexed(Campaign, indicators, nextCampaigns, nextParts, rows[..i + 1])
      && Indexed(Adset, indicators, nextAdsets, nextAdsetParts, rows[..i + 1])
      && FirstRefusal(rows[..i + 1]).None?
      && nextParts !! nextAdsetParts && fresh(nextParts - parts) && fresh(nextAdsetParts - adsetParts)
  {
    nextCampaigns, nextAdsets, nextParts, nextAdsetParts := campaigns, adsets, parts, adsetParts;
    SnocPrefix(rows, i);
    RefusalHere(rows, i);
    error := Check(rows, i, indicators, adsets, adsetParts);
    if error.Some? && error != Some(TwoCampaigns) {
      return;
    }
    var ok;
    ok, nextCampaigns, nextParts := File(Campaign, indicators, campaigns, parts, rows[..i], rows[i]);
    if !ok {
      error := Some(UntypedAction);
      return;
    }
    if error.Some? {
      return;
    }
    ok, nextAdsets, nextAdsetParts := File(Adset, indicators, adsets, adsetParts, rows[..i], rows[i]);
  }

  /** The row's attribution, its day, and whether its ad set was reported under another campaign. */
  method Check(rows: seq<Row>, i: nat, ghost indicators: seq<string>, adsets: Index, ghost parts: set<object>)
    returns (error: Option<Error>)
    requires i < |rows| && FirstRefusal(rows[..i]).None? && Indexed(Adset, indicators, adsets, parts, rows[..i])
    ensures Refusal(rows[..i], rows[i]) ==
      if (error.None? || error == Some(TwoCampaigns)) && !Typed(rows[i]) then Some(UntypedAction) else error
    ensures error != Some(UntypedAction)
  {
    var row, id := rows[i], Text(rows[i].adsetId);
    if NonEmpty(row.campaignId).None? {
      return Some(MissingCampaign);
    }
    if NonEmpty(row.adsetId).None? {
      return Some(MissingAdset);
    }
    if NonEmpty(row.dateStart).None? {
      return Some(MissingDate);
    }
    if i > 0 && row.dateStart != rows[i - 1].dateStart {
      return Some(TwoDays);
    }
    RefusedIff(rows[..i]);
    AdsetCampaign(rows[..i], row);
    GroupIs(Adset, id, rows[..i]);
    if id in adsets.byId {
      assert Holds(Adset, indicators, adsets.byId[id], id, rows[..i]);
      if adsets.byId[id].campaignId != Text(row.campaignId) {
        return Some(TwoCampaigns);
      }
    }
    return None;
  }

  /** The first refused row decides. */
  lemma RefusalHere(rows: seq<Row>, i: nat)
    requires i < |rows| && FirstRefusal(rows[..i]).None?
    ensures FirstRefusal(rows[..i + 1]) == Refusal(rows[..i], rows[i])
    ensures FirstRefusal(rows[..i + 1]).Some? ==> FirstRefusal(rows) == FirstRefusal(rows[..i + 1])
  {
    SnocPrefix(rows, i);
    if FirstRefusal(rows[..i + 1]).Some? { RefusalStays(rows, i + 1); }
  }

  lemma SnocPrefix(rows: seq<Row>, i: nat)
    requires i < |rows|
    ensures rows[..i + 1] == rows[..i] + [rows[i]] && rows[..i + 1][..i] == rows[..i]
  {
  }

  /** The first row of an ad set speaks for all of its rows. */
  lemma AdsetCampaign(seen: seq<Row>, row: Row)
    requires Rollable(seen) && Attributed(row)
    ensures var group := Group(Adset, Text(row.adsetId), seen);
      (exists i :: 0 <= i < |seen| && seen[i].adsetId == row.adsetId && seen[i].campaignId != row.campaignId)
      <==> group != [] && Text(group[0].campaignId) != Text(row.campaignId)
  {
    var id := Text(row.adsetId);
    var group := Group(Adset, id, seen);
    GroupIs(Adset, id, seen);
    if i :| 0 <= i < |seen| && seen[i].adsetId == row.adsetId && seen[i].campaignId != row.campaignId {
      InFilter(KeyIs(IdOf(Adset), id), seen, seen[i]);
      assert group[0] in seen && group[0].adsetId == row.adsetId;
    }
    if group != [] { assert group[0] in seen; }
  }
}
