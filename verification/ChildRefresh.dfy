/** Transition-aware incremental scans: plan the child reads a parent's status change calls for, then
    patch only the status of the children that moved, all or nothing. Fresh nodes are in the scrubbed
    form they are stored in. */
module ChildRefresh {
  import opened Options
  import opened CanonicalJson
  import opened LeanInventory

  /** Own or delivery status differs; absent and null print the same. */
  predicate StatusChanged(before: Node, after: Node, lt: Order) {
    || !SameJson(Get(before, "status"), Get(after, "status"), lt)
    || !SameJson(Get(before, "effective_status"), Get(after, "effective_status"), lt)
  }

  // ----- The plan -----

  datatype Parent = Campaign | Adset
  datatype Edge = AdsetsEdge | AdsEdge
  datatype ChildRead = ChildRead(parent: Parent, parentId: string, edge: Edge, estimate: nat)
  datatype Plan = Plan(campaigns: seq<string>, adsets: seq<string>, childReads: seq<ChildRead>, estimate: nat)

  /** One scan's reads and the stored current versions. */
  datatype Scan = Scan(
    campaigns: seq<Node>, adsets: seq<Node>,
    storedCampaigns: seq<Node>, storedAdsets: seq<Node>, storedAds: seq<Node>)

  const LEAN_PAGE_SIZE: nat := 500

  function InsertId(ids: seq<string>, id: string, before: Order): seq<string> {
    if ids == [] || before(id, ids[0]) then [id] + ids
    else if id == ids[0] then ids
    else [ids[0]] + InsertId(ids[1..], id, before)
  }

  /** A known parent whose own status this scan saw change. */
  predicate Moved(node: Node, stored: map<string, Node>, lt: Order) {
    NodeId(node).Some? && NodeId(node).value in stored && StatusChanged(stored[NodeId(node).value], node, lt)
  }

  /** The ids of the moved parents, each once, in order. */
  function ChangedIds(nodes: seq<Node>, stored: map<string, Node>, lt: Order, before: Order): seq<string> {
    if nodes == [] then []
    else
      var rest, last := ChangedIds(nodes[..|nodes| - 1], stored, lt, before), nodes[|nodes| - 1];
      if Moved(last, stored, lt) then InsertId(rest, NodeId(last).value, before) else rest
  }

  function CountLinks(nodes: seq<Node>, key: string, parentId: string): nat {
    if nodes == [] then 0
    else CountLinks(nodes[..|nodes| - 1], key, parentId)
         + if NonEmpty(Get(nodes[|nodes| - 1], key)) == Some(parentId) then 1 else 0
  }

  function Pages(children: nat): nat {
    if children == 0 then 1 else (children + LEAN_PAGE_SIZE - 1) / LEAN_PAGE_SIZE
  }

  function AdsetCampaign(s: Scan, id: string): Option<string> {
    var read, stored := ById(s.adsets), ById(s.storedAdsets);
    var own := if id in read then NonEmpty(Get(read[id], "campaign_id")) else None;
    if own.Some? then own
    else if id in stored then NonEmpty(Get(stored[id], "campaign_id"))
    else None
  }

  function CampaignReads(s: Scan, id: string): seq<ChildRead> {
    [ChildRead(Campaign, id, AdsetsEdge, Pages(CountLinks(s.storedAdsets, "campaign_id", id))),
     ChildRead(Campaign, id, AdsEdge, Pages(CountLinks(s.storedAds, "campaign_id", id)))]
  }

  /** Nothing for an ad set whose known campaign is among the changed ones, otherwise one ads read. */
  function AdsetReads(s: Scan, id: string, campaigns: seq<string>): seq<ChildRead> {
    var campaign := AdsetCampaign(s, id);
    if campaign.Some? && campaign.value in campaigns then []
    else [ChildRead(Adset, id, AdsEdge, Pages(CountLinks(s.storedAds, "adset_id", id)))]
  }

  function AllCampaignReads(s: Scan, ids: seq<string>): seq<ChildRead> {
    if ids == [] then [] else AllCampaignReads(s, ids[..|ids| - 1]) + CampaignReads(s, ids[|ids| - 1])
  }

  function AllAdsetReads(s: Scan, ids: seq<string>, campaigns: seq<string>): seq<ChildRead> {
    if ids == [] then []
    else AllAdsetReads(s, ids[..|ids| - 1], campaigns) + AdsetReads(s, ids[|ids| - 1], campaigns)
  }

  function TotalEstimate(childReads: seq<ChildRead>): nat {
    if childReads == [] then 0 else TotalEstimate(childReads[..|childReads| - 1]) + childReads[|childReads| - 1].estimate
  }

  function PlanOf(s: Scan, lt: Order, before: Order): Option<Plan> {
    var campaigns := ChangedIds(s.campaigns, ById(s.storedCampaigns), lt, before);
    var adsets := ChangedIds(s.adsets, ById(s.storedAdsets), lt, before);
    if campaigns == [] && adsets == [] then None
    else
      var childReads := AllCampaignReads(s, campaigns) + AllAdsetReads(s, adsets, campaigns);
      Some(Plan(campaigns, adsets, childReads, TotalEstimate(childReads)))
  }

  method Changed(nodes: seq<Node>, stored: map<string, Node>, lt: Order, before: Order) returns (ids: seq<string>)
    ensures ids == ChangedIds(nodes, stored, lt, before)
  {
    ids := [];
    for i := 0 to |nodes|
      invariant ids == ChangedIds(nodes[..i], stored, lt, before)
    {
      assert nodes[..i + 1][..i] == nodes[..i];
      if Moved(nodes[i], stored, lt) { ids := InsertId(ids, NodeId(nodes[i]).value, before); }
    }
    assert nodes[..|nodes|] == nodes;
  }

  method PlanRefresh(s: Scan, lt: Order, before: Order) returns (plan: Option<Plan>)
    ensures plan == PlanOf(s, lt, before)
  {
    var campaigns := Changed(s.campaigns, ById(s.storedCampaigns), lt, before);
    var adsets := Changed(s.adsets, ById(s.storedAdsets), lt, before);
    if campaigns == [] && adsets == [] { return None; }
    var childReads := PlanCampaignReads(s, campaigns);
    var adsetReads := PlanAdsetReads(s, adsets, campaigns);
    childReads := childReads + adsetReads;
    plan := Some(Plan(campaigns, adsets, childReads, TotalEstimate(childReads)));
  }

  method PlanCampaignReads(s: Scan, campaigns: seq<string>) returns (childReads: seq<ChildRead>)
    ensures childReads == AllCampaignReads(s, campaigns)
  {
    childReads := [];
    for i := 0 to |campaigns|
      invariant childReads == AllCampaignReads(s, campaigns[..i])
    {
      assert campaigns[..i + 1][..i] == campaigns[..i];
      childReads := childReads + CampaignReads(s, campaigns[i]);
    }
    assert campaigns[..|campaigns|] == campaigns;
  }

  method PlanAdsetReads(s: Scan, adsets: seq<string>, campaigns: seq<string>) returns (childReads: seq<ChildRead>)
    ensures childReads == AllAdsetReads(s, adsets, campaigns)
  {
    childReads := [];
    for i := 0 to |adsets|
      invariant childReads == AllAdsetReads(s, adsets[..i], campaigns)
    {
      assert adsets[..i + 1][..i] == adsets[..i];
      childReads := childReads + AdsetReads(s, adsets[i], campaigns);
    }
    assert adsets[..|adsets|] == adsets;
  }

  // ----- Coverage -----

  predicate DistinctIds(ids: seq<string>) {
    forall i, j :: 0 <= i < j < |ids| ==> ids[i] != ids[j]
  }

  predicate AscendingIds(ids: seq<string>, before: Order) {
    forall i, j :: 0 <= i < j < |ids| ==> before(ids[i], ids[j])
  }

  lemma {:induction false} InsertIdKeeps(ids: seq<string>, id: string, before: Order)
    requires StrictTotal(before) && AscendingIds(ids, before)
    ensures AscendingIds(InsertId(ids, id, before), before)
    ensures forall x :: x in InsertId(ids, id, before) <==> x == id || x in ids
  {
    if ids != [] && !before(id, ids[0]) && id != ids[0] {
      InsertIdKeeps(ids[1..], id, before);
      var rest := InsertId(ids[1..], id, before);
      forall x | x in rest ensures before(ids[0], x) {
        if x != id {
          var j :| 0 <= j < |ids[1..]| && ids[1..][j] == x;
          assert ids[j + 1] == x;
        }
      }
      assert forall x :: x in ids <==> x == ids[0] || x in ids[1..];
    }
  }

  lemma {:induction false} ChangedIdsAre(nodes: seq<Node>, stored: map<string, Node>, lt: Order, before: Order)
    requires StrictTotal(before)
    ensures var ids := ChangedIds(nodes, stored, lt, before);
      && AscendingIds(ids, before) && DistinctIds(ids)
      && forall id :: id in ids <==> exists n :: n in nodes && NodeId(n) == Some(id) && Moved(n, stored, lt)
  {
    if nodes != [] {
      var init, last := nodes[..|nodes| - 1], nodes[|nodes| - 1];
      ChangedIdsAre(init, stored, lt, before);
      if Moved(last, stored, lt) { InsertIdKeeps(ChangedIds(init, stored, lt, before), NodeId(last).value, before); }
      assert nodes == init + [last];
      forall id
        ensures id in ChangedIds(nodes, stored, lt, before)
                <==> exists n :: n in nodes && NodeId(n) == Some(id) && Moved(n, stored, lt)
      {
        if Moved(last, stored, lt) && NodeId(last) == Some(id) { assert last in nodes; }
      }
    }
  }

  /** There is no plan exactly when no known parent's status changed. */
  lemma NoPlanIffNothingMoved(s: Scan, lt: Order, before: Order)
    requires StrictTotal(before)
    ensures PlanOf(s, lt, before).None? <==>
      && (forall n :: n in s.campaigns ==> !Moved(n, ById(s.storedCampaigns), lt))
      && (forall n :: n in s.adsets ==> !Moved(n, ById(s.storedAdsets), lt))
  {
    ChangedIdsAre(s.campaigns, ById(s.storedCampaigns), lt, before);
    ChangedIdsAre(s.adsets, ById(s.storedAdsets), lt, before);
    var campaigns := ChangedIds(s.campaigns, ById(s.storedCampaigns), lt, before);
    var adsets := ChangedIds(s.adsets, ById(s.storedAdsets), lt, before);
    if campaigns != [] { assert campaigns[0] in campaigns; }
    if adsets != [] { assert adsets[0] in adsets; }
    if n :| n in s.campaigns && Moved(n, ById(s.storedCampaigns), lt) {
      assert NodeId(n).value in campaigns;
    }
    if n :| n in s.adsets && Moved(n, ById(s.storedAdsets), lt) {
      assert NodeId(n).value in adsets;
    }
  }

  /** The read returns this child: it is below the read's parent, on the read's edge. */
  predicate Covers(read: ChildRead, edge: Edge, campaign: Option<string>, adset: Option<string>) {
    && read.edge == edge
    && Some(read.parentId) == match read.parent case Campaign => campaign case Adset => adset
  }

  function Coverage(childReads: seq<ChildRead>, edge: Edge, campaign: Option<string>, adset: Option<string>): nat {
    if childReads == [] then 0
    else Coverage(childReads[..|childReads| - 1], edge, campaign, adset)
         + if Covers(childReads[|childReads| - 1], edge, campaign, adset) then 1 else 0
  }

  lemma {:induction false} CoverageConcat(
    a: seq<ChildRead>, b: seq<ChildRead>, edge: Edge, campaign: Option<string>, adset: Option<string>)
    ensures Coverage(a + b, edge, campaign, adset)
         == Coverage(a, edge, campaign, adset) + Coverage(b, edge, campaign, adset)
  {
    if b == [] {
      assert a + b == a;
    } else {
      assert (a + b)[..|a + b| - 1] == a + b[..|b| - 1];
      CoverageConcat(a, b[..|b| - 1], edge, campaign, adset);
    }
  }

  function One(b: bool): nat {
    if b then 1 else 0
  }

  lemma LastIdIsNew(ids: seq<string>)
    requires ids != [] && DistinctIds(ids)
    ensures var init, id := ids[..|ids| - 1], ids[|ids| - 1];
      id !in init && DistinctIds(init) && forall x :: x in ids <==> x == id || x in init
  {
    assert ids == ids[..|ids| - 1] + [ids[|ids| - 1]];
  }

  lemma CoverageOne(read: ChildRead, edge: Edge, campaign: Option<string>, adset: Option<string>)
    ensures Coverage([read], edge, campaign, adset) == One(Covers(read, edge, campaign, adset))
  {
    assert [read][..0] == [];
  }

  lemma {:induction false} CampaignCoverage(s: Scan, ids: seq<string>, edge: Edge, campaign: Option<string>, adset: Option<string>)
    requires DistinctIds(ids)
    ensures Coverage(AllCampaignReads(s, ids), edge, campaign, adset) == One(campaign.Some? && campaign.value in ids)
  {
    if ids != [] {
      var init, id := ids[..|ids| - 1], ids[|ids| - 1];
      CampaignCoverage(s, init, edge, campaign, adset);
      CoverageConcat(AllCampaignReads(s, init), CampaignReads(s, id), edge, campaign, adset);
      var two := CampaignReads(s, id);
      assert two == [two[0]] + [two[1]];
      CoverageConcat([two[0]], [two[1]], edge, campaign, adset);
      CoverageOne(two[0], edge, campaign, adset);
      CoverageOne(two[1], edge, campaign, adset);
      LastIdIsNew(ids);
    }
  }

  lemma OneAdsetCoverage(s: Scan, id: string, campaigns: seq<string>, edge: Edge, campaign: Option<string>, adset: Option<string>)
    ensures Coverage(AdsetReads(s, id, campaigns), edge, campaign, adset)
         == One(edge.AdsEdge? && adset == Some(id) && AdsetReads(s, id, campaigns) != [])
  {
    var one := AdsetReads(s, id, campaigns);
    if one != [] { CoverageOne(one[0], edge, campaign, adset); }
  }

  lemma {:induction false} AdsetCoverage(
    s: Scan, ids: seq<string>, campaigns: seq<string>, edge: Edge, campaign: Option<string>, adset: Option<string>)
    requires DistinctIds(ids)
    ensures Coverage(AllAdsetReads(s, ids, campaigns), edge, campaign, adset)
         == One(edge.AdsEdge? && adset.Some? && adset.value in ids && AdsetReads(s, adset.value, campaigns) != [])
  {
    if ids != [] {
      var init, id := ids[..|ids| - 1], ids[|ids| - 1];
      LastIdIsNew(ids);
      AdsetCoverage(s, init, campaigns, edge, campaign, adset);
      CoverageConcat(AllAdsetReads(s, init, campaigns), AdsetReads(s, id, campaigns), edge, campaign, adset);
      OneAdsetCoverage(s, id, campaigns, edge, campaign, adset);
    }
  }

  predicate Under(campaign: Option<string>, ids: seq<string>) {
    campaign.Some? && campaign.value in ids
  }

  /** How many planned reads return a child, for any links at all: its changed campaign counts once, its
      changed ad set once more unless that ad set is known to sit under a changed campaign. */
  lemma CoverageOfPlan(s: Scan, lt: Order, before: Order, campaign: Option<string>, adset: Option<string>)
    requires StrictTotal(before) && PlanOf(s, lt, before).Some?
    ensures var plan := PlanOf(s, lt, before).value;
      && Coverage(plan.childReads, AdsEdge, campaign, adset) ==
         One(Under(campaign, plan.campaigns))
         + One(Under(adset, plan.adsets) && !Under(AdsetCampaign(s, adset.value), plan.campaigns))
      && Coverage(plan.childReads, AdsetsEdge, campaign, adset) == One(Under(campaign, plan.campaigns))
  {
    var plan := PlanOf(s, lt, before).value;
    ChangedIdsAre(s.campaigns, ById(s.storedCampaigns), lt, before);
    ChangedIdsAre(s.adsets, ById(s.storedAdsets), lt, before);
    var a, b := AllCampaignReads(s, plan.campaigns), AllAdsetReads(s, plan.adsets, plan.campaigns);
    CoverageConcat(a, b, AdsEdge, campaign, adset);
    CoverageConcat(a, b, AdsetsEdge, campaign, adset);
    CampaignCoverage(s, plan.campaigns, AdsEdge, campaign, adset);
    CampaignCoverage(s, plan.campaigns, AdsetsEdge, campaign, adset);
    AdsetCoverage(s, plan.adsets, plan.campaigns, AdsEdge, campaign, adset);
    AdsetCoverage(s, plan.adsets, plan.campaigns, AdsetsEdge, campaign, adset);
  }

  /** When the ad's links agree with what is known of its ad set, an ad below a changed parent is on
      exactly one planned ads read, any other ad on none; an ad set below a changed campaign is on
      exactly one ad sets read. */
  lemma ChangedChildrenReadOnce(s: Scan, lt: Order, before: Order, campaign: Option<string>, adset: Option<string>)
    requires StrictTotal(before) && PlanOf(s, lt, before).Some?
    requires adset.Some? && adset.value in PlanOf(s, lt, before).value.adsets ==> AdsetCampaign(s, adset.value) == campaign
    ensures var plan := PlanOf(s, lt, before).value;
      && Coverage(plan.childReads, AdsEdge, campaign, adset) == One(Under(campaign, plan.campaigns) || Under(adset, plan.adsets))
      && Coverage(plan.childReads, AdsetsEdge, campaign, adset) == One(Under(campaign, plan.campaigns))
  {
    CoverageOfPlan(s, lt, before, campaign, adset);
  }

  // ----- Status-only merge of ad sets -----

  datatype Why = Budget | BudgetExhausted | UnknownAdset | AdsetFieldsChanged | Ad(reason: Reason)

  datatype AdsetMerge = AdsetsMerged(nodes: seq<Node>) | AdsetsNeedFull(why: Why, id: string)

  function MergeAdset(l: Node, id: string, src: Sources, lt: Order): AdsetMerge {
    var base := Base(src, id);
    if base.None? then AdsetsNeedFull(UnknownAdset, id)
    else if !SameJson(Get(l, "name"), Get(base.value, "name"), lt)
         || !SameJson(Get(l, "campaign_id"), Get(base.value, "campaign_id"), lt)
      then AdsetsNeedFull(AdsetFieldsChanged, id)
    else AdsetsMerged([Patch(base.value, map[], l)])
  }

  function MergeAdsets(lean: seq<Node>, src: Sources, lt: Order): AdsetMerge {
    if lean == [] then AdsetsMerged([])
    else
      var done, last := MergeAdsets(lean[..|lean| - 1], src, lt), lean[|lean| - 1];
      if done.AdsetsNeedFull? || NodeId(last).None? then done
      else
        var one := MergeAdset(last, NodeId(last).value, src, lt);
        if one.AdsetsNeedFull? then one else AdsetsMerged(done.nodes + one.nodes)
  }

  // ----- The refresh -----

  /** A keyed list: a node replaces the last one of its id in place, or is appended. */
  function ReplaceLast(list: seq<Node>, node: Node): seq<Node> {
    if list == [] then []
    else
      var init, last := list[..|list| - 1], list[|list| - 1];
      if NodeId(last) == NodeId(node) then init + [node] else ReplaceLast(init, node) + [last]
  }

  function Upsert(list: seq<Node>, node: Node): seq<Node> {
    if NodeId(node).None? then list
    else if NodeId(node).value in ById(list) then ReplaceLast(list, node)
    else list + [node]
  }

  function UpsertAll(list: seq<Node>, nodes: seq<Node>): seq<Node> {
    if nodes == [] then list else Upsert(UpsertAll(list, nodes[..|nodes| - 1]), nodes[|nodes| - 1])
  }

  datatype Answer = Nodes(nodes: seq<Node>) | BudgetError | OtherError

  datatype Lean = Lean(adsets: seq<Node>, ads: seq<Node>)

  datatype Collected = Got(lean: Lean) | OverBudget | Threw

  function Collect(plan: Plan, answers: nat -> Answer, n: nat): Collected
    requires n <= |plan.childReads|
  {
    if n == 0 then Got(Lean([], []))
    else
      var sofar := Collect(plan, answers, n - 1);
      if !sofar.Got? then sofar
      else match answers(n - 1)
        case BudgetError => OverBudget
        case OtherError => Threw
        case Nodes(nodes) =>
          if plan.childReads[n - 1].edge.AdsetsEdge? then Got(sofar.lean.(adsets := UpsertAll(sofar.lean.adsets, nodes)))
          else Got(sofar.lean.(ads := UpsertAll(sofar.lean.ads, nodes)))
  }

  function StatusMoved(nodes: seq<Node>, src: Sources, lt: Order): seq<Node> {
    if nodes == [] then []
    else
      var rest, last := StatusMoved(nodes[..|nodes| - 1], src, lt), nodes[|nodes| - 1];
      var base := if NodeId(last).Some? then Base(src, NodeId(last).value) else None;
      if base.None? || StatusChanged(base.value, last, lt) then rest + [last] else rest
  }

  datatype Outcome = Applied(adsets: seq<Node>, ads: seq<Node>) | FullReadRequired(why: Why, id: string) | Failed

  /** All or nothing, given the children the plan's reads returned. */
  function Apply(lean: Lean, adsetSrc: Sources, adSrc: Sources, lt: Order): Outcome {
    match MergeAdsets(lean.adsets, adsetSrc, lt)
    case AdsetsNeedFull(why, id) => FullReadRequired(why, id)
    case AdsetsMerged(adsets) =>
      if lean.ads == [] then Applied(StatusMoved(adsets, adsetSrc, lt), [])
      else match Merge(lean.ads, adSrc, lt)
        case NeedsFull(reason, id) => FullReadRequired(Ad(reason), id)
        case Merged(ads) => Applied(StatusMoved(adsets, adsetSrc, lt), StatusMoved(ads, adSrc, lt))
  }

  function Refresh(plan: Plan, remaining: nat, answers: nat -> Answer, adsetSrc: Sources, adSrc: Sources, lt: Order): Outcome {
    if plan.estimate > remaining then FullReadRequired(Budget, "")
    else match Collect(plan, answers, |plan.childReads|)
      case OverBudget => FullReadRequired(BudgetExhausted, "")
      case Threw => Failed
      case Got(lean) => Apply(lean, adsetSrc, adSrc, lt)
  }

  lemma {:induction false} CollectStops(plan: Plan, answers: nat -> Answer, n: nat, m: nat)
    requires n <= m <= |plan.childReads| && !Collect(plan, answers, n).Got?
    ensures Collect(plan, answers, m) == Collect(plan, answers, n)
  {
    if n < m { CollectStops(plan, answers, n, m - 1); }
  }

  method RunRefresh(
    plan: Plan, remaining: nat, answers: nat -> Answer, adsetSrc: Sources, adSrc: Sources, lt: Order)
    returns (outcome: Outcome)
    ensures outcome == Refresh(plan, remaining, answers, adsetSrc, adSrc, lt)
  {
    if plan.estimate > remaining { return FullReadRequired(Budget, ""); }
    var leanAdsets: seq<Node>, leanAds: seq<Node> := [], [];
    for i := 0 to |plan.childReads|
      invariant Collect(plan, answers, i) == Got(Lean(leanAdsets, leanAds))
    {
      var answer := answers(i);
      if !answer.Nodes? {
        CollectStops(plan, answers, i + 1, |plan.childReads|);
        return if answer.BudgetError? then FullReadRequired(BudgetExhausted, "") else Failed;
      }
      var nodes := answer.nodes;
      ghost var adsets0, ads0 := leanAdsets, leanAds;
      for k := 0 to |nodes|
        invariant Lean(leanAdsets, leanAds) == if plan.childReads[i].edge.AdsetsEdge?
          then Lean(UpsertAll(adsets0, nodes[..k]), ads0) else Lean(adsets0, UpsertAll(ads0, nodes[..k]))
      {
        assert nodes[..k + 1][..k] == nodes[..k];
        if plan.childReads[i].edge.AdsetsEdge? {
          leanAdsets := Upsert(leanAdsets, nodes[k]);
        } else {
          leanAds := Upsert(leanAds, nodes[k]);
        }
      }
      assert nodes[..|nodes|] == nodes;
    }
    outcome := Apply(Lean(leanAdsets, leanAds), adsetSrc, adSrc, lt);
  }

  // ----- Keyed lists -----

  lemma {:induction false} ReplaceLastById(list: seq<Node>, node: Node)
    requires NodeId(node).Some? && NodeId(node).value in ById(list)
    ensures ById(ReplaceLast(list, node)) == ById(list)[NodeId(node).value := node]
  {
    var init, last := list[..|list| - 1], list[|list| - 1];
    var new_ := ReplaceLast(list, node);
    if NodeId(last) == NodeId(node) {
      assert new_[..|new_| - 1] == init;
    } else {
      ReplaceLastById(init, node);
      assert new_[..|new_| - 1] == ReplaceLast(init, node);
    }
  }

  lemma UpsertById(list: seq<Node>, node: Node)
    ensures ById(Upsert(list, node)) ==
      if NodeId(node).Some? then ById(list)[NodeId(node).value := node] else ById(list)
  {
    if NodeId(node).Some? {
      if NodeId(node).value in ById(list) {
        ReplaceLastById(list, node);
      } else {
        assert (list + [node])[..|list|] == list;
      }
    }
  }

  lemma {:induction false} UpsertAllById(list: seq<Node>, nodes: seq<Node>)
    ensures ById(UpsertAll(list, nodes)) == ById(list) + ById(nodes)
  {
    if nodes != [] {
      UpsertAllById(list, nodes[..|nodes| - 1]);
      UpsertById(UpsertAll(list, nodes[..|nodes| - 1]), nodes[|nodes| - 1]);
    }
  }

  /** Every node has an id and no two share one. */
  predicate Keyed(list: seq<Node>) {
    && (forall i :: 0 <= i < |list| ==> NodeId(list[i]).Some?)
    && forall i, j :: 0 <= i < j < |list| ==> NodeId(list[i]) != NodeId(list[j])
  }

  lemma {:induction false} ReplaceLastIds(list: seq<Node>, node: Node)
    ensures |ReplaceLast(list, node)| == |list|
    ensures forall i :: 0 <= i < |list| ==> NodeId(ReplaceLast(list, node)[i]) == NodeId(list[i])
  {
    if list != [] && NodeId(list[|list| - 1]) != NodeId(node) { ReplaceLastIds(list[..|list| - 1], node); }
  }

  lemma UpsertKeyed(list: seq<Node>, node: Node)
    requires Keyed(list)
    ensures Keyed(Upsert(list, node))
  {
    ReplaceLastIds(list, node);
    if NodeId(node).Some? && NodeId(node).value !in ById(list) {
      forall i | 0 <= i < |list| ensures NodeId(list[i]) != NodeId(node) { ByIdFinds(list, list[i]); }
    }
  }

  lemma {:induction false} UpsertAllKeyed(list: seq<Node>, nodes: seq<Node>)
    requires Keyed(list)
    ensures Keyed(UpsertAll(list, nodes))
  {
    if nodes != [] {
      UpsertAllKeyed(list, nodes[..|nodes| - 1]);
      UpsertKeyed(UpsertAll(list, nodes[..|nodes| - 1]), nodes[|nodes| - 1]);
    }
  }

  lemma {:induction false} CollectedKeyed(plan: Plan, answers: nat -> Answer, n: nat)
    requires n <= |plan.childReads| && Collect(plan, answers, n).Got?
    ensures Keyed(Collect(plan, answers, n).lean.adsets) && Keyed(Collect(plan, answers, n).lean.ads)
  {
    if n > 0 {
      CollectedKeyed(plan, answers, n - 1);
      var sofar := Collect(plan, answers, n - 1).lean;
      UpsertAllKeyed(sofar.adsets, answers(n - 1).nodes);
      UpsertAllKeyed(sofar.ads, answers(n - 1).nodes);
    }
  }

  lemma {:induction false} KeyedAllIdentified(list: seq<Node>)
    requires forall i :: 0 <= i < |list| ==> NodeId(list[i]).Some?
    ensures Identified(list) == list
  {
    if list != [] { KeyedAllIdentified(list[..|list| - 1]); }
  }

  lemma {:induction false} KeyedById(list: seq<Node>, i: nat)
    requires Keyed(list) && i < |list|
    ensures NodeId(list[i]).value in ById(list) && ById(list)[NodeId(list[i]).value] == list[i]
  {
    if i < |list| - 1 { KeyedById(list[..|list| - 1], i); }
  }

  // ----- What an applied refresh returns -----

  /** A read child merged onto its base: identity and status from the read, the rest the base's (a
      creative aside, which only ads resolve). */
  ghost predicate PatchedNode(l: Node, node: Node, src: Sources) {
    && NodeId(l).Some? && NodeId(node) == NodeId(l)
    && Base(src, NodeId(l).value).Some?
    && (forall k :: IsStatusKey(k) ==> Get(node, k) == Get(l, k))
    && forall k :: !IsStatusKey(k) && k != "creative" ==> Get(node, k) == Get(Base(src, NodeId(l).value).value, k)
  }

  ghost predicate Patched(ls: seq<Node>, nodes: seq<Node>, src: Sources) {
    |nodes| == |ls| && forall i :: 0 <= i < |ls| ==> PatchedNode(ls[i], nodes[i], src)
  }

  lemma AdsPatched(ls: seq<Node>, src: Sources, lt: Order)
    requires Keyed(ls) && Merge(ls, src, lt).Merged?
    ensures Patched(ls, Merge(ls, src, lt).nodes, src)
    ensures var nodes := Merge(ls, src, lt).nodes;
      forall i :: 0 <= i < |ls| && i < |nodes| ==> MergesTo(ls[i], nodes[i], src, lt)
  {
    KeyedAllIdentified(ls);
    MergedPointwise(ls, src, lt);
    forall i | 0 <= i < |ls| ensures PatchedNode(ls[i], Merge(ls, src, lt).nodes[i], src) {
      MergedFields(ls[i], Merge(ls, src, lt).nodes[i], src, lt);
    }
  }

  predicate AdsetMergesTo(l: Node, node: Node, src: Sources, lt: Order)
    requires NodeId(l).Some?
  {
    MergeAdset(l, NodeId(l).value, src, lt) == AdsetsMerged([node])
  }

  lemma AdsetPatched(l: Node, node: Node, src: Sources, lt: Order)
    requires NodeId(l).Some? && AdsetMergesTo(l, node, src, lt)
    ensures PatchedNode(l, node, src)
    ensures SameJson(Get(l, "name"), Get(node, "name"), lt) && SameJson(Get(l, "campaign_id"), Get(node, "campaign_id"), lt)
  {
    BaseHasId(src, NodeId(l).value);
    PatchFields(Base(src, NodeId(l).value).value, map[], l);
  }

  ghost predicate AdsetsMergeTo(ls: seq<Node>, nodes: seq<Node>, src: Sources, lt: Order)
    requires Keyed(ls)
  {
    |nodes| == |ls| && forall i :: 0 <= i < |ls| ==> AdsetMergesTo(ls[i], nodes[i], src, lt)
  }

  lemma {:induction false} AdsetsPointwise(ls: seq<Node>, src: Sources, lt: Order)
    requires Keyed(ls) && MergeAdsets(ls, src, lt).AdsetsMerged?
    ensures AdsetsMergeTo(ls, MergeAdsets(ls, src, lt).nodes, src, lt)
  {
    if ls != [] {
      var n := |ls| - 1;
      AdsetsPointwise(ls[..n], src, lt);
      AdsetsSnoc(ls, MergeAdsets(ls[..n], src, lt).nodes, MergeAdset(ls[n], NodeId(ls[n]).value, src, lt).nodes[0], src, lt);
      assert MergeAdset(ls[n], NodeId(ls[n]).value, src, lt).nodes == [MergeAdset(ls[n], NodeId(ls[n]).value, src, lt).nodes[0]];
    }
  }

  lemma AdsetsSnoc(ls: seq<Node>, front: seq<Node>, node: Node, src: Sources, lt: Order)
    requires Keyed(ls) && ls != [] && AdsetsMergeTo(ls[..|ls| - 1], front, src, lt) && AdsetMergesTo(ls[|ls| - 1], node, src, lt)
    ensures AdsetsMergeTo(ls, front + [node], src, lt)
  {
    var all := front + [node];
    forall i | 0 <= i < |ls| ensures AdsetMergesTo(ls[i], all[i], src, lt) {
      if i < |ls| - 1 { assert all[i] == front[i] && ls[..|ls| - 1][i] == ls[i]; }
    }
  }

  lemma AdsetsPatched(ls: seq<Node>, src: Sources, lt: Order)
    requires Keyed(ls) && MergeAdsets(ls, src, lt).AdsetsMerged?
    ensures Patched(ls, MergeAdsets(ls, src, lt).nodes, src)
    ensures var nodes := MergeAdsets(ls, src, lt).nodes;
      forall i :: 0 <= i < |ls| && i < |nodes| ==> AdsetMergesTo(ls[i], nodes[i], src, lt)
  {
    AdsetsPointwise(ls, src, lt);
    forall i | 0 <= i < |ls| ensures PatchedNode(ls[i], MergeAdsets(ls, src, lt).nodes[i], src) {
      AdsetPatched(ls[i], MergeAdsets(ls, src, lt).nodes[i], src, lt);
    }
  }

  /** The merged child's status differs from its base's. */
  predicate StatusMovedNode(x: Node, src: Sources, lt: Order) {
    && NodeId(x).Some? && Base(src, NodeId(x).value).Some?
    && StatusChanged(Base(src, NodeId(x).value).value, x, lt)
  }

  /** Exactly the merged children whose status differs from their base's. */
  lemma {:induction false} StatusMovedAre(nodes: seq<Node>, src: Sources, lt: Order)
    requires Keyed(nodes) && forall i :: 0 <= i < |nodes| ==> Base(src, NodeId(nodes[i]).value).Some?
    ensures var moved := StatusMoved(nodes, src, lt);
      && Keyed(moved)
      && forall x :: x in moved <==> x in nodes && StatusMovedNode(x, src, lt)
  {
    if nodes != [] {
      var n := |nodes| - 1;
      StatusMovedAre(nodes[..n], src, lt);
      var rest := StatusMoved(nodes[..n], src, lt);
      assert nodes == nodes[..n] + [nodes[n]];
      forall i | 0 <= i < |rest| ensures NodeId(rest[i]) != NodeId(nodes[n]) {
        assert rest[i] in rest;
        var j :| 0 <= j < n && nodes[j] == rest[i];
      }
    }
  }

  /** The sources after the scan has taken the returned children into its delta. */
  function Overlay(src: Sources, moved: seq<Node>): Sources {
    src.(delta := UpsertAll(src.delta, moved))
  }

  lemma OverlayBase(src: Sources, ls: seq<Node>, nodes: seq<Node>, lt: Order, i: nat)
    requires Keyed(ls) && Patched(ls, nodes, src) && i < |ls|
    ensures var moved := StatusMoved(nodes, src, lt); var id := NodeId(ls[i]).value;
      Base(Overlay(src, moved), id) ==
        if StatusChanged(Base(src, id).value, nodes[i], lt) then Some(nodes[i]) else Base(src, id)
  {
    var moved, id := StatusMoved(nodes, src, lt), NodeId(ls[i]).value;
    assert Keyed(nodes);
    StatusMovedAre(nodes, src, lt);
    UpsertAllById(src.delta, moved);
    assert nodes[i] in nodes;
    if id in ById(moved) {
      ByIdHasId(moved, id);
      var x := ById(moved)[id];
      var j :| 0 <= j < |nodes| && nodes[j] == x;
      assert j == i;
    } else if nodes[i] in moved {
      ByIdFinds(moved, nodes[i]);
    }
  }

  /** Overlaying what a refresh returns gives every child it read its lean status. */
  lemma OverlayHasLeanStatus(src: Sources, ls: seq<Node>, nodes: seq<Node>, lt: Order, i: nat, key: string)
    requires Keyed(ls) && Patched(ls, nodes, src) && i < |ls| && IsStatusKey(key)
    ensures var base := Base(Overlay(src, StatusMoved(nodes, src, lt)), NodeId(ls[i]).value);
      base.Some? && SameJson(Get(base.value, key), Get(ls[i], key), lt)
  {
    OverlayBase(src, ls, nodes, lt, i);
  }

  lemma EmptyOrHasOne(list: seq<Node>)
    ensures list == [] || exists x :: x in list
  {
    if list != [] { assert list[0] in list; }
  }

  lemma NothingMoved(src: Sources, ls: seq<Node>, nodes: seq<Node>, lt: Order)
    requires Keyed(ls) && Patched(ls, nodes, src)
    requires forall i :: 0 <= i < |ls| ==> !StatusChanged(Base(src, NodeId(ls[i]).value).value, nodes[i], lt)
    ensures StatusMoved(nodes, src, lt) == []
  {
    assert Keyed(nodes);
    StatusMovedAre(nodes, src, lt);
    EmptyOrHasOne(StatusMoved(nodes, src, lt));
  }

  lemma OverlayUnmoved(src: Sources, ls: seq<Node>, nodes: seq<Node>, lt: Order, i: nat, node: Node)
    requires Keyed(ls) && Patched(ls, nodes, src) && i < |ls|
    requires PatchedNode(ls[i], node, Overlay(src, StatusMoved(nodes, src, lt)))
    ensures !StatusChanged(Base(Overlay(src, StatusMoved(nodes, src, lt)), NodeId(ls[i]).value).value, node, lt)
  {
    OverlayHasLeanStatus(src, ls, nodes, lt, i, "status");
    OverlayHasLeanStatus(src, ls, nodes, lt, i, "effective_status");
  }

  lemma SecondAdMerge(ls: seq<Node>, src: Sources, lt: Order, i: nat) returns (node: Node)
    requires Keyed(ls) && Merge(ls, src, lt).Merged? && i < |ls|
    ensures MergesTo(ls[i], node, Overlay(src, StatusMoved(Merge(ls, src, lt).nodes, src, lt)), lt)
  {
    var nodes := Merge(ls, src, lt).nodes;
    var again := Overlay(src, StatusMoved(nodes, src, lt));
    AdsPatched(ls, src, lt);
    OverlayBase(src, ls, nodes, lt, i);
    MergedFields(ls[i], nodes[i], src, lt);
    node := Patch(Base(again, NodeId(ls[i]).value).value, Table(again.delta, again.creatives), ls[i]);
  }

  lemma SecondAdsRun(ls: seq<Node>, src: Sources, lt: Order)
    requires Keyed(ls) && Merge(ls, src, lt).Merged?
    ensures var again := Overlay(src, StatusMoved(Merge(ls, src, lt).nodes, src, lt));
      Merge(ls, again, lt).Merged? && StatusMoved(Merge(ls, again, lt).nodes, again, lt) == []
  {
    var nodes := Merge(ls, src, lt).nodes;
    var again := Overlay(src, StatusMoved(nodes, src, lt));
    AdsPatched(ls, src, lt);
    KeyedAllIdentified(ls);
    if Merge(ls, again, lt).NeedsFull? {
      var i := NeedsFullAt(ls, again, lt);
      var node := SecondAdMerge(ls, src, lt, i);
      assert false;
    }
    var nodes' := Merge(ls, again, lt).nodes;
    AdsPatched(ls, again, lt);
    forall i | 0 <= i < |ls| ensures !StatusChanged(Base(again, NodeId(ls[i]).value).value, nodes'[i], lt) {
      OverlayUnmoved(src, ls, nodes, lt, i, nodes'[i]);
    }
    NothingMoved(again, ls, nodes', lt);
  }

  lemma SecondAdsetMerge(ls: seq<Node>, src: Sources, lt: Order, i: nat) returns (node: Node)
    requires Keyed(ls) && MergeAdsets(ls, src, lt).AdsetsMerged? && i < |ls|
    ensures AdsetMergesTo(ls[i], node, Overlay(src, StatusMoved(MergeAdsets(ls, src, lt).nodes, src, lt)), lt)
  {
    var nodes := MergeAdsets(ls, src, lt).nodes;
    var again := Overlay(src, StatusMoved(nodes, src, lt));
    AdsetsPatched(ls, src, lt);
    OverlayBase(src, ls, nodes, lt, i);
    assert AdsetMergesTo(ls[i], nodes[i], src, lt);
    AdsetPatched(ls[i], nodes[i], src, lt);
    node := Patch(Base(again, NodeId(ls[i]).value).value, map[], ls[i]);
  }

  lemma {:induction false} AdsetsNeedFullAt(ls: seq<Node>, src: Sources, lt: Order) returns (i: nat)
    requires Keyed(ls) && MergeAdsets(ls, src, lt).AdsetsNeedFull?
    ensures i < |ls| && MergeAdset(ls[i], NodeId(ls[i]).value, src, lt).AdsetsNeedFull?
  {
    var n := |ls| - 1;
    if MergeAdsets(ls[..n], src, lt).AdsetsNeedFull? {
      i := AdsetsNeedFullAt(ls[..n], src, lt);
    } else {
      i := n;
    }
  }

  lemma SecondAdsetsRun(ls: seq<Node>, src: Sources, lt: Order)
    requires Keyed(ls) && MergeAdsets(ls, src, lt).AdsetsMerged?
    ensures var again := Overlay(src, StatusMoved(MergeAdsets(ls, src, lt).nodes, src, lt));
      && MergeAdsets(ls, again, lt).AdsetsMerged?
      && StatusMoved(MergeAdsets(ls, again, lt).nodes, again, lt) == []
  {
    var nodes := MergeAdsets(ls, src, lt).nodes;
    var again := Overlay(src, StatusMoved(nodes, src, lt));
    AdsetsPatched(ls, src, lt);
    if MergeAdsets(ls, again, lt).AdsetsNeedFull? {
      var i := AdsetsNeedFullAt(ls, again, lt);
      var node := SecondAdsetMerge(ls, src, lt, i);
      assert false;
    }
    var nodes' := MergeAdsets(ls, again, lt).nodes;
    AdsetsPatched(ls, again, lt);
    forall i | 0 <= i < |ls| ensures !StatusChanged(Base(again, NodeId(ls[i]).value).value, nodes'[i], lt) {
      OverlayUnmoved(src, ls, nodes, lt, i, nodes'[i]);
    }
    NothingMoved(again, ls, nodes', lt);
  }

  /** An applied refresh returns exactly the read children whose status moved, each its base but for
      the lean status (and, for an ad, the resolved creative). */
  lemma AppliedReturnsTheMoved(
    plan: Plan, remaining: nat, answers: nat -> Answer, adsetSrc: Sources, adSrc: Sources, lt: Order)
    requires Refresh(plan, remaining, answers, adsetSrc, adSrc, lt).Applied?
    ensures Collect(plan, answers, |plan.childReads|).Got?
    ensures var out := Refresh(plan, remaining, answers, adsetSrc, adSrc, lt);
      var lean := Collect(plan, answers, |plan.childReads|).lean;
      && Keyed(lean.adsets) && Keyed(lean.ads)
      && MergeAdsets(lean.adsets, adsetSrc, lt).AdsetsMerged? && Merge(lean.ads, adSrc, lt).Merged?
      && var adsets, ads := MergeAdsets(lean.adsets, adsetSrc, lt).nodes, Merge(lean.ads, adSrc, lt).nodes;
      && Patched(lean.adsets, adsets, adsetSrc) && Patched(lean.ads, ads, adSrc)
      && (forall i :: 0 <= i < |ads| ==> MergesTo(lean.ads[i], ads[i], adSrc, lt))
      && (forall x :: x in out.adsets <==> x in adsets && StatusMovedNode(x, adsetSrc, lt))
      && (forall x :: x in out.ads <==> x in ads && StatusMovedNode(x, adSrc, lt))
  {
    CollectedKeyed(plan, answers, |plan.childReads|);
    var lean := Collect(plan, answers, |plan.childReads|).lean;
    AdsetsPatched(lean.adsets, adsetSrc, lt);
    AdsPatched(lean.ads, adSrc, lt);
    assert Keyed(MergeAdsets(lean.adsets, adsetSrc, lt).nodes) && Keyed(Merge(lean.ads, adSrc, lt).nodes);
    StatusMovedAre(MergeAdsets(lean.adsets, adsetSrc, lt).nodes, adsetSrc, lt);
    StatusMovedAre(Merge(lean.ads, adSrc, lt).nodes, adSrc, lt);
  }

  /** The sources know the child with the status the read gave it. */
  predicate Known(src: Sources, l: Node, key: string, lt: Order) {
    && NodeId(l).Some? && Base(src, NodeId(l).value).Some?
    && SameJson(Get(Base(src, NodeId(l).value).value, key), Get(l, key), lt)
  }

  /** Overlaying the returned children gives every child the refresh read its lean status. */
  lemma OverlayIsCurrent(
    plan: Plan, remaining: nat, answers: nat -> Answer, adsetSrc: Sources, adSrc: Sources, lt: Order, l: Node, key: string)
    requires Refresh(plan, remaining, answers, adsetSrc, adSrc, lt).Applied? && IsStatusKey(key)
    ensures var out := Refresh(plan, remaining, answers, adsetSrc, adSrc, lt);
      var got := Collect(plan, answers, |plan.childReads|);
      && got.Got?
      && (l in got.lean.adsets ==> Known(Overlay(adsetSrc, out.adsets), l, key, lt))
      && (l in got.lean.ads ==> Known(Overlay(adSrc, out.ads), l, key, lt))
  {
    AppliedReturnsTheMoved(plan, remaining, answers, adsetSrc, adSrc, lt);
    var lean := Collect(plan, answers, |plan.childReads|).lean;
    if l in lean.adsets {
      var i :| 0 <= i < |lean.adsets| && lean.adsets[i] == l;
      OverlayHasLeanStatus(adsetSrc, lean.adsets, MergeAdsets(lean.adsets, adsetSrc, lt).nodes, lt, i, key);
    }
    if l in lean.ads {
      var i :| 0 <= i < |lean.ads| && lean.ads[i] == l;
      OverlayHasLeanStatus(adSrc, lean.ads, Merge(lean.ads, adSrc, lt).nodes, lt, i, key);
    }
  }

  /** Running the same reads again over the overlay returns nothing. */
  lemma RefreshIsIdempotent(
    plan: Plan, remaining: nat, answers: nat -> Answer, adsetSrc: Sources, adSrc: Sources, lt: Order)
    requires Refresh(plan, remaining, answers, adsetSrc, adSrc, lt).Applied?
    ensures var out := Refresh(plan, remaining, answers, adsetSrc, adSrc, lt);
      Refresh(plan, remaining, answers, Overlay(adsetSrc, out.adsets), Overlay(adSrc, out.ads), lt) == Applied([], [])
  {
    CollectedKeyed(plan, answers, |plan.childReads|);
    var lean := Collect(plan, answers, |plan.childReads|).lean;
    SecondAdsetsRun(lean.adsets, adsetSrc, lt);
    if lean.ads != [] { SecondAdsRun(lean.ads, adSrc, lt); }
  }
}
