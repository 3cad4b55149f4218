/** What a refresh plan asks for, told by the nodes of the scan and of storage. */
module RefreshPlans {
  import opened Options
  import opened CanonicalJson
  import opened LeanInventory
  import opened LeanMerged
  import opened ChildRefresh
  import opened RefreshRuns

  /** A field that holds this text. */
  predicate Links(node: Node, key: string, id: string) {
    id != "" && key in node && node[key] == Str(id)
  }

  lemma LinkIs(node: Node, key: string, id: string)
    ensures NonEmpty(Get(node, key)) == Some(id) <==> Links(node, key, id)
  {
  }

  // ----- Which parents moved -----

  /** This scan read the parent with a status that prints differently from its last stored version. */
  predicate SeenMoved(nodes: seq<Node>, stored: seq<Node>, i: nat, k: nat, id: string, lt: Order) {
    i < |nodes| && HasId(nodes[i], id) && LastNode(stored, k, id) && StatusDiffers(stored[k], nodes[i], lt)
  }

  lemma MovedIs(nodes: seq<Node>, stored: seq<Node>, i: nat, id: string, lt: Order)
    requires i < |nodes|
    ensures (NodeId(nodes[i]) == Some(id) && Moved(nodes[i], ById(stored), lt))
      <==> exists k: nat :: k < |stored| && SeenMoved(nodes, stored, i, k, id, lt)
  {
    NodeIdIs(nodes[i], id);
    ByIdIs(stored, id);
    if k: nat :| k < |stored| && SeenMoved(nodes, stored, i, k, id, lt) {
      var j: nat :| j < |stored| && LastNode(stored, j, id) && ById(stored)[id] == stored[j];
      LastIsOne(stored, id, j, k);
    }
    if NodeId(nodes[i]) == Some(id) && Moved(nodes[i], ById(stored), lt) {
      var k: nat :| k < |stored| && LastNode(stored, k, id) && ById(stored)[id] == stored[k];
      assert SeenMoved(nodes, stored, i, k, id, lt);
    }
  }

  ghost predicate ParentMoved(nodes: seq<Node>, stored: seq<Node>, id: string, lt: Order) {
    exists i: nat, k: nat :: i < |nodes| && k < |stored| && SeenMoved(nodes, stored, i, k, id, lt)
  }

  lemma ChangedAre(nodes: seq<Node>, stored: seq<Node>, id: string, lt: Order, before: Order)
    requires StrictTotal(before)
    ensures id in ChangedIds(nodes, ById(stored), lt, before) <==> ParentMoved(nodes, stored, id, lt)
  {
    ChangedIdsAre(nodes, ById(stored), lt, before);
    if id in ChangedIds(nodes, ById(stored), lt, before) {
      var n :| n in nodes && NodeId(n) == Some(id) && Moved(n, ById(stored), lt);
      var i: nat :| i < |nodes| && nodes[i] == n;
      MovedIs(nodes, stored, i, id, lt);
    }
    if i: nat, k: nat :| i < |nodes| && k < |stored| && SeenMoved(nodes, stored, i, k, id, lt) {
      MovedIs(nodes, stored, i, id, lt);
      assert nodes[i] in nodes;
    }
  }

  /** A plan names exactly the known parents this scan saw move; there is none if none moved. */
  lemma PlanNamesTheMoved(s: Scan, lt: Order, before: Order)
    requires StrictTotal(before)
    ensures PlanOf(s, lt, before).None? <==>
      forall id :: !ParentMoved(s.campaigns, s.storedCampaigns, id, lt) && !ParentMoved(s.adsets, s.storedAdsets, id, lt)
    ensures PlanOf(s, lt, before).Some? ==>
      && (forall id :: id in PlanOf(s, lt, before).value.campaigns <==> ParentMoved(s.campaigns, s.storedCampaigns, id, lt))
      && (forall id :: id in PlanOf(s, lt, before).value.adsets <==> ParentMoved(s.adsets, s.storedAdsets, id, lt))
  {
    var campaigns := ChangedIds(s.campaigns, ById(s.storedCampaigns), lt, before);
    var adsets := ChangedIds(s.adsets, ById(s.storedAdsets), lt, before);
    forall id ensures id in campaigns <==> ParentMoved(s.campaigns, s.storedCampaigns, id, lt) {
      ChangedAre(s.campaigns, s.storedCampaigns, id, lt, before);
    }
    forall id ensures id in adsets <==> ParentMoved(s.adsets, s.storedAdsets, id, lt) {
      ChangedAre(s.adsets, s.storedAdsets, id, lt, before);
    }
    if campaigns != [] { assert campaigns[0] in campaigns; }
    if adsets != [] { assert adsets[0] in adsets; }
  }

  // ----- The campaign of an ad set -----

  /** The last node of this id links to this campaign. */
  predicate LastUnder(nodes: seq<Node>, id: string, campaign: string) {
    exists i: nat :: i < |nodes| && LastNode(nodes, i, id) && Links(nodes[i], "campaign_id", campaign)
  }

  /** The campaign the scan read the ad set under, else the stored one. */
  ghost predicate Placed(s: Scan, id: string, campaign: string) {
    || LastUnder(s.adsets, id, campaign)
    || ((forall c :: !LastUnder(s.adsets, id, c)) && LastUnder(s.storedAdsets, id, campaign))
  }

  lemma LastUnderIs(nodes: seq<Node>, id: string, campaign: string)
    ensures (id in ById(nodes) && NonEmpty(Get(ById(nodes)[id], "campaign_id")) == Some(campaign)) <==> LastUnder(nodes, id, campaign)
  {
    ByIdIs(nodes, id);
    if id in ById(nodes) {
      LinkIs(ById(nodes)[id], "campaign_id", campaign);
      var j: nat :| j < |nodes| && LastNode(nodes, j, id) && ById(nodes)[id] == nodes[j];
      forall i: nat | i < |nodes| && LastNode(nodes, i, id) ensures i == j { LastIsOne(nodes, id, i, j); }
    }
  }

  /** An ad set counts as covered by the campaign the scan saw it under, else by the stored one. */
  lemma PlacedIs(s: Scan, id: string, campaign: string)
    ensures AdsetCampaign(s, id) == Some(campaign) <==> Placed(s, id, campaign)
  {
    var read := ById(s.adsets);
    forall c ensures (id in read && NonEmpty(Get(read[id], "campaign_id")) == Some(c)) <==> LastUnder(s.adsets, id, c) {
      LastUnderIs(s.adsets, id, c);
    }
    LastUnderIs(s.storedAdsets, id, campaign);
    if id in read && NonEmpty(Get(read[id], "campaign_id")).Some? {
      assert LastUnder(s.adsets, id, NonEmpty(Get(read[id], "campaign_id")).value);
    }
  }

  // ----- The estimate -----

  /** The least number of pages of 500, and at least one. */
  predicate LeastPages(pages: nat, children: nat) {
    pages >= 1 && 500 * pages >= children && (pages > 1 ==> 500 * (pages - 1) < children)
  }

  lemma PagesAre(children: nat)
    ensures LeastPages(Pages(children), children)
  {
  }

  /** `own` are the places of all the nodes that link to the parent. */
  ghost predicate LinkedAt(nodes: seq<Node>, key: string, id: string, own: set<nat>) {
    forall i: nat :: i in own <==> i < |nodes| && Links(nodes[i], key, id)
  }

  lemma {:induction false} CountIs(nodes: seq<Node>, key: string, id: string) returns (own: set<nat>)
    ensures LinkedAt(nodes, key, id, own) && CountLinks(nodes, key, id) == |own|
  {
    own := {};
    if nodes != [] {
      var n := |nodes| - 1;
      own := CountIs(nodes[..n], key, id);
      LinkIs(nodes[n], key, id);
      assert forall i :: 0 <= i < n ==> nodes[..n][i] == nodes[i];
      if Links(nodes[n], key, id) {
        assert n !in own;
        own := own + {n};
      }
    }
  }

  /** A read's estimate is the pages its stored children fill. */
  ghost predicate Estimated(s: Scan, read: ChildRead, own: set<nat>) {
    && LinkedAt(
         match read.edge case AdsetsEdge => s.storedAdsets case AdsEdge => s.storedAds,
         match read.parent case Campaign => "campaign_id" case Adset => "adset_id",
         read.parentId, own)
    && LeastPages(read.estimate, |own|)
  }

  ghost predicate WellEstimated(s: Scan, read: ChildRead) {
    exists own :: Estimated(s, read, own)
  }

  lemma {:induction false} CampaignsEstimated(s: Scan, ids: seq<string>)
    ensures forall read :: read in AllCampaignReads(s, ids) ==> WellEstimated(s, read)
  {
    if ids != [] {
      var id := ids[|ids| - 1];
      CampaignsEstimated(s, ids[..|ids| - 1]);
      var adsets := CountIs(s.storedAdsets, "campaign_id", id);
      var ads := CountIs(s.storedAds, "campaign_id", id);
      PagesAre(|adsets|);
      PagesAre(|ads|);
      assert Estimated(s, CampaignReads(s, id)[0], adsets) && Estimated(s, CampaignReads(s, id)[1], ads);
    }
  }

  lemma {:induction false} AdsetsEstimated(s: Scan, ids: seq<string>, campaigns: seq<string>)
    ensures forall read :: read in AllAdsetReads(s, ids, campaigns) ==> WellEstimated(s, read)
  {
    if ids != [] {
      var id := ids[|ids| - 1];
      AdsetsEstimated(s, ids[..|ids| - 1], campaigns);
      var ads := CountIs(s.storedAds, "adset_id", id);
      PagesAre(|ads|);
      assert Estimated(s, ChildRead(Adset, id, AdsEdge, Pages(|ads|)), ads);
    }
  }

  function Together(childReads: seq<ChildRead>): nat {
    if childReads == [] then 0 else childReads[0].estimate + Together(childReads[1..])
  }

  lemma {:induction false} TogetherSnoc(childReads: seq<ChildRead>, read: ChildRead)
    ensures Together(childReads + [read]) == Together(childReads) + read.estimate
  {
    if childReads != [] {
      TogetherSnoc(childReads[1..], read);
      assert (childReads + [read])[1..] == childReads[1..] + [read];
    }
  }

  lemma {:induction false} TogetherIs(childReads: seq<ChildRead>)
    ensures TotalEstimate(childReads) == Together(childReads)
  {
    if childReads != [] {
      var n := |childReads| - 1;
      TogetherIs(childReads[..n]);
      TogetherSnoc(childReads[..n], childReads[n]);
      assert childReads == childReads[..n] + [childReads[n]];
    }
  }

  /** Each read is estimated by the stored children below its parent, and the plan by all of its reads. */
  lemma PlanIsEstimated(s: Scan, lt: Order, before: Order)
    requires PlanOf(s, lt, before).Some?
    ensures var plan := PlanOf(s, lt, before).value;
      && (forall read :: read in plan.childReads ==> WellEstimated(s, read))
      && plan.estimate == Together(plan.childReads)
  {
    var plan := PlanOf(s, lt, before).value;
    CampaignsEstimated(s, plan.campaigns);
    AdsetsEstimated(s, plan.adsets, plan.campaigns);
    TogetherIs(plan.childReads);
  }
}
