/** What a refresh does, told by the answers its reads got and not by what it collected on the way. */
module RefreshRuns {
  import opened Options
  import opened CanonicalJson
  import opened LeanInventory
  import opened LeanMerged
  import opened ChildRefresh

  // ----- The answers -----

  predicate Answered(answers: nat -> Answer, n: nat) {
    forall r: nat :: r < n ==> answers(r).Nodes?
  }

  /** The first read that was not answered with nodes is `r`. */
  predicate FirstFailure(plan: Plan, answers: nat -> Answer, r: nat) {
    r < |plan.childReads| && Answered(answers, r) && !answers(r).Nodes?
  }

  /** The `k`th node of read `r`, a read of this edge, has this id. */
  predicate GivesAt(plan: Plan, answers: nat -> Answer, edge: Edge, r: nat, k: nat, id: string) {
    && r < |plan.childReads| && plan.childReads[r].edge == edge
    && answers(r).Nodes? && k < |answers(r).nodes| && HasId(answers(r).nodes[k], id)
  }

  /** No node after it has the id: not in its own read, not in a later one of the first `n`. */
  predicate NoneAfter(plan: Plan, answers: nat -> Answer, n: nat, edge: Edge, r: nat, k: nat, id: string) {
    && r < n <= |plan.childReads| && answers(r).Nodes?
    && (forall k' :: k < k' < |answers(r).nodes| ==> !GivesAt(plan, answers, edge, r, k', id))
    && NotFrom(plan, answers, edge, r + 1, n, id)
  }

  predicate NotFrom(plan: Plan, answers: nat -> Answer, edge: Edge, from: nat, n: nat, id: string)
    requires n <= |plan.childReads|
  {
    forall r': nat :: from <= r' < n && answers(r').Nodes? ==>
      forall k' :: 0 <= k' < |answers(r').nodes| ==> !GivesAt(plan, answers, edge, r', k', id)
  }

  /** The child of this id the last read of the edge that returned it gave. */
  predicate Latest(plan: Plan, answers: nat -> Answer, n: nat, edge: Edge, id: string, node: Node) {
    exists r: nat :: r < n && LatestIn(plan, answers, n, edge, r, id, node)
  }

  predicate LatestIn(plan: Plan, answers: nat -> Answer, n: nat, edge: Edge, r: nat, id: string, node: Node) {
    && answers(r).Nodes?
    && exists k: nat :: k < |answers(r).nodes| && GivesAt(plan, answers, edge, r, k, id) && answers(r).nodes[k] == node
                        && NoneAfter(plan, answers, n, edge, r, k, id)
  }

  // ----- What is collected -----

  lemma {:induction false} CollectsIff(plan: Plan, answers: nat -> Answer, n: nat)
    requires n <= |plan.childReads|
    ensures Collect(plan, answers, n).Got? <==> Answered(answers, n)
    ensures forall r: nat :: FirstFailure(plan, answers, r) && r < n ==>
      Collect(plan, answers, n) == if answers(r).BudgetError? then OverBudget else Threw
  {
    if n > 0 {
      CollectsIff(plan, answers, n - 1);
      forall r: nat | FirstFailure(plan, answers, r) && r < n
        ensures Collect(plan, answers, n) == if answers(r).BudgetError? then OverBudget else Threw
      {
        if r < n - 1 { assert !Answered(answers, n - 1); }
      }
    }
  }

  function Side(edge: Edge, lean: Lean): seq<Node> {
    match edge
    case AdsetsEdge => lean.adsets
    case AdsEdge => lean.ads
  }

  lemma {:induction false} CollectedIs(plan: Plan, answers: nat -> Answer, n: nat, edge: Edge, id: string, node: Node)
    requires n <= |plan.childReads| && Collect(plan, answers, n).Got?
    ensures (id in ById(Side(edge, Collect(plan, answers, n).lean)) && ById(Side(edge, Collect(plan, answers, n).lean))[id] == node)
      <==> Latest(plan, answers, n, edge, id, node)
  {
    if n > 0 {
      CollectedIs(plan, answers, n - 1, edge, id, node);
      if plan.childReads[n - 1].edge == edge {
        UpsertAllById(Side(edge, Collect(plan, answers, n - 1).lean), answers(n - 1).nodes);
        ByIdIs(answers(n - 1).nodes, id);
        if NoNode(answers(n - 1).nodes, id) {
          LatestStays(plan, answers, n, edge, id, node);
        } else {
          LatestHere(plan, answers, n, edge, id, node);
        }
      } else {
        LatestStays(plan, answers, n, edge, id, node);
      }
    }
  }

  lemma LatestStays(plan: Plan, answers: nat -> Answer, n: nat, edge: Edge, id: string, node: Node)
    requires 0 < n <= |plan.childReads| && answers(n - 1).Nodes?
    requires plan.childReads[n - 1].edge != edge || NoNode(answers(n - 1).nodes, id)
    ensures Latest(plan, answers, n, edge, id, node) <==> Latest(plan, answers, n - 1, edge, id, node)
  {
    if r: nat :| r < n && LatestIn(plan, answers, n, edge, r, id, node) {
      var k: nat :| k < |answers(r).nodes| && GivesAt(plan, answers, edge, r, k, id) && answers(r).nodes[k] == node
                   && NoneAfter(plan, answers, n, edge, r, k, id);
      assert r < n - 1 && NotFrom(plan, answers, edge, r + 1, n - 1, id);
      assert LatestIn(plan, answers, n - 1, edge, r, id, node);
    }
    var m := n - 1;
    if Latest(plan, answers, m, edge, id, node) {
      var r: nat :| r < m && LatestIn(plan, answers, m, edge, r, id, node);
      var k: nat :| k < |answers(r).nodes| && GivesAt(plan, answers, edge, r, k, id) && answers(r).nodes[k] == node
                   && NoneAfter(plan, answers, m, edge, r, k, id);
      assert NotFrom(plan, answers, edge, r + 1, n, id);
      assert LatestIn(plan, answers, n, edge, r, id, node);
    }
  }

  lemma LatestHere(plan: Plan, answers: nat -> Answer, n: nat, edge: Edge, id: string, node: Node)
    requires 0 < n <= |plan.childReads| && answers(n - 1).Nodes? && plan.childReads[n - 1].edge == edge
    requires !NoNode(answers(n - 1).nodes, id) && id in ById(answers(n - 1).nodes)
    ensures Latest(plan, answers, n, edge, id, node) <==> ById(answers(n - 1).nodes)[id] == node
  {
    var nodes := answers(n - 1).nodes;
    ByIdIs(nodes, id);
    var k: nat :| k < |nodes| && LastNode(nodes, k, id) && ById(nodes)[id] == nodes[k];
    assert GivesAt(plan, answers, edge, n - 1, k, id) && NoneAfter(plan, answers, n, edge, n - 1, k, id);
    if ById(nodes)[id] == node {
      assert LatestIn(plan, answers, n, edge, n - 1, id, node);
    }
    if r: nat :| r < n && LatestIn(plan, answers, n, edge, r, id, node) {
      var j: nat :| j < |answers(r).nodes| && GivesAt(plan, answers, edge, r, j, id) && answers(r).nodes[j] == node
                   && NoneAfter(plan, answers, n, edge, r, j, id);
      assert NotFrom(plan, answers, edge, r + 1, n, id);
      assert r == n - 1;
      assert HasId(nodes[j], id) && HasId(nodes[k], id);
    }
  }

  /** A keyed list holds exactly the nodes it finds by their ids. */
  lemma KeyedHolds(list: seq<Node>, id: string, node: Node)
    requires Keyed(list)
    ensures node in list && HasId(node, id) <==> id in ById(list) && ById(list)[id] == node
  {
    if node in list && HasId(node, id) {
      var i :| 0 <= i < |list| && list[i] == node;
      NodeIdIs(node, id);
      KeyedById(list, i);
    }
    if id in ById(list) && ById(list)[id] == node {
      ByIdHasId(list, id);
      NodeIdIs(node, id);
    }
  }

  /** The children considered are exactly the latest of each id the reads of their edge returned. */
  lemma ConsideredAre(plan: Plan, answers: nat -> Answer, edge: Edge, id: string, node: Node)
    requires Collect(plan, answers, |plan.childReads|).Got?
    ensures var list := Side(edge, Collect(plan, answers, |plan.childReads|).lean);
      Keyed(list) && (node in list && HasId(node, id) <==> Latest(plan, answers, |plan.childReads|, edge, id, node))
  {
    CollectedKeyed(plan, answers, |plan.childReads|);
    CollectedIs(plan, answers, |plan.childReads|, edge, id, node);
    KeyedHolds(Side(edge, Collect(plan, answers, |plan.childReads|).lean), id, node);
  }

  // ----- Applied or not -----

  predicate SameAdset(a: Node, b: Node, lt: Order) {
    && CanonicalText(Get(a, "name"), lt) == CanonicalText(Get(b, "name"), lt)
    && CanonicalText(Get(a, "campaign_id"), lt) == CanonicalText(Get(b, "campaign_id"), lt)
  }

  ghost predicate KnownAdset(src: Sources, id: string, node: Node, lt: Order) {
    exists base :: IsBase(src, id, base) && SameAdset(node, base, lt)
  }

  ghost predicate KnownAd(src: Sources, id: string, node: Node, lt: Order) {
    exists base :: IsBase(src, id, base) && Matches(node, base, lt)
  }

  lemma OneAdsetIs(node: Node, id: string, src: Sources, lt: Order)
    ensures MergeAdset(node, id, src, lt).AdsetsMerged? <==> KnownAdset(src, id, node, lt)
  {
    forall base ensures Base(src, id) == Some(base) <==> IsBase(src, id, base) { BaseIs(src, id, base); }
  }

  lemma {:induction false} AllAdsetsMerge(lean: seq<Node>, src: Sources, lt: Order)
    ensures MergeAdsets(lean, src, lt).AdsetsMerged? <==>
      forall l, id :: l in lean && HasId(l, id) ==> KnownAdset(src, id, l, lt)
  {
    if lean != [] {
      var front, last := lean[..|lean| - 1], lean[|lean| - 1];
      AllAdsetsMerge(front, src, lt);
      assert forall l :: l in lean <==> l in front || l == last;
      forall id ensures NodeId(last) == Some(id) <==> HasId(last, id) { NodeIdIs(last, id); }
      if NodeId(last).Some? { OneAdsetIs(last, NodeId(last).value, src, lt); }
    }
  }

  /** Every returned child is known, with the fields it is known with. */
  ghost predicate AllKnown(plan: Plan, answers: nat -> Answer, adsetSrc: Sources, adSrc: Sources, lt: Order) {
    && AdsetsKnown(plan, answers, adsetSrc, lt)
    && forall id, node :: Latest(plan, answers, |plan.childReads|, AdsEdge, id, node) ==> KnownAd(adSrc, id, node, lt)
  }

  ghost predicate AdsetsKnown(plan: Plan, answers: nat -> Answer, src: Sources, lt: Order) {
    forall id, node :: Latest(plan, answers, |plan.childReads|, AdsetsEdge, id, node) ==> KnownAdset(src, id, node, lt)
  }

  lemma AdsetsKnownIff(plan: Plan, answers: nat -> Answer, src: Sources, lt: Order)
    requires Collect(plan, answers, |plan.childReads|).Got?
    ensures MergeAdsets(Collect(plan, answers, |plan.childReads|).lean.adsets, src, lt).AdsetsMerged?
      <==> AdsetsKnown(plan, answers, src, lt)
  {
    var list := Collect(plan, answers, |plan.childReads|).lean.adsets;
    AllAdsetsMerge(list, src, lt);
    forall id, node ensures node in list && HasId(node, id) <==> Latest(plan, answers, |plan.childReads|, AdsetsEdge, id, node) {
      ConsideredAre(plan, answers, AdsetsEdge, id, node);
    }
  }

  lemma AdsKnownIff(plan: Plan, answers: nat -> Answer, src: Sources, lt: Order)
    requires Collect(plan, answers, |plan.childReads|).Got?
    ensures Merge(Collect(plan, answers, |plan.childReads|).lean.ads, src, lt).Merged?
      <==> forall id, node :: Latest(plan, answers, |plan.childReads|, AdsEdge, id, node) ==> KnownAd(src, id, node, lt)
  {
    var list := Collect(plan, answers, |plan.childReads|).lean.ads;
    MergedIff(list, src, lt);
    forall id, node ensures node in list && HasId(node, id) <==> Latest(plan, answers, |plan.childReads|, AdsEdge, id, node) {
      ConsideredAre(plan, answers, AdsEdge, id, node);
    }
  }

  /** All or nothing: the refresh is applied if and only if the estimate fits, every planned read was
      answered with nodes, and every returned child is known and unchanged. */
  lemma AppliedIff(plan: Plan, remaining: nat, answers: nat -> Answer, adsetSrc: Sources, adSrc: Sources, lt: Order)
    ensures Refresh(plan, remaining, answers, adsetSrc, adSrc, lt).Applied? <==>
      plan.estimate <= remaining && Answered(answers, |plan.childReads|) && AllKnown(plan, answers, adsetSrc, adSrc, lt)
  {
    CollectsIff(plan, answers, |plan.childReads|);
    if Answered(answers, |plan.childReads|) {
      AdsetsKnownIff(plan, answers, adsetSrc, lt);
      AdsKnownIff(plan, answers, adSrc, lt);
    }
  }

  lemma {:induction false} AdsetTrouble(lean: seq<Node>, src: Sources, lt: Order) returns (l: Node)
    requires MergeAdsets(lean, src, lt).AdsetsNeedFull?
    ensures l in lean && HasId(l, MergeAdsets(lean, src, lt).id) && !KnownAdset(src, MergeAdsets(lean, src, lt).id, l, lt)
    ensures MergeAdsets(lean, src, lt).why ==
      if exists base :: IsBase(src, MergeAdsets(lean, src, lt).id, base) then AdsetFieldsChanged else UnknownAdset
  {
    var front, last := lean[..|lean| - 1], lean[|lean| - 1];
    if MergeAdsets(front, src, lt).AdsetsNeedFull? {
      l := AdsetTrouble(front, src, lt);
    } else {
      l := last;
      var id := NodeId(l).value;
      NodeIdIs(l, id);
      OneAdsetIs(l, id, src, lt);
      forall base ensures Base(src, id) == Some(base) <==> IsBase(src, id, base) { BaseIs(src, id, base); }
    }
  }

  /** A refresh that falls back on a child names it and says what is wrong with it; ad sets come first. */
  lemma TroubleIs(plan: Plan, remaining: nat, answers: nat -> Answer, adsetSrc: Sources, adSrc: Sources, lt: Order)
    returns (child: Node)
    requires plan.estimate <= remaining && Answered(answers, |plan.childReads|) && !AllKnown(plan, answers, adsetSrc, adSrc, lt)
    ensures Refresh(plan, remaining, answers, adsetSrc, adSrc, lt).FullReadRequired?
    ensures var out := Refresh(plan, remaining, answers, adsetSrc, adSrc, lt);
      if AdsetsKnown(plan, answers, adsetSrc, lt) then
        && Latest(plan, answers, |plan.childReads|, AdsEdge, out.id, child) && !KnownAd(adSrc, out.id, child, lt)
        && out.why == Ad(AdReason(adSrc, out.id, child))
      else
        && Latest(plan, answers, |plan.childReads|, AdsetsEdge, out.id, child) && !KnownAdset(adsetSrc, out.id, child, lt)
        && out.why == if exists base :: IsBase(adsetSrc, out.id, base) then AdsetFieldsChanged else UnknownAdset
  {
    CollectsIff(plan, answers, |plan.childReads|);
    var lean := Collect(plan, answers, |plan.childReads|).lean;
    AdsetsKnownIff(plan, answers, adsetSrc, lt);
    if AdsetsKnown(plan, answers, adsetSrc, lt) {
      AdsKnownIff(plan, answers, adSrc, lt);
      child := AdTrouble(lean.ads, adSrc, lt);
      ConsideredAre(plan, answers, AdsEdge, Merge(lean.ads, adSrc, lt).id, child);
    } else {
      child := AdsetTrouble(lean.adsets, adsetSrc, lt);
      ConsideredAre(plan, answers, AdsetsEdge, MergeAdsets(lean.adsets, adsetSrc, lt).id, child);
    }
  }

  ghost function AdReason(src: Sources, id: string, l: Node): Reason {
    if NoNode(src.delta, id) && NoNode(src.stored, id) then UnknownAd
    else if exists base :: IsBase(src, id, base) && SameCreative(l, base) then FieldsChanged
    else CreativeChanged
  }

  lemma AdTrouble(lean: seq<Node>, src: Sources, lt: Order) returns (l: Node)
    requires Merge(lean, src, lt).NeedsFull?
    ensures l in lean && HasId(l, Merge(lean, src, lt).id) && !KnownAd(src, Merge(lean, src, lt).id, l, lt)
    ensures Merge(lean, src, lt).reason == AdReason(src, Merge(lean, src, lt).id, l)
  {
    l := NeedsFullIs(lean, src, lt);
    var id := Merge(lean, src, lt).id;
    ByIdIs(src.delta, id);
    ByIdIs(src.stored, id);
    if Base(src, id).Some? {
      BaseIs(src, id, Base(src, id).value);
    }
    forall base ensures IsBase(src, id, base) <==> Base(src, id) == Some(base) { BaseIs(src, id, base); }
  }

  /** A budget that cannot hold the estimate, or that refuses the first read to fail, asks for the full
      read; any other failure ends the refresh. */
  lemma FailureIs(plan: Plan, remaining: nat, answers: nat -> Answer, adsetSrc: Sources, adSrc: Sources, lt: Order)
    ensures var out := Refresh(plan, remaining, answers, adsetSrc, adSrc, lt);
      && (plan.estimate > remaining <==> out == FullReadRequired(Budget, ""))
      && (plan.estimate <= remaining ==> forall r: nat :: FirstFailure(plan, answers, r) ==>
            out == if answers(r).BudgetError? then FullReadRequired(BudgetExhausted, "") else Failed)
      && (out.Failed? ==> exists r: nat :: FirstFailure(plan, answers, r) && answers(r).OtherError?)
      && (out.FullReadRequired? && out.why == BudgetExhausted ==> exists r: nat :: FirstFailure(plan, answers, r) && answers(r).BudgetError?)
  {
    CollectsIff(plan, answers, |plan.childReads|);
    if !Answered(answers, |plan.childReads|) {
      var r := FirstToFail(plan, answers, |plan.childReads|);
      assert FirstFailure(plan, answers, r);
    } else if plan.estimate <= remaining {
      AppliedIff(plan, remaining, answers, adsetSrc, adSrc, lt);
      if !AllKnown(plan, answers, adsetSrc, adSrc, lt) {
        var child := TroubleIs(plan, remaining, answers, adsetSrc, adSrc, lt);
      }
    }
  }

  lemma {:induction false} FirstToFail(plan: Plan, answers: nat -> Answer, n: nat) returns (r: nat)
    requires n <= |plan.childReads| && !Answered(answers, n)
    ensures FirstFailure(plan, answers, r)
  {
    if Answered(answers, n - 1) {
      r := n - 1;
    } else {
      r := FirstToFail(plan, answers, n - 1);
    }
  }

  // ----- What an applied refresh returns -----

  /** Own or delivery status prints differently. */
  predicate StatusDiffers(a: Node, b: Node, lt: Order) {
    || CanonicalText(Get(a, "status"), lt) != CanonicalText(Get(b, "status"), lt)
    || CanonicalText(Get(a, "effective_status"), lt) != CanonicalText(Get(b, "effective_status"), lt)
  }

  /** The known ad set with the status it was read with. */
  predicate IsPatched(l: Node, node: Node, id: string, src: Sources, base: Node, lt: Order) {
    && IsBase(src, id, base) && SameAdset(l, base, lt)
    && Get(node, "status") == Get(l, "status") && Get(node, "effective_status") == Get(l, "effective_status")
    && forall k :: k in node.Keys + base.Keys && k !in {"status", "effective_status"} ==> Get(node, k) == Get(base, k)
  }

  lemma OneIsPatched(l: Node, node: Node, src: Sources, lt: Order) returns (base: Node)
    requires NodeId(l).Some? && AdsetMergesTo(l, node, src, lt)
    ensures IsPatched(l, node, NodeId(l).value, src, base, lt) && Base(src, NodeId(l).value) == Some(base)
  {
    base := Base(src, NodeId(l).value).value;
    BaseIs(src, NodeId(l).value, base);
    PatchFields(base, map[], l);
  }

  lemma MovedIff(x: Node, src: Sources, lt: Order, id: string, base: Node)
    requires NodeId(x) == Some(id) && Base(src, id) == Some(base)
    ensures StatusMovedNode(x, src, lt) <==> StatusDiffers(base, x, lt)
  {
  }

  /** Of each ad set considered the refresh returns its patched form if its status differs, else nothing. */
  lemma AdsetIsReturned(plan: Plan, remaining: nat, answers: nat -> Answer, adsetSrc: Sources, adSrc: Sources, lt: Order, id: string, l: Node)
    returns (base: Node, node: Node)
    requires Refresh(plan, remaining, answers, adsetSrc, adSrc, lt).Applied?
    requires Latest(plan, answers, |plan.childReads|, AdsetsEdge, id, l)
    ensures IsPatched(l, node, id, adsetSrc, base, lt) && HasId(node, id)
    ensures node in Refresh(plan, remaining, answers, adsetSrc, adSrc, lt).adsets <==> StatusDiffers(base, node, lt)
  {
    AppliedReturnsTheMoved(plan, remaining, answers, adsetSrc, adSrc, lt);
    ConsideredAre(plan, answers, AdsetsEdge, id, l);
    NodeIdIs(l, id);
    var ls := Collect(plan, answers, |plan.childReads|).lean.adsets;
    var i :| 0 <= i < |ls| && ls[i] == l;
    node := MergeAdsets(ls, adsetSrc, lt).nodes[i];
    AdsetsPatched(ls, adsetSrc, lt);
    base := OneIsPatched(l, node, adsetSrc, lt);
    NodeIdIs(node, id);
    MovedIff(node, adsetSrc, lt, id, base);
  }

  lemma AdIsReturned(plan: Plan, remaining: nat, answers: nat -> Answer, adsetSrc: Sources, adSrc: Sources, lt: Order, id: string, l: Node)
    returns (base: Node, node: Node)
    requires Refresh(plan, remaining, answers, adsetSrc, adSrc, lt).Applied?
    requires Latest(plan, answers, |plan.childReads|, AdsEdge, id, l)
    ensures IsMerged(l, node, id, adSrc, base, lt) && HasId(node, id)
    ensures node in Refresh(plan, remaining, answers, adsetSrc, adSrc, lt).ads <==> StatusDiffers(base, node, lt)
  {
    AppliedReturnsTheMoved(plan, remaining, answers, adsetSrc, adSrc, lt);
    ConsideredAre(plan, answers, AdsEdge, id, l);
    NodeIdIs(l, id);
    var ls := Collect(plan, answers, |plan.childReads|).lean.ads;
    var i :| 0 <= i < |ls| && ls[i] == l;
    node := Merge(ls, adSrc, lt).nodes[i];
    base := OneIsMerged(l, node, adSrc, lt);
    NodeIdIs(node, id);
    BaseIs(adSrc, id, base);
    MovedIff(node, adSrc, lt, id, base);
  }

  /** Nothing else is returned. */
  lemma ReturnedIsConsidered(plan: Plan, remaining: nat, answers: nat -> Answer, adsetSrc: Sources, adSrc: Sources, lt: Order, edge: Edge, x: Node)
    returns (id: string, l: Node)
    requires Refresh(plan, remaining, answers, adsetSrc, adSrc, lt).Applied?
    requires var out := Refresh(plan, remaining, answers, adsetSrc, adSrc, lt); x in Side(edge, Lean(out.adsets, out.ads))
    ensures HasId(x, id) && Latest(plan, answers, |plan.childReads|, edge, id, l)
  {
    AppliedReturnsTheMoved(plan, remaining, answers, adsetSrc, adSrc, lt);
    var lean := Collect(plan, answers, |plan.childReads|).lean;
    var ls := Side(edge, lean);
    var nodes := if edge.AdsEdge? then Merge(lean.ads, adSrc, lt).nodes else MergeAdsets(lean.adsets, adsetSrc, lt).nodes;
    var i :| 0 <= i < |nodes| && nodes[i] == x;
    l, id := ls[i], NodeId(ls[i]).value;
    NodeIdIs(l, id);
    NodeIdIs(x, id);
    ConsideredAre(plan, answers, edge, id, l);
  }
}
