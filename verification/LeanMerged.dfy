/** What a merged snapshot is, told by the reads it was made from and not by the tables built on the way. */
module LeanMerged {
  import opened Options
  import opened CanonicalJson
  import opened ScanCheckpoint
  import opened LeanInventory

  // ----- Ids, as they stand in a node -----

  predicate HasId(node: Node, id: string) {
    id != "" && "id" in node && node["id"] == Str(id)
  }

  /** The creative object's `id` member. */
  predicate NamesCreative(creative: Value, c: string) {
    && c != "" && creative.Obj?
    && exists i :: 0 <= i < |creative.members| && creative.members[i] == Member("id", Str(c))
                   && forall j :: 0 <= j < i ==> creative.members[j].key != "id"
  }

  predicate HasCreative(node: Node, c: string) {
    "creative" in node && NamesCreative(node["creative"], c)
  }

  lemma NodeIdIs(node: Node, id: string)
    ensures NodeId(node) == Some(id) <==> HasId(node, id)
  {
  }

  lemma {:induction false} LookupIsFirst(ms: seq<Member>, key: string, i: nat)
    requires i < |ms| && ms[i].key == key && forall j :: 0 <= j < i ==> ms[j].key != key
    ensures Lookup(ms, key) == ms[i].value
  {
    if i > 0 {
      assert ms[1..][i - 1] == ms[i];
      forall j | 0 <= j < i - 1 ensures ms[1..][j].key != key { assert ms[1..][j] == ms[j + 1]; }
      LookupIsFirst(ms[1..], key, i - 1);
    }
  }

  lemma {:induction false} LookupIsSome(ms: seq<Member>, key: string) returns (i: nat)
    requires Lookup(ms, key) != Undefined
    ensures i < |ms| && ms[i].key == key && forall j :: 0 <= j < i ==> ms[j].key != key
  {
    if ms[0].key == key {
      i := 0;
    } else {
      i := LookupIsSome(ms[1..], key);
      forall j | 0 <= j < i + 1 ensures ms[j].key != key { if j > 0 { assert ms[1..][j - 1] == ms[j]; } }
      assert ms[1..][i] == ms[i + 1];
      i := i + 1;
    }
  }

  lemma CreativeValueIdIs(creative: Value, c: string)
    ensures CreativeValueId(creative) == Some(c) <==> NamesCreative(creative, c)
  {
    if NamesCreative(creative, c) {
      var i :| 0 <= i < |creative.members| && creative.members[i] == Member("id", Str(c))
               && forall j :: 0 <= j < i ==> creative.members[j].key != "id";
      LookupIsFirst(creative.members, "id", i);
    }
    if CreativeValueId(creative) == Some(c) {
      var i := LookupIsSome(creative.members, "id");
      LookupIsFirst(creative.members, "id", i);
      assert creative.members[i] == Member("id", Str(c));
    }
  }

  lemma CreativeIdIs(node: Node, c: string)
    ensures CreativeId(node) == Some(c) <==> HasCreative(node, c)
  {
    CreativeValueIdIs(Get(node, "creative"), c);
  }

  // ----- The last of several -----

  predicate LastNode(nodes: seq<Node>, i: nat, id: string) {
    i < |nodes| && HasId(nodes[i], id) && forall j :: i < j < |nodes| ==> !HasId(nodes[j], id)
  }

  predicate NoNode(nodes: seq<Node>, id: string) {
    forall j :: 0 <= j < |nodes| ==> !HasId(nodes[j], id)
  }

  lemma {:induction false} ByIdIs(nodes: seq<Node>, id: string)
    ensures id in ById(nodes) <==> !NoNode(nodes, id)
    ensures id in ById(nodes) ==> exists i: nat :: i < |nodes| && LastNode(nodes, i, id) && ById(nodes)[id] == nodes[i]
  {
    if nodes != [] {
      var n := |nodes| - 1;
      var front := nodes[..n];
      ByIdIs(front, id);
      NodeIdIs(nodes[n], id);
      assert forall j :: 0 <= j < n ==> front[j] == nodes[j];
      if HasId(nodes[n], id) {
        assert LastNode(nodes, n, id);
      } else if id in ById(front) {
        var i: nat :| i < |front| && LastNode(front, i, id) && ById(front)[id] == front[i];
        assert LastNode(nodes, i, id);
      }
    }
  }

  /** The node a lean ad is built on: the last of its id in the delta, else the last in storage. */
  predicate IsBase(src: Sources, id: string, base: Node) {
    || (exists i: nat :: i < |src.delta| && LastNode(src.delta, i, id) && src.delta[i] == base)
    || (NoNode(src.delta, id) && exists i: nat :: i < |src.stored| && LastNode(src.stored, i, id) && src.stored[i] == base)
  }

  lemma LastIsOne(nodes: seq<Node>, id: string, i: nat, j: nat)
    requires LastNode(nodes, i, id) && LastNode(nodes, j, id)
    ensures i == j
  {
  }

  lemma BaseIs(src: Sources, id: string, base: Node)
    ensures Base(src, id) == Some(base) <==> IsBase(src, id, base)
  {
    ByIdIs(src.delta, id);
    ByIdIs(src.stored, id);
    if i: nat :| i < |src.delta| && LastNode(src.delta, i, id) && src.delta[i] == base {
      var k: nat :| k < |src.delta| && LastNode(src.delta, k, id) && ById(src.delta)[id] == src.delta[k];
      LastIsOne(src.delta, id, i, k);
    } else if NoNode(src.delta, id) {
      if i: nat :| i < |src.stored| && LastNode(src.stored, i, id) && src.stored[i] == base {
        var k: nat :| k < |src.stored| && LastNode(src.stored, k, id) && ById(src.stored)[id] == src.stored[k];
        LastIsOne(src.stored, id, i, k);
      }
    }
  }

  // ----- The creative that wins -----

  predicate LastDeltaCreative(delta: seq<Node>, i: nat, c: string) {
    i < |delta| && HasCreative(delta[i], c) && forall j :: i < j < |delta| ==> !HasCreative(delta[j], c)
  }

  predicate LastStoredCreative(creatives: seq<Value>, i: nat, c: string) {
    i < |creatives| && NamesCreative(creatives[i], c) && forall j :: i < j < |creatives| ==> !NamesCreative(creatives[j], c)
  }

  predicate NoCreative(delta: seq<Node>, c: string) {
    forall j :: 0 <= j < |delta| ==> !HasCreative(delta[j], c)
  }

  predicate NoneStored(creatives: seq<Value>, c: string) {
    forall j :: 0 <= j < |creatives| ==> !NamesCreative(creatives[j], c)
  }

  /** The expansion of a creative: that of the last delta node that carries it, else the last stored one,
      else the one the ad's own base holds. */
  predicate IsExpansion(src: Sources, base: Node, c: string, v: Value) {
    || (exists i: nat :: i < |src.delta| && LastDeltaCreative(src.delta, i, c) && src.delta[i]["creative"] == v)
    || (&& NoCreative(src.delta, c)
        && (|| (exists i: nat :: i < |src.creatives| && LastStoredCreative(src.creatives, i, c) && src.creatives[i] == v)
            || (NoneStored(src.creatives, c) && Get(base, "creative") == v)))
  }

  lemma {:induction false} StoredTableIs(creatives: seq<Value>, c: string)
    ensures c !in StoredTable(creatives) <==> NoneStored(creatives, c)
    ensures c in StoredTable(creatives) ==>
      exists i: nat :: i < |creatives| && LastStoredCreative(creatives, i, c) && creatives[i] == StoredTable(creatives)[c]
  {
    if creatives != [] {
      var n := |creatives| - 1;
      var front := creatives[..n];
      StoredTableIs(front, c);
      CreativeValueIdIs(creatives[n], c);
      assert forall j :: 0 <= j < n ==> front[j] == creatives[j];
      if NamesCreative(creatives[n], c) {
        assert LastStoredCreative(creatives, n, c);
      } else if c in StoredTable(front) {
        var i: nat :| i < |front| && LastStoredCreative(front, i, c) && front[i] == StoredTable(front)[c];
        assert LastStoredCreative(creatives, i, c);
      }
    }
  }

  lemma {:induction false} TableKeepsStored(delta: seq<Node>, creatives: seq<Value>, c: string)
    requires NoCreative(delta, c)
    ensures c in Table(delta, creatives) <==> c in StoredTable(creatives)
    ensures c in Table(delta, creatives) ==> Table(delta, creatives)[c] == StoredTable(creatives)[c]
  {
    if delta != [] {
      var n := |delta| - 1;
      assert forall j :: 0 <= j < n ==> delta[..n][j] == delta[j];
      TableKeepsStored(delta[..n], creatives, c);
      CreativeIdIs(delta[n], c);
    }
  }

  lemma {:induction false} TableIsDelta(delta: seq<Node>, creatives: seq<Value>, c: string)
    requires !NoCreative(delta, c)
    ensures c in Table(delta, creatives)
    ensures exists i: nat :: i < |delta| && LastDeltaCreative(delta, i, c) && delta[i]["creative"] == Table(delta, creatives)[c]
  {
    var n := |delta| - 1;
    CreativeIdIs(delta[n], c);
    if HasCreative(delta[n], c) {
      assert LastDeltaCreative(delta, n, c);
    } else {
      FrontHas(delta, c);
      TableIsDelta(delta[..n], creatives, c);
      var i: nat :| i < n && LastDeltaCreative(delta[..n], i, c) && delta[..n][i]["creative"] == Table(delta[..n], creatives)[c];
      FrontLast(delta, i, c);
    }
  }

  lemma FrontHas(delta: seq<Node>, c: string)
    requires |delta| > 0 && !NoCreative(delta, c) && !HasCreative(delta[|delta| - 1], c)
    ensures !NoCreative(delta[..|delta| - 1], c)
  {
    var j :| 0 <= j < |delta| && HasCreative(delta[j], c);
    assert delta[..|delta| - 1][j] == delta[j];
  }

  lemma FrontLast(delta: seq<Node>, i: nat, c: string)
    requires |delta| > 0 && LastDeltaCreative(delta[..|delta| - 1], i, c) && !HasCreative(delta[|delta| - 1], c)
    ensures LastDeltaCreative(delta, i, c)
  {
    forall j | i < j < |delta| ensures !HasCreative(delta[j], c) {
      if j < |delta| - 1 { assert delta[..|delta| - 1][j] == delta[j]; }
    }
  }

  lemma TableIsExpansion(src: Sources, base: Node, c: string)
    ensures IsExpansion(src, base, c,
      if c in Table(src.delta, src.creatives) then Table(src.delta, src.creatives)[c] else Get(base, "creative"))
  {
    if NoCreative(src.delta, c) {
      TableKeepsStored(src.delta, src.creatives, c);
      StoredTableIs(src.creatives, c);
    } else {
      TableIsDelta(src.delta, src.creatives, c);
    }
  }

  // ----- A merged node -----

  /** `node` is the lean ad `l` on the base it was read or stored with. */
  ghost predicate IsMerged(l: Node, node: Node, id: string, src: Sources, base: Node, lt: Order) {
    && IsBase(src, id, base) && PrintsAlike(l, base, lt) && PrintsAlike(l, node, lt)
    && Get(node, "status") == Get(l, "status") && Get(node, "effective_status") == Get(l, "effective_status")
    && (forall k :: k !in {"status", "effective_status", "creative"} ==> Get(node, k) == Get(base, k))
    && (forall c :: HasCreative(l, c) ==> HasCreative(base, c) && IsExpansion(src, base, c, Get(node, "creative")))
    && ((forall c :: !HasCreative(l, c)) ==> Get(node, "creative") == Get(base, "creative"))
  }

  lemma MergedNodeIs(lean: seq<Node>, src: Sources, lt: Order, i: nat) returns (id: string, base: Node)
    requires Merge(lean, src, lt).Merged? && i < |Merge(lean, src, lt).nodes|
    ensures i < |Identified(lean)| && HasId(Identified(lean)[i], id)
    ensures IsMerged(Identified(lean)[i], Merge(lean, src, lt).nodes[i], id, src, base, lt)
  {
    MergedPointwise(lean, src, lt);
    var l := Identified(lean)[i];
    id := NodeId(l).value;
    NodeIdIs(l, id);
    base := OneIsMerged(l, Merge(lean, src, lt).nodes[i], src, lt);
  }

  lemma OneIsMerged(l: Node, node: Node, src: Sources, lt: Order) returns (base: Node)
    requires NodeId(l).Some? && MergesTo(l, node, src, lt)
    ensures IsMerged(l, node, NodeId(l).value, src, base, lt)
  {
    base := Base(src, NodeId(l).value).value;
    BaseIs(src, NodeId(l).value, base);
    MergedFields(l, node, src, lt);
    FixedFieldsAre(l, base, lt);
    FixedFieldsAre(l, node, lt);
    CreativeOf(l, node, src, base);
  }

  lemma CreativeOf(l: Node, node: Node, src: Sources, base: Node)
    requires CreativeId(l) == CreativeId(base)
    requires var table := Table(src.delta, src.creatives);
      Get(node, "creative") == if CreativeId(l).Some? && CreativeId(l).value in table then table[CreativeId(l).value]
                               else Get(base, "creative")
    ensures forall c :: HasCreative(l, c) ==> HasCreative(base, c) && IsExpansion(src, base, c, Get(node, "creative"))
    ensures (forall c :: !HasCreative(l, c)) ==> Get(node, "creative") == Get(base, "creative")
  {
    if CreativeId(l).Some? {
      var c := CreativeId(l).value;
      CreativeIdIs(l, c);
      CreativeIdIs(base, c);
      TableIsExpansion(src, base, c);
      ExpansionOf(l, node, src, base, c);
    } else {
      forall c ensures !HasCreative(l, c) { CreativeIdIs(l, c); }
    }
  }

  lemma ExpansionOf(l: Node, node: Node, src: Sources, base: Node, c: string)
    requires CreativeId(l) == Some(c)
    requires IsExpansion(src, base, c, Get(node, "creative")) && HasCreative(base, c)
    ensures forall d :: HasCreative(l, d) ==> HasCreative(base, d) && IsExpansion(src, base, d, Get(node, "creative"))
  {
    forall d | HasCreative(l, d) ensures d == c { CreativeIdIs(l, d); }
  }

  /** The identified ads are all the ads with an id, in the order they were read. */
  lemma {:induction false} IdentifiedInOrder(a: seq<Node>, b: seq<Node>)
    ensures Identified(a + b) == Identified(a) + Identified(b)
    ensures |a| == 1 ==> Identified(a) == if exists id :: HasId(a[0], id) then a else []
  {
    if |a| == 1 {
      if id :| HasId(a[0], id) { NodeIdIs(a[0], id); }
      if NodeId(a[0]).Some? { NodeIdIs(a[0], NodeId(a[0]).value); }
    }
    if b == [] {
      assert a + b == a;
    } else {
      IdentifiedInOrder(a, b[..|b| - 1]);
      assert (a + b)[..|a + b| - 1] == a + b[..|b| - 1];
    }
  }

  // ----- When the merge is possible -----

  /** The ad is known, with the creative and the printed fields the lean read gives it. */
  ghost predicate Matches(l: Node, base: Node, lt: Order) {
    SameCreative(l, base) && PrintsAlike(l, base, lt)
  }

  ghost predicate SameCreative(a: Node, b: Node) {
    forall c :: HasCreative(a, c) <==> HasCreative(b, c)
  }

  lemma SameCreativeIs(a: Node, b: Node)
    ensures SameCreative(a, b) <==> CreativeId(a) == CreativeId(b)
  {
    forall c ensures CreativeId(a) == Some(c) <==> HasCreative(a, c) { CreativeIdIs(a, c); }
    forall c ensures CreativeId(b) == Some(c) <==> HasCreative(b, c) { CreativeIdIs(b, c); }
    if CreativeId(a) != CreativeId(b) {
      var c := if CreativeId(a).Some? then CreativeId(a).value else CreativeId(b).value;
      assert HasCreative(a, c) != HasCreative(b, c);
    }
  }

  /** The merge succeeds if and only if every lean ad with an id has a base that matches it; an ad with
      another name, parent or creative than its base is never merged. */
  lemma MergedIff(lean: seq<Node>, src: Sources, lt: Order)
    ensures Merge(lean, src, lt).Merged? <==>
      forall l, id :: l in lean && HasId(l, id) ==> exists base :: IsBase(src, id, base) && Matches(l, base, lt)
  {
    forall l, id | l in lean && HasId(l, id)
      ensures (exists base :: IsBase(src, id, base) && Matches(l, base, lt))
        <==> MergeOne(l, id, src, Table(src.delta, src.creatives), lt).Merged?
    {
      OneMergesIff(l, id, src, lt);
    }
    AllMerge(lean, src, lt);
  }

  lemma OneMergesIff(l: Node, id: string, src: Sources, lt: Order)
    ensures (exists base :: IsBase(src, id, base) && Matches(l, base, lt))
      <==> MergeOne(l, id, src, Table(src.delta, src.creatives), lt).Merged?
  {
    if base :| IsBase(src, id, base) && Matches(l, base, lt) {
      BaseIs(src, id, base);
      FixedFieldsAre(l, base, lt);
      SameCreativeIs(l, base);
    }
    if Base(src, id).Some? {
      BaseIs(src, id, Base(src, id).value);
      FixedFieldsAre(l, Base(src, id).value, lt);
      SameCreativeIs(l, Base(src, id).value);
    }
  }

  lemma {:induction false} AllMerge(lean: seq<Node>, src: Sources, lt: Order)
    ensures Merge(lean, src, lt).Merged? <==>
      forall l, id :: l in lean && HasId(l, id) ==> MergeOne(l, id, src, Table(src.delta, src.creatives), lt).Merged?
  {
    if lean != [] {
      var front, last := lean[..|lean| - 1], lean[|lean| - 1];
      AllMerge(front, src, lt);
      assert forall l :: l in lean <==> l in front || l == last;
      forall id ensures NodeId(last) == Some(id) <==> HasId(last, id) { NodeIdIs(last, id); }
    }
  }

  /** The first ad that cannot be merged is named, with what is wrong with it. */
  lemma NeedsFullIs(lean: seq<Node>, src: Sources, lt: Order) returns (l: Node)
    requires Merge(lean, src, lt).NeedsFull?
    ensures l in lean && HasId(l, Merge(lean, src, lt).id)
    ensures var id, reason := Merge(lean, src, lt).id, Merge(lean, src, lt).reason;
      && (reason == UnknownAd <==> NoNode(src.delta, id) && NoNode(src.stored, id))
      && (forall base :: IsBase(src, id, base) ==>
            reason == if SameCreative(l, base) then FieldsChanged else CreativeChanged)
      && (forall base :: IsBase(src, id, base) && reason == FieldsChanged ==> !PrintsAlike(l, base, lt))
  {
    var i := NeedsFullAt(lean, src, lt);
    l := Identified(lean)[i];
    var id := Merge(lean, src, lt).id;
    NodeIdIs(l, id);
    ByIdIs(src.delta, id);
    ByIdIs(src.stored, id);
    forall base ensures Base(src, id) == Some(base) <==> IsBase(src, id, base) { BaseIs(src, id, base); }
    if Base(src, id).Some? {
      FixedFieldsAre(l, Base(src, id).value, lt);
      SameCreativeIs(l, Base(src, id).value);
    }
  }

  // ----- Why a full scan reads heavy -----

  /** The fallback a snapshot reports is the first thing that kept it from being lean: the plan, an empty
      storage, or what the merge found wrong with an ad. */
  lemma FallbackTells(
    plan: FullPlan, stored: seq<Node>, creatives: seq<Value>,
    readHeavy: seq<Node>, readDelta: int -> seq<Node>, readLean: seq<Node>, normalize: Node -> Node, lt: Order)
    ensures var got := ReadSnapshot(plan, stored, creatives, readHeavy, readDelta, readLean, normalize, lt);
      && (got.heavy <==> got.fallback != NoFallback) && (got.heavy ==> got.nodes == readHeavy)
      && (forall reason :: got.fallback == NotLean(reason) <==> plan == Heavy(reason))
      && (got.fallback == NoStoredAds <==> plan.Lean? && stored == [])
    ensures plan.Lean? && stored != [] ==>
      var src := Sources(Normalized(readDelta(plan.updatedSince), normalize), stored, creatives);
      && (!ReadSnapshot(plan, stored, creatives, readHeavy, readDelta, readLean, normalize, lt).heavy <==>
            forall l, id :: l in Normalized(readLean, normalize) && HasId(l, id) ==> exists base :: IsBase(src, id, base) && Matches(l, base, lt))
  {
    if plan.Lean? {
      MergedIff(Normalized(readLean, normalize), Sources(Normalized(readDelta(plan.updatedSince), normalize), stored, creatives), lt);
    }
  }
}
