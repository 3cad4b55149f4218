/** The lean full ad read: rebuild the heavy snapshot from a lean membership and status read, a heavy
    delta and storage, or fall back to the heavy read. */
module LeanInventory {
  import opened Options
  import opened CanonicalJson
  import opened ScanCheckpoint

  /** A Graph node: its defined fields. */
  type Node = map<string, Value>

  function Get(node: Node, key: string): Value {
    if key in node then node[key] else Undefined
  }

  function Lookup(ms: seq<Member>, key: string): Value {
    if ms == [] then Undefined else if ms[0].key == key then ms[0].value else Lookup(ms[1..], key)
  }

  function NonEmpty(v: Value): Option<string> {
    if v.Str? && v.s != "" then Some(v.s) else None
  }

  function NodeId(node: Node): Option<string> {
    NonEmpty(Get(node, "id"))
  }

  function CreativeValueId(creative: Value): Option<string> {
    if creative.Obj? then NonEmpty(Lookup(creative.members, "id")) else None
  }

  function CreativeId(node: Node): Option<string> {
    CreativeValueId(Get(node, "creative"))
  }

  /** Field comparison: equal canonical texts, so absent equals null. */
  predicate SameJson(a: Value, b: Value, lt: Order) {
    CanonicalText(a, lt) == CanonicalText(b, lt)
  }

  const FIXED_KEYS: seq<string> := ["id", "name", "adset_id", "campaign_id"]

  predicate IsStatusKey(key: string) {
    key == "effective_status" || key == "status"
  }

  predicate SameFixedFields(a: Node, b: Node, lt: Order) {
    forall i :: 0 <= i < |FIXED_KEYS| ==> SameJson(Get(a, FIXED_KEYS[i]), Get(b, FIXED_KEYS[i]), lt)
  }

  // ----- The merge -----

  /** `delta` was read heavy in this run; `stored` and `creatives` are the stored current versions. */
  datatype Sources = Sources(delta: seq<Node>, stored: seq<Node>, creatives: seq<Value>)

  datatype Reason = UnknownAd | CreativeChanged | FieldsChanged

  datatype MergeResult = Merged(nodes: seq<Node>) | NeedsFull(reason: Reason, id: string)

  /** Later nodes replace earlier ones of the same id. */
  function ById(nodes: seq<Node>): map<string, Node> {
    if nodes == [] then map[]
    else
      var rest, last := ById(nodes[..|nodes| - 1]), nodes[|nodes| - 1];
      if NodeId(last).Some? then rest[NodeId(last).value := last] else rest
  }

  function StoredTable(creatives: seq<Value>): map<string, Value> {
    if creatives == [] then map[]
    else
      var rest, last := StoredTable(creatives[..|creatives| - 1]), creatives[|creatives| - 1];
      if CreativeValueId(last).Some? then rest[CreativeValueId(last).value := last] else rest
  }

  /** One expansion per creative id: the delta's in place of the stored one. */
  function Table(delta: seq<Node>, creatives: seq<Value>): map<string, Value> {
    if delta == [] then StoredTable(creatives)
    else
      var rest, last := Table(delta[..|delta| - 1], creatives), delta[|delta| - 1];
      if CreativeId(last).Some? then rest[CreativeId(last).value := Get(last, "creative")] else rest
  }

  function Base(src: Sources, id: string): Option<Node> {
    if id in ById(src.delta) then Some(ById(src.delta)[id])
    else if id in ById(src.stored) then Some(ById(src.stored)[id])
    else None
  }

  function SetOrDrop(node: Node, key: string, v: Value): Node {
    if v == Undefined then node - {key} else node[key := v]
  }

  /** The base with its creative resolved and its status, present or absent, as the lean read has it. */
  function Patch(base: Node, table: map<string, Value>, lean: Node): Node {
    var cid := CreativeId(base);
    var resolved := if cid.Some? && cid.value in table then base["creative" := table[cid.value]] else base;
    var first := SetOrDrop(resolved, "effective_status", Get(lean, "effective_status"));
    SetOrDrop(first, "status", Get(lean, "status"))
  }

  function MergeOne(lean: Node, id: string, src: Sources, table: map<string, Value>, lt: Order): MergeResult {
    var base := Base(src, id);
    if base.None? then NeedsFull(UnknownAd, id)
    else if CreativeId(lean) != CreativeId(base.value) then NeedsFull(CreativeChanged, id)
    else if !SameFixedFields(lean, base.value, lt) then NeedsFull(FieldsChanged, id)
    else Merged([Patch(base.value, table, lean)])
  }

  function Merge(lean: seq<Node>, src: Sources, lt: Order): MergeResult {
    if lean == [] then Merged([])
    else
      var done, last := Merge(lean[..|lean| - 1], src, lt), lean[|lean| - 1];
      if done.NeedsFull? || NodeId(last).None? then done
      else
        var one := MergeOne(last, NodeId(last).value, src, Table(src.delta, src.creatives), lt);
        if one.NeedsFull? then one else Merged(done.nodes + one.nodes)
  }

  lemma {:induction false} MergeStops(lean: seq<Node>, n: nat, src: Sources, lt: Order)
    requires n <= |lean| && Merge(lean[..n], src, lt).NeedsFull?
    ensures Merge(lean, src, lt) == Merge(lean[..n], src, lt)
  {
    if n < |lean| {
      var init := lean[..|lean| - 1];
      assert init[..n] == lean[..n];
      MergeStops(init, n, src, lt);
    } else {
      assert lean[..n] == lean;
    }
  }

  method MergeLeanAds(lean: seq<Node>, src: Sources, lt: Order) returns (result: MergeResult)
    ensures result == Merge(lean, src, lt)
  {
    var deltaById: map<string, Node>, storedById: map<string, Node> := map[], map[];
    var creativeById: map<string, Value> := map[];
    for i := 0 to |src.creatives|
      invariant creativeById == StoredTable(src.creatives[..i])
    {
      assert src.creatives[..i + 1][..i] == src.creatives[..i];
      var id := CreativeValueId(src.creatives[i]);
      if id.Some? { creativeById := creativeById[id.value := src.creatives[i]]; }
    }
    assert src.creatives[..|src.creatives|] == src.creatives;
    for i := 0 to |src.delta|
      invariant deltaById == ById(src.delta[..i]) && creativeById == Table(src.delta[..i], src.creatives)
    {
      var node := src.delta[i];
      assert src.delta[..i + 1][..i] == src.delta[..i];
      if NodeId(node).Some? { deltaById := deltaById[NodeId(node).value := node]; }
      if CreativeId(node).Some? { creativeById := creativeById[CreativeId(node).value := Get(node, "creative")]; }
    }
    assert src.delta[..|src.delta|] == src.delta;
    for i := 0 to |src.stored|
      invariant storedById == ById(src.stored[..i])
    {
      var node := src.stored[i];
      assert src.stored[..i + 1][..i] == src.stored[..i];
      if NodeId(node).Some? { storedById := storedById[NodeId(node).value := node]; }
    }
    assert src.stored[..|src.stored|] == src.stored;
    var nodes: seq<Node> := [];
    for i := 0 to |lean|
      invariant Merge(lean[..i], src, lt) == Merged(nodes)
    {
      assert lean[..i + 1][..i] == lean[..i];
      var id := NodeId(lean[i]);
      if id.Some? {
        var one := MergeAd(lean[i], id.value, src, deltaById, storedById, creativeById, lt);
        if one.NeedsFull? {
          MergeStops(lean, i + 1, src, lt);
          return one;
        }
        nodes := nodes + one.nodes;
      }
    }
    assert lean[..|lean|] == lean;
    result := Merged(nodes);
  }

  method MergeAd(lean: Node, id: string, ghost src: Sources, deltaById: map<string, Node>, storedById: map<string, Node>,
                 creativeById: map<string, Value>, lt: Order) returns (one: MergeResult)
    requires deltaById == ById(src.delta) && storedById == ById(src.stored) && creativeById == Table(src.delta, src.creatives)
    ensures one == MergeOne(lean, id, src, Table(src.delta, src.creatives), lt)
  {
    if id !in deltaById && id !in storedById {
      return NeedsFull(UnknownAd, id);
    }
    var base := if id in deltaById then deltaById[id] else storedById[id];
    if CreativeId(lean) != CreativeId(base) {
      return NeedsFull(CreativeChanged, id);
    }
    if !SameFixedFields(lean, base, lt) {
      return NeedsFull(FieldsChanged, id);
    }
    return Merged([Patch(base, creativeById, lean)]);
  }

  // ----- What a merge is, node by node -----

  function Identified(nodes: seq<Node>): (r: seq<Node>)
    ensures forall i :: 0 <= i < |r| ==> r[i] in nodes && NodeId(r[i]).Some?
  {
    if nodes == [] then []
    else
      var rest, last := Identified(nodes[..|nodes| - 1]), nodes[|nodes| - 1];
      if NodeId(last).Some? then rest + [last] else rest
  }

  /** `node` is what the merge makes of the identified lean node `l`. */
  predicate MergesTo(l: Node, node: Node, src: Sources, lt: Order)
    requires NodeId(l).Some?
  {
    MergeOne(l, NodeId(l).value, src, Table(src.delta, src.creatives), lt) == Merged([node])
  }

  lemma {:induction false} MergedPointwise(lean: seq<Node>, src: Sources, lt: Order)
    requires Merge(lean, src, lt).Merged?
    ensures var nodes, ls := Merge(lean, src, lt).nodes, Identified(lean);
      |nodes| == |ls| && forall i :: 0 <= i < |ls| ==> MergesTo(ls[i], nodes[i], src, lt)
  {
    if lean != [] {
      MergedPointwise(lean[..|lean| - 1], src, lt);
    }
  }

  lemma {:induction false} PointwiseMerged(lean: seq<Node>, nodes: seq<Node>, src: Sources, lt: Order)
    requires |nodes| == |Identified(lean)|
    requires forall i :: 0 <= i < |nodes| ==> MergesTo(Identified(lean)[i], nodes[i], src, lt)
    ensures Merge(lean, src, lt) == Merged(nodes)
  {
    if lean != [] {
      var init, last := lean[..|lean| - 1], lean[|lean| - 1];
      if NodeId(last).Some? {
        var n := |nodes| - 1;
        assert Identified(lean)[n] == last && Identified(lean)[..n] == Identified(init);
        PointwiseMerged(init, nodes[..n], src, lt);
        assert nodes == nodes[..n] + [nodes[n]];
      } else {
        PointwiseMerged(init, nodes, src, lt);
      }
    }
  }

  lemma {:induction false} NeedsFullAt(lean: seq<Node>, src: Sources, lt: Order) returns (i: nat)
    requires Merge(lean, src, lt).NeedsFull?
    ensures i < |Identified(lean)|
    ensures var l := Identified(lean)[i];
      MergeOne(l, NodeId(l).value, src, Table(src.delta, src.creatives), lt) == Merge(lean, src, lt)
  {
    var init := lean[..|lean| - 1];
    if Merge(init, src, lt).NeedsFull? {
      i := NeedsFullAt(init, src, lt);
    } else {
      i := |Identified(init)|;
    }
  }

  lemma {:induction false} ByIdHasId(nodes: seq<Node>, id: string)
    requires id in ById(nodes)
    ensures ById(nodes)[id] in nodes && NodeId(ById(nodes)[id]) == Some(id)
  {
    var last := nodes[|nodes| - 1];
    if NodeId(last) != Some(id) { ByIdHasId(nodes[..|nodes| - 1], id); }
  }

  lemma {:induction false} ByIdFinds(nodes: seq<Node>, node: Node)
    requires node in nodes && NodeId(node).Some?
    ensures NodeId(node).value in ById(nodes)
  {
    var last := nodes[|nodes| - 1];
    if node != last {
      assert node in nodes[..|nodes| - 1];
      ByIdFinds(nodes[..|nodes| - 1], node);
    }
  }

  lemma {:induction false} StoredTableHasId(creatives: seq<Value>, c: string)
    requires c in StoredTable(creatives)
    ensures CreativeValueId(StoredTable(creatives)[c]) == Some(c)
  {
    var last := creatives[|creatives| - 1];
    if CreativeValueId(last) != Some(c) { StoredTableHasId(creatives[..|creatives| - 1], c); }
  }

  lemma {:induction false} TableHasId(delta: seq<Node>, creatives: seq<Value>, c: string)
    requires c in Table(delta, creatives)
    ensures CreativeValueId(Table(delta, creatives)[c]) == Some(c)
  {
    if delta == [] {
      StoredTableHasId(creatives, c);
    } else if CreativeId(delta[|delta| - 1]) != Some(c) {
      TableHasId(delta[..|delta| - 1], creatives, c);
    }
  }

  lemma PatchFields(base: Node, table: map<string, Value>, lean: Node)
    ensures var node := Patch(base, table, lean);
      && (forall k :: !IsStatusKey(k) && k != "creative" ==> Get(node, k) == Get(base, k))
      && (forall k :: IsStatusKey(k) ==> Get(node, k) == Get(lean, k))
      && Get(node, "creative") ==
         (if CreativeId(base).Some? && CreativeId(base).value in table then table[CreativeId(base).value]
          else Get(base, "creative"))
  {}

  /** The same printed identity, name and parents. */
  predicate PrintsAlike(a: Node, b: Node, lt: Order) {
    forall k :: k in {"id", "name", "adset_id", "campaign_id"} ==> CanonicalText(Get(a, k), lt) == CanonicalText(Get(b, k), lt)
  }

  lemma FixedFieldsAre(a: Node, b: Node, lt: Order)
    ensures SameFixedFields(a, b, lt) <==> PrintsAlike(a, b, lt)
  {
    if SameFixedFields(a, b, lt) {
      assert SameJson(Get(a, FIXED_KEYS[0]), Get(b, FIXED_KEYS[0]), lt) && SameJson(Get(a, FIXED_KEYS[1]), Get(b, FIXED_KEYS[1]), lt);
      assert SameJson(Get(a, FIXED_KEYS[2]), Get(b, FIXED_KEYS[2]), lt) && SameJson(Get(a, FIXED_KEYS[3]), Get(b, FIXED_KEYS[3]), lt);
    }
  }

  lemma BaseHasId(src: Sources, id: string)
    requires Base(src, id).Some?
    ensures NodeId(Base(src, id).value) == Some(id)
  {
    if id in ById(src.delta) { ByIdHasId(src.delta, id); } else { ByIdHasId(src.stored, id); }
  }

  /** The fields of a merged node: identity, parentage and status are the lean read's, the creative is
      the base's own or the one resolved expansion of its creative id, everything else the base's. */
  lemma MergedFields(l: Node, node: Node, src: Sources, lt: Order)
    requires NodeId(l).Some? && MergesTo(l, node, src, lt)
    ensures NodeId(node) == NodeId(l) && CreativeId(node) == CreativeId(l)
    ensures SameFixedFields(l, node, lt) && PrintsAlike(l, node, lt)
    ensures forall k :: IsStatusKey(k) ==> Get(node, k) == Get(l, k)
    ensures var base, table := Base(src, NodeId(l).value).value, Table(src.delta, src.creatives);
      && (forall k :: !IsStatusKey(k) && k != "creative" ==> Get(node, k) == Get(base, k))
      && Get(node, "creative") == (if CreativeId(l).Some? && CreativeId(l).value in table
                                   then table[CreativeId(l).value] else Get(base, "creative"))
  {
    var base, table := Base(src, NodeId(l).value).value, Table(src.delta, src.creatives);
    BaseHasId(src, NodeId(l).value);
    PatchFields(base, table, l);
    if CreativeId(l).Some? && CreativeId(l).value in table {
      TableHasId(src.delta, src.creatives, CreativeId(l).value);
    }
    FixedFieldsAre(l, node, lt);
  }

  // ----- Projection, membership, shared creatives, fixpoint -----

  function IdsOf(nodes: seq<Node>): set<string> {
    ById(nodes).Keys
  }

  /** A merged snapshot has exactly the ids the lean read returned. */
  lemma {:induction false} MembershipIsLeanRead(lean: seq<Node>, src: Sources, lt: Order)
    requires Merge(lean, src, lt).Merged?
    ensures IdsOf(Merge(lean, src, lt).nodes) == IdsOf(lean)
  {
    if lean != [] {
      var init, last := lean[..|lean| - 1], lean[|lean| - 1];
      MembershipIsLeanRead(init, src, lt);
      if NodeId(last).Some? {
        var before, nodes := Merge(init, src, lt).nodes, Merge(lean, src, lt).nodes;
        var node := nodes[|nodes| - 1];
        assert nodes == before + [node] && nodes[..|before|] == before;
        MergedFields(last, node, src, lt);
      }
    }
  }

  /** Projecting a merged snapshot to the lean fields gives back the lean read, in order. */
  lemma ProjectionIsLeanRead(lean: seq<Node>, src: Sources, lt: Order)
    requires Merge(lean, src, lt).Merged?
    ensures var nodes, ls := Merge(lean, src, lt).nodes, Identified(lean);
      && |nodes| == |ls|
      && forall i :: 0 <= i < |ls| ==>
        && NodeId(nodes[i]) == NodeId(ls[i]) && CreativeId(nodes[i]) == CreativeId(ls[i])
        && PrintsAlike(ls[i], nodes[i], lt)
        && Get(nodes[i], "status") == Get(ls[i], "status") && Get(nodes[i], "effective_status") == Get(ls[i], "effective_status")
  {
    MergedPointwise(lean, src, lt);
    var nodes, ls := Merge(lean, src, lt).nodes, Identified(lean);
    forall i | 0 <= i < |ls|
      ensures NodeId(nodes[i]) == NodeId(ls[i]) && CreativeId(nodes[i]) == CreativeId(ls[i])
      ensures PrintsAlike(ls[i], nodes[i], lt)
      ensures Get(nodes[i], "status") == Get(ls[i], "status") && Get(nodes[i], "effective_status") == Get(ls[i], "effective_status")
    {
      MergedFields(ls[i], nodes[i], src, lt);
    }
  }

  /** Nodes that share a creative id the delta or storage knows carry one and the same expansion. */
  lemma SharedCreativesAgree(lean: seq<Node>, src: Sources, lt: Order, i: nat, j: nat)
    requires Merge(lean, src, lt).Merged?
    requires var nodes := Merge(lean, src, lt).nodes;
      && i < |nodes| && j < |nodes|
      && CreativeId(nodes[i]).Some? && CreativeId(nodes[i]) == CreativeId(nodes[j])
      && CreativeId(nodes[i]).value in Table(src.delta, src.creatives)
    ensures var nodes := Merge(lean, src, lt).nodes;
      Get(nodes[i], "creative") == Get(nodes[j], "creative")
      == Table(src.delta, src.creatives)[CreativeId(nodes[i]).value]
  {
    MergedPointwise(lean, src, lt);
    var nodes, ls := Merge(lean, src, lt).nodes, Identified(lean);
    MergedFields(ls[i], nodes[i], src, lt);
    MergedFields(ls[j], nodes[j], src, lt);
  }

  /** Merging a snapshot again, with no delta and the same creative table, changes nothing. */
  lemma MergeIsFixpoint(lean: seq<Node>, src: Sources, creatives: seq<Value>, lt: Order)
    requires Merge(lean, src, lt).Merged?
    requires StoredTable(creatives) == Table(src.delta, src.creatives)
    ensures var nodes := Merge(lean, src, lt).nodes;
      Merge(lean, Sources([], nodes, creatives), lt) == Merged(nodes)
  {
    MergedPointwise(lean, src, lt);
    var nodes, ls := Merge(lean, src, lt).nodes, Identified(lean);
    var again := Sources([], nodes, creatives);
    forall i | 0 <= i < |ls| ensures MergesTo(ls[i], nodes[i], again, lt) {
      var id := NodeId(ls[i]).value;
      MergedFields(ls[i], nodes[i], src, lt);
      ByIdFinds(nodes, nodes[i]);
      ByIdHasId(nodes, id);
      var j :| 0 <= j < |nodes| && nodes[j] == ById(nodes)[id];
      MergedFields(ls[j], nodes[j], src, lt);
      RePatch(Base(src, id).value, Table(src.delta, src.creatives), ls[j], ls[i], nodes[j]);
    }
    PointwiseMerged(lean, nodes, again, lt);
  }

  lemma RePatch(base: Node, table: map<string, Value>, l: Node, l': Node, node: Node)
    requires node == Patch(base, table, l) && CreativeId(node) == CreativeId(base)
    ensures Patch(node, table, l') == Patch(base, table, l')
  {}

  /** Such a stored list exists: the stored creatives followed by the delta's own. */
  function DeltaCreatives(delta: seq<Node>): seq<Value> {
    if delta == [] then []
    else
      var rest, last := DeltaCreatives(delta[..|delta| - 1]), delta[|delta| - 1];
      if CreativeId(last).Some? then rest + [Get(last, "creative")] else rest
  }

  lemma {:induction false} TableAsStored(delta: seq<Node>, creatives: seq<Value>)
    ensures StoredTable(creatives + DeltaCreatives(delta)) == Table(delta, creatives)
  {
    if delta == [] {
      assert creatives + [] == creatives;
    } else {
      var init, last := delta[..|delta| - 1], delta[|delta| - 1];
      TableAsStored(init, creatives);
      if CreativeId(last).Some? {
        var all := creatives + DeltaCreatives(delta);
        assert all[..|all| - 1] == creatives + DeltaCreatives(init);
      }
    }
  }

  // ----- The lean snapshot refines the heavy read -----

  ghost predicate SameNode(a: Node, b: Node, lt: Order) {
    forall k :: SameJson(Get(a, k), Get(b, k), lt)
  }

  lemma {:induction false} LookupIsMember(ms: seq<Member>, key: string)
    requires DistinctKeys(ms)
    ensures Lookup(ms, key) != Undefined ==> Member(key, Lookup(ms, key)) in ms
    ensures forall m :: m in ms && m.key == key ==> m.value == Lookup(ms, key)
  {
    if ms != [] {
      LookupIsMember(ms[1..], key);
      forall m | m in ms && m.key == key ensures m.value == Lookup(ms, key) {
        var j :| 0 <= j < |ms| && ms[j] == m;
        assert j > 0 ==> m == ms[1..][j - 1];
      }
    }
  }

  function MeaningId(m: Meaning): Option<string> {
    if m.MObj? && "id" in m.members && m.members["id"].MStr? && m.members["id"].s != "" then Some(m.members["id"].s)
    else None
  }

  lemma IdFromMeaning(v: Value)
    requires Proper(v)
    ensures CreativeValueId(v) == MeaningId(Means(v, {}))
  {
    if v.Obj? {
      LookupIsMember(v.members, "id");
      MeaningKeys(v.members, v, {}, "id");
      var found := Lookup(v.members, "id");
      if found != Undefined { MemberMeaning(v.members, v, {}, Member("id", found)); }
    }
  }

  /** Creatives with equal texts name the same creative. */
  lemma SameJsonSameCreative(a: Value, b: Value, lt: Order)
    requires StrictTotal(lt) && Proper(a) && Proper(b) && SameJson(a, b, lt)
    ensures CreativeValueId(a) == CreativeValueId(b)
  {
    CanonicalTextIsMeaning(a, {}, b, {}, lt);
    IdFromMeaning(a);
    IdFromMeaning(b);
  }

  /** The lean read's view of an ad agrees with the heavy read's. */
  ghost predicate LeanAgrees(l: Node, h: Node, lt: Order) {
    && SameFixedFields(l, h, lt) && CreativeId(l) == CreativeId(h)
    && forall k :: IsStatusKey(k) ==> SameJson(Get(l, k), Get(h, k), lt)
  }

  /** Where the heavy node's fields can be found without reading it: a delta node differs from it in
      status only, a stored one in status and creative expansion, and the creative table is current. */
  ghost predicate Explained(id: string, h: Node, src: Sources, lt: Order) {
    var base, table, cid := Base(src, id), Table(src.delta, src.creatives), CreativeId(h);
    && (base.Some? ==>
      && Proper(Get(base.value, "creative"))
      && (forall k :: !IsStatusKey(k) && k != "creative" ==> SameJson(Get(base.value, k), Get(h, k), lt))
      && (if id in ById(src.delta) then SameJson(Get(base.value, "creative"), Get(h, "creative"), lt)
          else
            && CreativeId(base.value) == cid
            && ((cid.Some? && cid.value in table) || SameJson(Get(base.value, "creative"), Get(h, "creative"), lt))))
    && (cid.Some? && cid.value in table ==> SameJson(table[cid.value], Get(h, "creative"), lt))
  }

  ghost predicate Faithful(lean: seq<Node>, src: Sources, heavy: seq<Node>, lt: Order) {
    forall l :: l in Identified(lean) ==>
      var id := NodeId(l).value;
      && id in ById(heavy) && Proper(Get(ById(heavy)[id], "creative"))
      && LeanAgrees(l, ById(heavy)[id], lt) && Explained(id, ById(heavy)[id], src, lt)
  }

  /** What one lean node merges to, given a faithful account: the heavy node, unless the ad is in
      neither the delta nor storage. */
  lemma MergeOneRefines(l: Node, h: Node, src: Sources, lt: Order)
    requires StrictTotal(lt) && NodeId(l).Some? && Proper(Get(h, "creative"))
    requires LeanAgrees(l, h, lt) && Explained(NodeId(l).value, h, src, lt)
    ensures var id := NodeId(l).value;
      var one := MergeOne(l, id, src, Table(src.delta, src.creatives), lt);
      if Base(src, id).Some? then one.Merged? && SameNode(one.nodes[0], h, lt) else one == NeedsFull(UnknownAd, id)
  {
    var id := NodeId(l).value;
    if Base(src, id).Some? {
      var base, table := Base(src, id).value, Table(src.delta, src.creatives);
      if id in ById(src.delta) { SameJsonSameCreative(Get(base, "creative"), Get(h, "creative"), lt); }
      assert CreativeId(base) == CreativeId(l);
      forall i | 0 <= i < |FIXED_KEYS|
        ensures SameJson(Get(l, FIXED_KEYS[i]), Get(base, FIXED_KEYS[i]), lt)
      {
        assert SameJson(Get(l, FIXED_KEYS[i]), Get(h, FIXED_KEYS[i]), lt);
        assert !IsStatusKey(FIXED_KEYS[i]) && FIXED_KEYS[i] != "creative";
      }
      var node := Patch(base, table, l);
      PatchFields(base, table, l);
      forall k ensures SameJson(Get(node, k), Get(h, k), lt) {
        if IsStatusKey(k) { assert Get(node, k) == Get(l, k); }
      }
    }
  }

  /** Given a faithful account, the merge needs the heavy read exactly when some ad is in neither the
      delta nor storage; otherwise it returns the heavy nodes in lean order, all of them exactly when the lean
      read returned all of their ids. */
  lemma MergeRefinesHeavy(lean: seq<Node>, src: Sources, heavy: seq<Node>, lt: Order)
    requires StrictTotal(lt) && Faithful(lean, src, heavy, lt)
    ensures var merged, ls := Merge(lean, src, lt), Identified(lean);
      && (merged.Merged? <==> forall i :: 0 <= i < |ls| ==> Base(src, NodeId(ls[i]).value).Some?)
      && (merged.NeedsFull? ==> merged.reason == UnknownAd)
      && (merged.Merged? ==>
        && |merged.nodes| == |ls|
        && IdsOf(merged.nodes) == IdsOf(lean)
        && (IdsOf(merged.nodes) == IdsOf(heavy) <==> IdsOf(lean) == IdsOf(heavy))
        && forall i :: 0 <= i < |ls| ==> SameNode(merged.nodes[i], ById(heavy)[NodeId(ls[i]).value], lt))
  {
    var merged, ls := Merge(lean, src, lt), Identified(lean);
    if merged.NeedsFull? {
      var i := NeedsFullAt(lean, src, lt);
      MergeOneRefines(ls[i], ById(heavy)[NodeId(ls[i]).value], src, lt);
    } else {
      MergedPointwise(lean, src, lt);
      MembershipIsLeanRead(lean, src, lt);
      forall i | 0 <= i < |ls|
        ensures Base(src, NodeId(ls[i]).value).Some?
        ensures SameNode(merged.nodes[i], ById(heavy)[NodeId(ls[i]).value], lt)
      {
        MergeOneRefines(ls[i], ById(heavy)[NodeId(ls[i]).value], src, lt);
      }
    }
  }

  // ----- The full-scan ad read -----

  datatype Fallback = NoFallback | NotLean(reason: string) | NoStoredAds | CouldNotMerge(why: Reason)

  datatype Snapshot = Snapshot(nodes: seq<Node>, heavy: bool, fallback: Fallback)

  function Normalized(nodes: seq<Node>, normalize: Node -> Node): seq<Node> {
    seq(|nodes|, i requires 0 <= i < |nodes| => normalize(nodes[i]))
  }

  /** `readDelta` answers the heavy read since a second; `normalize` scrubs a fresh node into stored form. */
  function ReadSnapshot(
    plan: FullPlan, stored: seq<Node>, creatives: seq<Value>,
    readHeavy: seq<Node>, readDelta: int -> seq<Node>, readLean: seq<Node>,
    normalize: Node -> Node, lt: Order): Snapshot
  {
    if plan.Heavy? then Snapshot(readHeavy, true, NotLean(plan.reason))
    else if stored == [] then Snapshot(readHeavy, true, NoStoredAds)
    else
      var src := Sources(Normalized(readDelta(plan.updatedSince), normalize), stored, creatives);
      match Merge(Normalized(readLean, normalize), src, lt)
      case Merged(nodes) => Snapshot(nodes, false, NoFallback)
      case NeedsFull(reason, _) => Snapshot(readHeavy, true, CouldNotMerge(reason))
  }

  /** On every branch the snapshot stands for the heavy read: it is that read, or, when a lean merge
      was possible, its normalized nodes in lean order: those of the ids the lean read returned, which are
      the heavy read's ids exactly when the two reads agree on membership. It falls back exactly when the plan says so,
      storage is empty, or some ad is in neither the delta nor storage. */
  lemma SnapshotRefinesHeavyRead(
    plan: FullPlan, stored: seq<Node>, creatives: seq<Value>,
    readHeavy: seq<Node>, readDelta: int -> seq<Node>, readLean: seq<Node>,
    normalize: Node -> Node, lt: Order)
    requires StrictTotal(lt)
    requires plan.Lean? ==> Faithful(
      Normalized(readLean, normalize),
      Sources(Normalized(readDelta(plan.updatedSince), normalize), stored, creatives),
      Normalized(readHeavy, normalize), lt)
    ensures var got := ReadSnapshot(plan, stored, creatives, readHeavy, readDelta, readLean, normalize, lt);
      && (got.heavy ==> got.nodes == readHeavy)
      && (!got.heavy ==>
        var ls, current := Identified(Normalized(readLean, normalize)), ById(Normalized(readHeavy, normalize));
        && |got.nodes| == |ls|
        && IdsOf(got.nodes) == IdsOf(Normalized(readLean, normalize))
        && (IdsOf(got.nodes) == IdsOf(Normalized(readHeavy, normalize))
            <==> IdsOf(Normalized(readLean, normalize)) == IdsOf(Normalized(readHeavy, normalize)))
        && forall i :: 0 <= i < |ls| ==> SameNode(got.nodes[i], current[NodeId(ls[i]).value], lt))
      && (!got.heavy <==>
        && plan.Lean? && stored != []
        && var src := Sources(Normalized(readDelta(plan.updatedSince), normalize), stored, creatives);
           var ls := Identified(Normalized(readLean, normalize));
           forall i :: 0 <= i < |ls| ==> Base(src, NodeId(ls[i]).value).Some?)
  {
    if plan.Lean? {
      var src := Sources(Normalized(readDelta(plan.updatedSince), normalize), stored, creatives);
      MergeRefinesHeavy(Normalized(readLean, normalize), src, Normalized(readHeavy, normalize), lt);
    }
  }
}
