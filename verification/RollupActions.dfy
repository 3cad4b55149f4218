/** Action lists, summed per type and attribution window. */
module RollupActions {
  import opened Options
  import opened RollupSums

  /** `fields` holds every member but the action type: `value` and the windows. */
  datatype Element = Element(actionType: Option<string>, fields: map<string, Raw>)

  type Table = map<string, Sums>

  const CLICK := "7d_click"
  const VIEW := "1d_view"
  const VALUE := "value"

  predicate Given(fields: map<string, Raw>, key: string) {
    key in fields && fields[key] != Undefined
  }

  /** A headline `value` without window keys counts as the 7-day click window. */
  function Normalized(e: Element): map<string, Raw> {
    if Given(e.fields, CLICK) || Given(e.fields, VIEW) || !Given(e.fields, VALUE) then e.fields
    else e.fields[CLICK := e.fields[VALUE]]
  }

  predicate Counted(raw: Raw) {
    raw != Undefined && raw != Null
  }

  function Contribution(e: Element): Sums {
    var n := Normalized(e);
    map k | k in n && k != "action_type" && Counted(n[k]) :: Finite(n[k])
  }

  predicate IsTyped(e: Element) {
    NonEmpty(e.actionType).Some?
  }

  predicate AllTyped(es: seq<Element>) {
    forall i :: 0 <= i < |es| ==> IsTyped(es[i])
  }

  predicate HasKey(e: Element, t: string, k: string) {
    NonEmpty(e.actionType) == Some(t) && k in Contribution(e)
  }

  function AmountOf(t: string, k: string): Element -> real {
    (e: Element) => if HasKey(e, t, k) then Contribution(e)[k] else 0.0
  }

  function Types(es: seq<Element>): set<string> {
    set e | e in es && IsTyped(e) :: NonEmpty(e.actionType).value
  }

  function Keys(es: seq<Element>, t: string): set<string> {
    set e, k | e in es && k in Contribution(e) && NonEmpty(e.actionType) == Some(t) :: k
  }

  /** One entry per type that occurs, one per window any element of the type counts, each the total. */
  function TableOf(es: seq<Element>): Table {
    map t | t in Types(es) :: map k | k in Keys(es, t) :: SumBy(AmountOf(t, k), es)
  }

  function EntryOf(table: Table, t: string): Sums {
    if t in table then table[t] else map[]
  }

  lemma SumsOfAbsent(es: seq<Element>, t: string, k: string)
    requires k !in Keys(es, t)
    ensures SumBy(AmountOf(t, k), es) == 0.0
  {
    if es != [] {
      assert forall e :: e in es[..|es| - 1] ==> e in es;
      assert k !in Keys(es[..|es| - 1], t);
      SumsOfAbsent(es[..|es| - 1], t, k);
      assert es[|es| - 1] in es;
    }
  }

  lemma KeysSnoc(es: seq<Element>, e: Element, t: string)
    ensures Keys(es + [e], t) == Keys(es, t) + (if NonEmpty(e.actionType) == Some(t) then Contribution(e).Keys else {})
  {
  }

  lemma TypesSnoc(es: seq<Element>, e: Element)
    requires IsTyped(e)
    ensures Types(es + [e]) == Types(es) + {NonEmpty(e.actionType).value}
  {
  }

  lemma TableEntry(es: seq<Element>, t: string, k: string)
    ensures t in Types(es) || Keys(es, t) == {}
    ensures AtKey(EntryOf(TableOf(es), t), k) == SumBy(AmountOf(t, k), es)
    ensures k in EntryOf(TableOf(es), t) <==> k in Keys(es, t)
  {
    if k !in Keys(es, t) { SumsOfAbsent(es, t, k); }
  }

  lemma KeyOfTableSnoc(es: seq<Element>, e: Element, t: string, k: string)
    ensures var now, was := EntryOf(TableOf(es + [e]), t), EntryOf(TableOf(es), t);
      && (k in now <==> k in was || HasKey(e, t, k))
      && AtKey(now, k) == AtKey(was, k) + AmountOf(t, k)(e)
  {
    KeysSnoc(es, e, t);
    SumSnoc(AmountOf(t, k), es, e);
    TableEntry(es, t, k);
    TableEntry(es + [e], t, k);
  }

  lemma KeyOfExpected(was: Sums, e: Element, t: string, k: string)
    ensures var expected := if NonEmpty(e.actionType) == Some(t) then AddTo(was, Contribution(e)) else was;
      && (k in expected <==> k in was || HasKey(e, t, k))
      && AtKey(expected, k) == AtKey(was, k) + AmountOf(t, k)(e)
  {
  }

  lemma RowOfTableSnoc(es: seq<Element>, e: Element, t: string)
    ensures EntryOf(TableOf(es + [e]), t) ==
      if NonEmpty(e.actionType) == Some(t) then AddTo(EntryOf(TableOf(es), t), Contribution(e)) else EntryOf(TableOf(es), t)
  {
    var now, was := EntryOf(TableOf(es + [e]), t), EntryOf(TableOf(es), t);
    var expected := if NonEmpty(e.actionType) == Some(t) then AddTo(was, Contribution(e)) else was;
    forall k ensures (k in now <==> k in expected) && AtKey(now, k) == AtKey(expected, k) {
      KeyOfTableSnoc(es, e, t, k);
      KeyOfExpected(was, e, t, k);
    }
    SameSums(now, expected);
  }

  /** The running table: adding an element adds its contribution to its type's sums. */
  lemma TableSnoc(es: seq<Element>, e: Element)
    requires IsTyped(e)
    ensures var t := NonEmpty(e.actionType).value;
      TableOf(es + [e]) == TableOf(es)[t := AddTo(EntryOf(TableOf(es), t), Contribution(e))]
  {
    TypesSnoc(es, e);
    forall t | t in TableOf(es + [e])
      ensures TableOf(es + [e])[t] == EntryOf(TableOf(es + [e]), t)
      ensures EntryOf(TableOf(es + [e]), t) ==
        if NonEmpty(e.actionType) == Some(t) then AddTo(EntryOf(TableOf(es), t), Contribution(e)) else EntryOf(TableOf(es), t)
    {
      RowOfTableSnoc(es, e, t);
    }
  }

  /** The table does not depend on the order of the elements. */
  lemma TableOfPermutation(es: seq<Element>, fs: seq<Element>)
    requires multiset(es) == multiset(fs)
    ensures TableOf(es) == TableOf(fs)
  {
    forall e ensures e in es <==> e in fs { assert e in multiset(es) <==> e in multiset(fs); }
    assert Types(es) == Types(fs);
    forall t | t in Types(es) ensures TableOf(es)[t] == TableOf(fs)[t] {
      assert Keys(es, t) == Keys(fs, t);
      forall k | k in Keys(es, t) ensures SumBy(AmountOf(t, k), es) == SumBy(AmountOf(t, k), fs) {
        SumOfPermutation(AmountOf(t, k), es, fs);
      }
    }
  }

  lemma TypesInSnoc(es: seq<Element>, e: Element)
    requires e.actionType.Some?
    ensures TypesIn(es + [e]) == TypesIn(es) + [e.actionType.value]
  {
  }

  class ActionAccumulator {
    var byType: Table
    ghost var seen: seq<Element>

    ghost predicate Valid()
      reads this
    {
      byType == TableOf(seen)
    }

    constructor ()
      ensures Valid() && seen == []
    {
      byType := map[];
      seen := [];
    }

    /** Fails on the first element without a type; otherwise the sums are those of all elements so far. */
    method Add(elements: seq<Element>) returns (ok: bool)
      requires Valid()
      modifies this
      ensures ok <==> AllTyped(elements)
      ensures ok ==> Valid() && seen == old(seen) + elements
    {
      for i := 0 to |elements|
        invariant Valid() && seen == old(seen) + elements[..i] && AllTyped(elements[..i])
      {
        var e := elements[i];
        var t := NonEmpty(e.actionType);
        if t.None? {
          return false;
        }
        var sums := AddElement(EntryOf(byType, t.value), e);
        byType := byType[t.value := sums];
        TableSnoc(seen, e);
        seen := seen + [e];
        assert elements[..i + 1] == elements[..i] + [e];
      }
      assert elements[..|elements|] == elements;
      return true;
    }

    /** The rounded totals as elements, one per type. */
    method Elements() returns (out: seq<Element>)
      requires Valid()
      ensures Lists(out, Rounded(TableOf(seen)))
    {
      out := [];
      var types := byType.Keys;
      while types != {}
        invariant types <= byType.Keys
        invariant forall i :: 0 <= i < |out| ==> ListsType(out[i], Rounded(byType))
        invariant forall t :: t in types ==> t !in TypesIn(out)
        invariant Distinct(TypesIn(out))
        invariant forall t :: t in byType && t !in types ==> t in TypesIn(out)
        decreases types
      {
        var t :| t in types;
        var e := Element(Some(t), AsFields(RoundedSums(byType[t])));
        TypesInSnoc(out, e);
        DistinctSnoc(TypesIn(out), t);
        out := out + [e];
        types := types - {t};
      }
    }
  }

  /** Adds one element's windows to its type's sums, key by key. */
  method AddElement(start: Sums, e: Element) returns (sums: Sums)
    ensures sums == AddTo(start, Contribution(e))
  {
    var normalized := Normalized(e);
    sums := start;
    var keys := normalized.Keys;
    ghost var done: set<string> := {};
    while keys != {}
      invariant keys <= normalized.Keys && done == normalized.Keys - keys
      invariant sums.Keys == start.Keys + (Contribution(e).Keys * done)
      invariant forall k :: k in sums ==>
        sums[k] == AtKey(start, k) + (if k in done then AtKey(Contribution(e), k) else 0.0)
      decreases keys
    {
      var key :| key in keys;
      var raw := normalized[key];
      if key != "action_type" && Counted(raw) {
        sums := sums[key := AtKey(sums, key) + Finite(raw)];
      }
      keys, done := keys - {key}, done + {key};
    }
    assert Contribution(e).Keys * done == Contribution(e).Keys;
  }

  // ----- The derived list -----

  function RoundedSums(sums: Sums): Sums {
    map k | k in sums :: RoundSum(sums[k])
  }

  function Rounded(table: Table): Table {
    map t | t in table :: RoundedSums(table[t])
  }

  function AsFields(sums: Sums): map<string, Raw> {
    map k | k in sums :: Num(sums[k])
  }

  predicate ListsType(e: Element, table: Table) {
    e.actionType.Some? && e.actionType.value in table && e.fields == AsFields(table[e.actionType.value])
  }

  function TypesIn(es: seq<Element>): seq<string> {
    seq(|es|, i requires 0 <= i < |es| => if es[i].actionType.Some? then es[i].actionType.value else "")
  }

  /** The elements are a table's entries, each once, in some order. */
  predicate Lists(es: seq<Element>, table: Table) {
    && (forall i :: 0 <= i < |es| ==> ListsType(es[i], table))
    && Distinct(TypesIn(es))
    && forall t :: t in table ==> t in TypesIn(es)
  }

  /** Totals that carry a `value` but neither headline window. */
  predicate Bare(sums: Sums) {
    VALUE in sums && CLICK !in sums && VIEW !in sums
  }

  /** What derived sums count for when they are read again. */
  function Reread(sums: Sums): Sums {
    if Bare(sums) then sums[CLICK := sums[VALUE]] else sums
  }

  predicate RealTypes(table: Table) {
    forall t :: t in table ==> t != "" && "action_type" !in table[t]
  }

  lemma TableIsReal(es: seq<Element>)
    ensures RealTypes(TableOf(es)) && RealTypes(Rounded(TableOf(es)))
  {
  }

  lemma ContributionOfDerived(t: string, sums: Sums)
    requires t != "" && "action_type" !in sums
    ensures Contribution(Element(Some(t), AsFields(sums))) == Reread(sums)
  {
  }

  lemma AmountOfDerived(t: string, k: string, last: string, sums: Sums)
    requires last != "" && "action_type" !in sums
    ensures AmountOf(t, k)(Element(Some(last), AsFields(sums))) == if t == last then AtKey(Reread(sums), k) else 0.0
  {
    ContributionOfDerived(last, sums);
  }

  /** Reading a listing of a table back gives the table, bare totals pinned. */
  lemma {:induction false} TotalOfListing(es: seq<Element>, table: Table, t: string, k: string)
    requires RealTypes(table) && Distinct(TypesIn(es)) && forall i :: 0 <= i < |es| ==> ListsType(es[i], table)
    ensures SumBy(AmountOf(t, k), es) == if t in TypesIn(es) then AtKey(Reread(EntryOf(table, t)), k) else 0.0
  {
    if es != [] {
      var n := |es| - 1;
      var last := es[n].actionType.value;
      assert TypesIn(es) == TypesIn(es[..n]) + [last];
      DistinctSnoc(TypesIn(es[..n]), last);
      TotalOfListing(es[..n], table, t, k);
      AmountOfDerived(t, k, last, table[last]);
      assert es[n] == Element(Some(last), AsFields(table[last]));
    }
  }

  lemma RereadListing(es: seq<Element>, table: Table, t: string, k: string)
    requires RealTypes(table) && Lists(es, table)
    ensures AllTyped(es) && Types(es) == table.Keys
    ensures k in Keys(es, t) <==> t in table && k in Reread(table[t])
    ensures SumBy(AmountOf(t, k), es) == AtKey(Reread(EntryOf(table, t)), k)
  {
    RereadAmount(es, table, t, k);
    RereadTypes(es, table);
    RereadKeys(es, table, t, k);
  }

  lemma RereadAmount(es: seq<Element>, table: Table, t: string, k: string)
    requires RealTypes(table) && Lists(es, table)
    ensures SumBy(AmountOf(t, k), es) == AtKey(Reread(EntryOf(table, t)), k)
  {
    TotalOfListing(es, table, t, k);
    ListedTypes(es, table, t);
  }

  lemma RereadKeys(es: seq<Element>, table: Table, t: string, k: string)
    requires RealTypes(table) && Lists(es, table)
    ensures k in Keys(es, t) <==> t in table && k in Reread(table[t])
  {
    RereadTypes(es, table);
    if t in table { KeysOfListing(es, table, t); } else { TableEntry(es, t, k); }
  }

  lemma ListedTypes(es: seq<Element>, table: Table, t: string)
    requires Lists(es, table)
    ensures t in TypesIn(es) <==> t in table
  {
    if t in TypesIn(es) {
      var i :| 0 <= i < |TypesIn(es)| && TypesIn(es)[i] == t;
      assert ListsType(es[i], table);
    }
  }

  lemma RereadTypes(es: seq<Element>, table: Table)
    requires RealTypes(table) && Lists(es, table)
    ensures AllTyped(es) && Types(es) == table.Keys
  {
    forall i | 0 <= i < |es| ensures IsTyped(es[i]) { assert ListsType(es[i], table); }
    forall u ensures u in Types(es) <==> u in table { ListingTypes(es, table, u); }
  }

  lemma ListingTypes(es: seq<Element>, table: Table, t: string)
    requires RealTypes(table) && Lists(es, table)
    ensures t in Types(es) <==> t in table
    ensures t in table ==> Element(Some(t), AsFields(table[t])) in es && t in TypesIn(es)
  {
    if t in table {
      assert t in TypesIn(es);
      var i :| 0 <= i < |es| && TypesIn(es)[i] == t;
      assert es[i] in es && es[i] == Element(Some(t), AsFields(table[t])) && IsTyped(es[i]);
    }
  }

  lemma KeysOfListing(es: seq<Element>, table: Table, t: string)
    requires RealTypes(table) && Lists(es, table) && t in table
    ensures Keys(es, t) == Reread(table[t]).Keys
  {
    ContributionOfDerived(t, table[t]);
    ListingTypes(es, table, t);
    forall e | e in es && NonEmpty(e.actionType) == Some(t) ensures e == Element(Some(t), AsFields(table[t])) {
      var i :| 0 <= i < |es| && es[i] == e;
      assert ListsType(es[i], table);
    }
  }
}
