/** Action sums at two levels, and the one kind of element that breaks them. */
module RollupActionLevels {
  import opened Options
  import opened RollupSums
  import opened RollupActions
  import opened HotRollup
  import opened RollupLevels

  // ----- By row -----

  function RowAmount(kind: Kind, t: string, k: string): Row -> real {
    (row: Row) => SumBy(AmountOf(t, k), ElementsOf(kind, row))
  }

  predicate RowHas(kind: Kind, row: Row, t: string, k: string) {
    k in Keys(ElementsOf(kind, row), t)
  }

  predicate RowHasType(kind: Kind, row: Row, t: string) {
    t in Types(ElementsOf(kind, row))
  }

  /** A type's window totals over a group. */
  function SumsFor(kind: Kind, rows: seq<Row>, t: string): Sums {
    EntryOf(TableOf(Flat(kind, rows)), t)
  }

  lemma {:induction false} FlatSum(kind: Kind, rows: seq<Row>, t: string, k: string)
    ensures SumBy(AmountOf(t, k), Flat(kind, rows)) == SumBy(RowAmount(kind, t, k), rows)
  {
    if rows != [] {
      FlatSum(kind, rows[..|rows| - 1], t, k);
      SumConcat(AmountOf(t, k), Flat(kind, rows[..|rows| - 1]), ElementsOf(kind, rows[|rows| - 1]));
    }
  }

  lemma {:induction false} InFlat(kind: Kind, rows: seq<Row>, e: Element)
    ensures e in Flat(kind, rows) <==> exists x :: x in rows && e in ElementsOf(kind, x)
  {
    if rows != [] {
      InFlat(kind, rows[..|rows| - 1], e);
      assert rows == rows[..|rows| - 1] + [rows[|rows| - 1]];
    }
  }

  lemma FlatHas(kind: Kind, rows: seq<Row>, t: string, k: string)
    ensures k !in Keys(Flat(kind, rows), t) <==> forall x :: x in rows ==> !RowHas(kind, x, t, k)
  {
    forall e ensures e in Flat(kind, rows) <==> exists x :: x in rows && e in ElementsOf(kind, x) { InFlat(kind, rows, e); }
  }

  lemma FlatHasType(kind: Kind, rows: seq<Row>, t: string)
    ensures t !in Types(Flat(kind, rows)) <==> forall x :: x in rows ==> !RowHasType(kind, x, t)
  {
    forall e ensures e in Flat(kind, rows) <==> exists x :: x in rows && e in ElementsOf(kind, x) { InFlat(kind, rows, e); }
  }

  lemma SumsByRow(kind: Kind, rows: seq<Row>, t: string, k: string)
    ensures AtKey(SumsFor(kind, rows, t), k) == SumBy(RowAmount(kind, t, k), rows)
    ensures k !in SumsFor(kind, rows, t) <==> forall x :: x in rows ==> !RowHas(kind, x, t, k)
  {
    TableEntry(Flat(kind, rows), t, k);
    FlatSum(kind, rows, t, k);
    FlatHas(kind, rows, t, k);
  }

  // ----- One ad set -----

  ghost predicate MicroActions(kind: Kind, rows: seq<Row>) {
    forall i, t, k :: 0 <= i < |rows| ==> IsMicro(RowAmount(kind, t, k)(rows[i]))
  }

  ghost predicate MicroSums(sums: Sums) {
    forall k :: IsMicro(AtKey(sums, k))
  }

  lemma RoundedMicros(sums: Sums)
    requires MicroSums(sums)
    ensures RoundedSums(sums) == sums
  {
    forall k | k in sums ensures RoundSum(sums[k]) == sums[k] {
      assert IsMicro(AtKey(sums, k));
      RoundSumKeepsMicros(sums[k]);
    }
  }

  lemma RoundedTable(kind: Kind, rows: seq<Row>)
    requires forall t :: MicroSums(SumsFor(kind, rows, t))
    ensures Rounded(TableOf(Flat(kind, rows))) == TableOf(Flat(kind, rows))
  {
    var table := TableOf(Flat(kind, rows));
    forall t | t in table ensures RoundedSums(table[t]) == table[t] {
      assert SumsFor(kind, rows, t) == table[t];
      RoundedMicros(table[t]);
    }
  }

  /** What a derived list counts for when it is read again: the ad set's sums, bare ones pinned. */
  lemma OnePart(kind: Kind, part: seq<Row>, d: Derived, t: string, k: string)
    requires ListsActions(kind, ListOf(kind, AsRow(d)), part) && forall u :: MicroSums(SumsFor(kind, part, u))
    ensures RowHasType(kind, AsRow(d), t) <==> t in Types(Flat(kind, part))
    ensures RowHas(kind, AsRow(d), t, k) <==> k in Reread(SumsFor(kind, part, t))
    ensures RowAmount(kind, t, k)(AsRow(d)) == AtKey(Reread(SumsFor(kind, part, t)), k)
  {
    var es, table := ElementsOf(kind, AsRow(d)), TableOf(Flat(kind, part));
    RoundedTable(kind, part);
    TableIsReal(Flat(kind, part));
    if ListOf(kind, AsRow(d)).Some? {
      RereadListing(es, table, t, k);
    } else {
      NoListNoElements(kind, part);
    }
  }

  /** The headline windows of a bare ad set's list, read again: its `value` a second time. */
  function BareValue(kind: Kind, rows: seq<Row>, t: string): string -> real {
    (id: string) =>
      var sums := SumsFor(kind, Part(rows, id), t);
      if Bare(sums) then sums[VALUE] else 0.0
  }

  predicate BareIn(kind: Kind, rows: seq<Row>, id: string, t: string) {
    Bare(SumsFor(kind, Part(rows, id), t))
  }

  lemma RereadAt(sums: Sums, k: string)
    ensures AtKey(Reread(sums), k) == AtKey(sums, k) + (if k == CLICK && Bare(sums) then sums[VALUE] else 0.0)
    ensures k in Reread(sums) <==> k in sums || (k == CLICK && Bare(sums))
  {
  }

  // ----- Two levels -----

  ghost predicate ListsDerived(kind: Kind, rows: seq<Row>, ids: seq<string>, ds: seq<Derived>) {
    && Parted(rows, ids) && |ids| == |ds| && MicroActions(kind, rows)
    && forall i :: 0 <= i < |ids| ==> ListsActions(kind, ListOf(kind, AsRow(ds[i])), Part(rows, ids[i]))
  }

  lemma PartMicros(kind: Kind, rows: seq<Row>, id: string, t: string)
    requires MicroActions(kind, rows)
    ensures MicroSums(SumsFor(kind, Part(rows, id), t))
  {
    forall k ensures IsMicro(AtKey(SumsFor(kind, Part(rows, id), t), k)) {
      SumsByRow(kind, Part(rows, id), t, k);
      PartsKeepMicros(rows, id, RowAmount(kind, t, k));
    }
  }

  lemma DerivedPart(kind: Kind, rows: seq<Row>, ids: seq<string>, ds: seq<Derived>, i: nat, t: string, k: string)
    requires ListsDerived(kind, rows, ids, ds) && i < |ids|
    ensures var part := Part(rows, ids[i]);
      && (RowHasType(kind, AsRow(ds[i]), t) <==> t in Types(Flat(kind, part)))
      && (RowHas(kind, AsRow(ds[i]), t, k) <==> k in SumsFor(kind, part, t) || (k == CLICK && BareIn(kind, rows, ids[i], t)))
      && RowAmount(kind, t, k)(AsRow(ds[i])) ==
           SumBy(RowAmount(kind, t, k), part) + (if k == CLICK then BareValue(kind, rows, t)(ids[i]) else 0.0)
  {
    var part := Part(rows, ids[i]);
    forall u ensures MicroSums(SumsFor(kind, part, u)) { PartMicros(kind, rows, ids[i], u); }
    OnePart(kind, part, ds[i], t, k);
    RereadAt(SumsFor(kind, part, t), k);
    SumsByRow(kind, part, t, k);
  }

  /** Every window but the 7-day click adds up; that one also counts the bare values again. */
  lemma AmountLevels(kind: Kind, rows: seq<Row>, ids: seq<string>, ds: seq<Derived>, t: string, k: string)
    requires ListsDerived(kind, rows, ids, ds)
    ensures SumBy(RowAmount(kind, t, k), AsRows(ds)) ==
      SumBy(RowAmount(kind, t, k), rows) + (if k == CLICK then SumBy(BareValue(kind, rows, t), ids) else 0.0)
  {
    var f := RowAmount(kind, t, k);
    var once := GroupTotal(f, IdOf(Adset), rows);
    var again := if k == CLICK then Plus(once, BareValue(kind, rows, t)) else once;
    forall i | 0 <= i < |ids| ensures f(AsRows(ds)[i]) == again(ids[i]) {
      DerivedPart(kind, rows, ids, ds, i, t, k);
    }
    SumPointwise(f, AsRows(ds), again, ids);
    SumPlus(once, BareValue(kind, rows, t), ids);
    SumOfGroups(f, IdOf(Adset), ids, rows);
  }

  lemma TypeLevels(kind: Kind, rows: seq<Row>, ids: seq<string>, ds: seq<Derived>, t: string)
    requires ListsDerived(kind, rows, ids, ds)
    ensures t in Types(Flat(kind, AsRows(ds))) <==> t in Types(Flat(kind, rows))
  {
    var lacks := (x: Row) => !RowHasType(kind, x, t);
    forall i | 0 <= i < |ids| ensures lacks(AsRow(ds[i])) <==> forall x :: x in Part(rows, ids[i]) ==> lacks(x) {
      DerivedPart(kind, rows, ids, ds, i, t, "");
      FlatHasType(kind, Part(rows, ids[i]), t);
    }
    EveryLevel(rows, ids, ds, lacks);
    FlatHasType(kind, AsRows(ds), t);
    FlatHasType(kind, rows, t);
  }

  predicate AllLack(kind: Kind, rows: seq<Row>, t: string, k: string) {
    forall x :: x in rows ==> !RowHas(kind, x, t, k)
  }

  lemma PartsLack(kind: Kind, rows: seq<Row>, ids: seq<string>, t: string, k: string)
    requires Parted(rows, ids)
    ensures AllLack(kind, rows, t, k) <==> forall i :: 0 <= i < |ids| ==> AllLack(kind, Part(rows, ids[i]), t, k)
  {
    RowsOfParts(rows, ids, (x: Row) => !RowHas(kind, x, t, k));
  }

  lemma PartLacks(kind: Kind, rows: seq<Row>, ids: seq<string>, ds: seq<Derived>, i: nat, t: string, k: string)
    requires ListsDerived(kind, rows, ids, ds) && i < |ids|
    ensures !RowHas(kind, AsRow(ds[i]), t, k) <==>
      AllLack(kind, Part(rows, ids[i]), t, k) && !(k == CLICK && BareIn(kind, rows, ids[i], t))
  {
    DerivedPart(kind, rows, ids, ds, i, t, k);
    SumsByRow(kind, Part(rows, ids[i]), t, k);
  }

  lemma DerivedLack(kind: Kind, ds: seq<Derived>, t: string, k: string)
    ensures AllLack(kind, AsRows(ds), t, k) <==> forall i :: 0 <= i < |ds| ==> !RowHas(kind, AsRow(ds[i]), t, k)
  {
    forall i | 0 <= i < |ds| ensures AsRow(ds[i]) in AsRows(ds) { assert AsRows(ds)[i] == AsRow(ds[i]); }
  }

  predicate SomeBare(kind: Kind, rows: seq<Row>, ids: seq<string>, t: string) {
    exists i :: 0 <= i < |ids| && BareIn(kind, rows, ids[i], t)
  }

  lemma KeyLevels(kind: Kind, rows: seq<Row>, ids: seq<string>, ds: seq<Derived>, t: string, k: string)
    requires ListsDerived(kind, rows, ids, ds)
    ensures k in SumsFor(kind, AsRows(ds), t) <==>
      k in SumsFor(kind, rows, t) || (k == CLICK && SomeBare(kind, rows, ids, t))
  {
    PartsLack(kind, rows, ids, t, k);
    DerivedLack(kind, ds, t, k);
    SumsByRow(kind, rows, t, k);
    SumsByRow(kind, AsRows(ds), t, k);
    forall i | 0 <= i < |ids|
      ensures !RowHas(kind, AsRow(ds[i]), t, k) <==>
        AllLack(kind, Part(rows, ids[i]), t, k) && !(k == CLICK && BareIn(kind, rows, ids[i], t))
    {
      PartLacks(kind, rows, ids, ds, i, t, k);
    }
  }

  /** The ad sets of a type whose lists carry `value` but no headline window must count for nothing
      more: the click window is there without them, and their values cancel. */
  ghost predicate BareIsHarmless(kind: Kind, rows: seq<Row>, ids: seq<string>, t: string) {
    SomeBare(kind, rows, ids, t) ==>
      CLICK in SumsFor(kind, rows, t) && SumBy(BareValue(kind, rows, t), ids) == 0.0
  }

  lemma NoBareNoValue(kind: Kind, rows: seq<Row>, ids: seq<string>, t: string)
    requires !SomeBare(kind, rows, ids, t)
    ensures SumBy(BareValue(kind, rows, t), ids) == 0.0
  {
    assert forall i :: 0 <= i < |ids| ==> !BareIn(kind, rows, ids[i], t);
    if ids != [] { NoBareNoValue(kind, rows, ids[..|ids| - 1], t); }
  }

  /** Sums that differ at most by one more count of the click window. */
  lemma ClickDiffers(again: Sums, once: Sums, bare: bool, extra: real)
    requires forall k ::
      && (k in again <==> k in once || (k == CLICK && bare))
      && AtKey(again, k) == AtKey(once, k) + (if k == CLICK then extra else 0.0)
    ensures again == once <==> (CLICK in once || !bare) && extra == 0.0
  {
    if (CLICK in once || !bare) && extra == 0.0 { SameSums(again, once); }
    if again == once {
      assert CLICK in again <==> CLICK in once || bare;
      assert AtKey(again, CLICK) == AtKey(once, CLICK) + extra;
    }
  }

  lemma TypeAgreesIff(kind: Kind, rows: seq<Row>, ids: seq<string>, ds: seq<Derived>, t: string)
    requires ListsDerived(kind, rows, ids, ds)
    ensures SumsFor(kind, AsRows(ds), t) == SumsFor(kind, rows, t) <==> BareIsHarmless(kind, rows, ids, t)
  {
    var again, once := SumsFor(kind, AsRows(ds), t), SumsFor(kind, rows, t);
    var bare, extra := SomeBare(kind, rows, ids, t), SumBy(BareValue(kind, rows, t), ids);
    forall k
      ensures k in again <==> k in once || (k == CLICK && bare)
      ensures AtKey(again, k) == AtKey(once, k) + (if k == CLICK then extra else 0.0)
    {
      KeyLevels(kind, rows, ids, ds, t, k);
      AmountLevels(kind, rows, ids, ds, t, k);
      SumsByRow(kind, rows, t, k);
      SumsByRow(kind, AsRows(ds), t, k);
    }
    ClickDiffers(again, once, bare, extra);
    if !bare { NoBareNoValue(kind, rows, ids, t); }
  }

  lemma SameTables(a: Table, b: Table)
    requires forall t :: t in a <==> t in b
    ensures a == b <==> forall t :: EntryOf(a, t) == EntryOf(b, t)
  {
    if forall t :: EntryOf(a, t) == EntryOf(b, t) {
      forall t | t in a ensures t in b && a[t] == b[t] { assert EntryOf(a, t) == EntryOf(b, t); }
    }
  }

  /** The action table of the second level is that of the first exactly when no bare list counts. */
  lemma TablesAgreeIff(kind: Kind, rows: seq<Row>, ids: seq<string>, ds: seq<Derived>)
    requires ListsDerived(kind, rows, ids, ds)
    ensures TableOf(Flat(kind, AsRows(ds))) == TableOf(Flat(kind, rows)) <==> forall t :: BareIsHarmless(kind, rows, ids, t)
  {
    var again, once := TableOf(Flat(kind, AsRows(ds))), TableOf(Flat(kind, rows));
    forall t ensures t in again <==> t in once { TypeLevels(kind, rows, ids, ds, t); }
    SameTables(again, once);
    forall t ensures EntryOf(again, t) == EntryOf(once, t) <==> BareIsHarmless(kind, rows, ids, t) {
      TypeAgreesIff(kind, rows, ids, ds, t);
    }
  }

  // ----- When no list is bare -----

  /** An element whose `value` counts also counts in a headline window. */
  predicate Plain(e: Element) {
    VALUE in Contribution(e) ==> CLICK in Contribution(e) || VIEW in Contribution(e)
  }

  /** Only an explicit null in a headline window, with the other absent or null, makes an element not plain. */
  lemma PlainIff(e: Element)
    ensures Plain(e) <==>
      !(&& VALUE in e.fields && Counted(e.fields[VALUE])
        && (Given(e.fields, CLICK) || Given(e.fields, VIEW))
        && (Given(e.fields, CLICK) ==> e.fields[CLICK] == Null) && (Given(e.fields, VIEW) ==> e.fields[VIEW] == Null))
  {
  }

  predicate PlainRows(kind: Kind, rows: seq<Row>) {
    forall i :: 0 <= i < |rows| ==> forall j :: 0 <= j < |ElementsOf(kind, rows[i])| ==> Plain(ElementsOf(kind, rows[i])[j])
  }

  lemma PlainElements(es: seq<Element>, t: string)
    requires forall j :: 0 <= j < |es| ==> Plain(es[j])
    ensures VALUE in Keys(es, t) ==> CLICK in Keys(es, t) || VIEW in Keys(es, t)
  {
    if VALUE in Keys(es, t) {
      var e :| e in es && VALUE in Contribution(e) && NonEmpty(e.actionType) == Some(t);
      assert Plain(e);
    }
  }

  lemma PlainPart(kind: Kind, rows: seq<Row>, id: string, t: string)
    requires PlainRows(kind, rows)
    ensures !BareIn(kind, rows, id, t)
  {
    var part := Part(rows, id);
    SumsByRow(kind, part, t, VALUE);
    SumsByRow(kind, part, t, CLICK);
    SumsByRow(kind, part, t, VIEW);
    forall x | x in part ensures RowHas(kind, x, t, VALUE) ==> RowHas(kind, x, t, CLICK) || RowHas(kind, x, t, VIEW) {
      PartIs(rows, id, x);
      PlainElements(ElementsOf(kind, x), t);
    }
  }

  lemma PlainIsHarmless(kind: Kind, rows: seq<Row>, ids: seq<string>, t: string)
    requires PlainRows(kind, rows)
    ensures BareIsHarmless(kind, rows, ids, t)
  {
    forall i | 0 <= i < |ids| ensures !BareIn(kind, rows, ids[i], t) { PlainPart(kind, rows, ids[i], t); }
  }

  /** A null click window beside a value of 3. */
  const NULL_CLICK := Element(Some("lead"), map[VALUE := Num(3.0), CLICK := Null])

  lemma OneElement(row: Row, e: Element, t: string, k: string)
    requires row.actions == Some([e]) && NonEmpty(e.actionType) == Some(t)
    ensures AtKey(SumsFor(Actions, [row], t), k) == AtKey(Contribution(e), k)
    ensures k in SumsFor(Actions, [row], t) <==> k in Contribution(e)
    ensures Part([row], IdOf(Adset)(row)) == [row]
  {
    FilterSnoc(KeyIs(IdOf(Adset), IdOf(Adset)(row)), [], row);
    assert [] + [row] == [row];
    SumsByRow(Actions, [row], t, k);
    SnocLists(Actions, [], row);
    SumSnoc(AmountOf(t, k), [], e);
    TableEntry([e], t, k);
    assert [] + [e] == [e] && Flat(Actions, [row]) == [e];
    assert e in [e];
  }

  /** One ad whose list is not plain: the second level counts a click window the first does not have. */
  lemma BareExample(row: Row, e: Element, ds: seq<Derived>)
    requires row.actions == Some([e]) && IsTyped(e) && !Plain(e)
    requires ListsDerived(Actions, [row], [IdOf(Adset)(row)], ds)
    ensures var t := NonEmpty(e.actionType).value;
      && CLICK !in SumsFor(Actions, [row], t) && CLICK in SumsFor(Actions, AsRows(ds), t)
      && SumsFor(Actions, AsRows(ds), t)[CLICK] == Contribution(e)[VALUE]
  {
    var t, ids := NonEmpty(e.actionType).value, [IdOf(Adset)(row)];
    OneElement(row, e, t, CLICK);
    OneElement(row, e, t, VIEW);
    OneElement(row, e, t, VALUE);
    assert BareIn(Actions, [row], ids[0], t);
    KeyLevels(Actions, [row], ids, ds, t, CLICK);
    AmountLevels(Actions, [row], ids, ds, t, CLICK);
    SumsByRow(Actions, [row], t, CLICK);
    SumsByRow(Actions, AsRows(ds), t, CLICK);
    assert SumBy(BareValue(Actions, [row], t), ids) == BareValue(Actions, [row], t)(ids[0]);
  }

  /** So a lead of value 3 with a null click window has no click window once and 3 in it twice. */
  lemma NullClickExample(row: Row, ds: seq<Derived>)
    requires row.actions == Some([NULL_CLICK]) && ListsDerived(Actions, [row], [IdOf(Adset)(row)], ds)
    ensures CLICK !in SumsFor(Actions, [row], "lead") && AtKey(SumsFor(Actions, AsRows(ds), "lead"), CLICK) == 3.0
    ensures TableOf(Flat(Actions, AsRows(ds))) != TableOf(Flat(Actions, [row]))
  {
    BareExample(row, NULL_CLICK, ds);
  }
}
