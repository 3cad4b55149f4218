/** The derived action lists and results told by the ad rows' own fields. */
module RollupEntries {
  import opened Options
  import opened RollupSums
  import opened RollupActions
  import opened RollupResults
  import opened HotRollup
  import opened RollupNumbers

  function Added(xs: seq<real>): real {
    if xs == [] then 0.0 else xs[0] + Added(xs[1..])
  }

  lemma {:induction false} AddedSnoc(xs: seq<real>, x: real)
    ensures Added(xs + [x]) == Added(xs) + x
  {
    if xs != [] {
      AddedSnoc(xs[1..], x);
      assert (xs + [x])[1..] == xs[1..] + [x];
    }
  }

  lemma {:induction false} AddedIs<T>(f: T -> real, s: seq<T>, xs: seq<real>)
    requires |xs| == |s| && forall i :: 0 <= i < |s| ==> f(s[i]) == xs[i]
    ensures SumBy(f, s) == Added(xs)
  {
    if s != [] {
      var n := |s| - 1;
      AddedIs(f, s[..n], xs[..n]);
      AddedSnoc(xs[..n], xs[n]);
      assert xs == xs[..n] + [xs[n]];
    }
  }

  // ----- Action lists -----

  predicate Present(e: Element, key: string) {
    key in e.fields && e.fields[key] != Undefined
  }

  /** Only a headline value, which stands for the 7-day click window. */
  predicate IsHeadline(e: Element) {
    Present(e, "value") && !Present(e, "7d_click") && !Present(e, "1d_view")
  }

  function ReadFrom(e: Element, key: string): string {
    if key == "7d_click" && IsHeadline(e) then "value" else key
  }

  predicate CountsFor(e: Element, t: string, key: string) {
    && e.actionType == Some(t) && t != "" && key != "action_type"
    && Present(e, ReadFrom(e, key)) && e.fields[ReadFrom(e, key)] != Null
  }

  predicate TellsWindow(e: Element, t: string, key: string, x: real) {
    if CountsFor(e, t, key) then TellsAmount(e.fields[ReadFrom(e, key)], x) else x == 0.0
  }

  lemma WindowIs(e: Element, t: string, key: string)
    ensures HasKey(e, t, key) <==> CountsFor(e, t, key)
    ensures TellsWindow(e, t, key, AmountOf(t, key)(e))
    ensures forall x :: TellsWindow(e, t, key, x) ==> x == AmountOf(t, key)(e)
  {
  }

  /** A row's list as it is in the row. */
  predicate RowLists(kind: Kind, row: Row, es: seq<Element>) {
    match kind
    case Actions => row.actions == Some(es)
    case ActionValues => row.actionValues == Some(es)
  }

  lemma FlatOfOne(kind: Kind, row: Row, es: seq<Element>)
    ensures RowLists(kind, row, es) ==> Flat(kind, [row]) == es
    ensures (forall fs :: !RowLists(kind, row, fs)) ==> Flat(kind, [row]) == []
  {
    assert [row][..0] == [];
    if ListOf(kind, row).Some? { assert RowLists(kind, row, ListOf(kind, row).value); }
  }

  /** The group has a list if and only if some row of it has one. */
  lemma ListedIff(kind: Kind, list: Option<seq<Element>>, rows: seq<Row>)
    requires ListsActions(kind, list, rows)
    ensures list.Some? <==> exists i, es :: 0 <= i < |rows| && RowLists(kind, rows[i], es)
  {
    if i :| 0 <= i < |rows| && ListOf(kind, rows[i]).Some? {
      assert RowLists(kind, rows[i], ListOf(kind, rows[i]).value);
    }
  }

  /** One element for each type that some element of the group's rows has. */
  lemma TypesAre(list: seq<Element>, es: seq<Element>, t: string)
    requires Lists(list, Rounded(TableOf(es)))
    ensures (exists j :: 0 <= j < |list| && list[j].actionType == Some(t))
      <==> t != "" && exists i :: 0 <= i < |es| && es[i].actionType == Some(t)
    ensures forall j, k :: 0 <= j < k < |list| ==> list[j].actionType != list[k].actionType
  {
    assert forall j :: 0 <= j < |list| ==> ListsType(list[j], Rounded(TableOf(es)));
    forall j, k | 0 <= j < k < |list| ensures list[j].actionType != list[k].actionType {
      assert TypesIn(list)[j] != TypesIn(list)[k];
    }
    if j :| 0 <= j < |list| && list[j].actionType == Some(t) {
      assert t in Types(es);
      var e :| e in es && IsTyped(e) && NonEmpty(e.actionType).value == t;
      assert e.actionType == Some(t);
    }
    if i :| 0 <= i < |es| && es[i].actionType == Some(t) && t != "" {
      assert es[i] in es && IsTyped(es[i]);
      assert t in TypesIn(list);
      var j :| 0 <= j < |list| && TypesIn(list)[j] == t;
      assert list[j].actionType == Some(t);
    }
  }

  /** A window stands in a type's element if and only if some element of that type counts it, and holds the
      sum of what all of them tell of it, at six decimals. */
  lemma WindowsAreTold(list: seq<Element>, es: seq<Element>, t: string, key: string, xs: seq<real>, j: nat)
    requires Lists(list, Rounded(TableOf(es)))
    requires |xs| == |es| && forall i :: 0 <= i < |es| ==> TellsWindow(es[i], t, key, xs[i])
    requires j < |list| && list[j].actionType == Some(t)
    ensures key in list[j].fields <==> exists i :: 0 <= i < |es| && CountsFor(es[i], t, key)
    ensures key in list[j].fields ==>
      list[j].fields[key].Num? && RoundedTo(list[j].fields[key].x, Added(xs))
  {
    assert ListsType(list[j], Rounded(TableOf(es)));
    assert list[j].fields == AsFields(RoundedSums(TableOf(es)[t]));
    TableEntry(es, t, key);
    forall i | 0 <= i < |es| ensures (HasKey(es[i], t, key) <==> CountsFor(es[i], t, key)) && AmountOf(t, key)(es[i]) == xs[i] {
      WindowIs(es[i], t, key);
    }
    KeysAre(es, t, key);
    AddedIs(AmountOf(t, key), es, xs);
    SpendIs(Added(xs));
  }

  lemma KeysAre(es: seq<Element>, t: string, key: string)
    ensures key in Keys(es, t) <==> exists i :: 0 <= i < |es| && HasKey(es[i], t, key)
  {
    if i :| 0 <= i < |es| && HasKey(es[i], t, key) { assert es[i] in es; }
  }

  // ----- Results -----

  /** The one entry of an indicator. */
  predicate OnlyEntry(results: Results, indicator: string, j: nat) {
    && results.Some? && j < |results.value| && results.value[j].indicator == Some(indicator)
    && forall k :: 0 <= k < |results.value| && k != j ==> results.value[k].indicator != Some(indicator)
  }

  /** Each value has one window, named and its own, and a count that is no negative number. */
  ghost predicate CanBeSummed(e: Entry) {
    && e.values.Some? && e.values.value != []
    && (forall i :: 0 <= i < |e.values.value| ==>
          && (exists w :: w != "" && e.values.value[i].windows == Some([Some(w)]))
          && e.values.value[i].value.Num? && e.values.value[i].value.x >= 0.0)
    && forall i, k :: 0 <= i < k < |e.values.value| ==> e.values.value[i].windows != e.values.value[k].windows
  }

  ghost predicate Readable(results: Results, indicator: string) {
    exists j: nat :: OnlyEntry(results, indicator, j) && CanBeSummed(results.value[j])
  }

  predicate HasWindow(e: Entry, w: string, i: nat) {
    e.values.Some? && i < |e.values.value| && e.values.value[i].windows == Some([Some(w)])
  }

  /** A window the ad omits tells zero. */
  ghost predicate TellsResult(results: Results, indicator: string, w: string, x: real) {
    exists j: nat :: OnlyEntry(results, indicator, j) &&
      if exists i: nat :: HasWindow(results.value[j], w, i)
      then exists i: nat :: HasWindow(results.value[j], w, i) && results.value[j].values.value[i].value == Num(x)
      else x == 0.0
  }

  predicate Only<T>(p: T -> bool, s: seq<T>, j: nat) {
    j < |s| && p(s[j]) && forall k :: 0 <= k < |s| && k != j ==> !p(s[k])
  }

  lemma {:induction false} NoneOf<T>(p: T -> bool, s: seq<T>)
    ensures Filter(p, s) == [] <==> forall k :: 0 <= k < |s| ==> !p(s[k])
  {
    if s != [] {
      NoneOf(p, s[..|s| - 1]);
      assert forall k :: 0 <= k < |s| - 1 ==> s[..|s| - 1][k] == s[k];
    }
  }

  lemma {:induction false} OnlyOne<T>(p: T -> bool, s: seq<T>, j: nat)
    requires Only(p, s, j)
    ensures Filter(p, s) == [s[j]]
  {
    var n := |s| - 1;
    assert forall k :: 0 <= k < n ==> s[..n][k] == s[k];
    if j == n {
      NoneOf(p, s[..n]);
    } else {
      OnlyOne(p, s[..n], j);
    }
  }

  lemma {:induction false} OneIsOnly<T>(p: T -> bool, s: seq<T>) returns (j: nat)
    requires |Filter(p, s)| == 1
    ensures Only(p, s, j)
  {
    var n := |s| - 1;
    assert forall k :: 0 <= k < n ==> s[..n][k] == s[k];
    if p(s[n]) {
      assert |Filter(p, s)| == |Filter(p, s[..n])| + 1;
      NoneOf(p, s[..n]);
      j := n;
    } else {
      assert Filter(p, s) == Filter(p, s[..n]);
      j := OneIsOnly(p, s[..n]);
    }
  }

  lemma OnlyIs(results: Results, indicator: string, j: nat)
    requires OnlyEntry(results, indicator, j)
    ensures Filter(NamedBy(indicator), results.value) == [results.value[j]]
  {
    OnlyOne(NamedBy(indicator), results.value, j);
  }

  lemma OnlyOf(results: Results, indicator: string) returns (j: nat)
    requires results.Some? && |Filter(NamedBy(indicator), results.value)| == 1
    ensures OnlyEntry(results, indicator, j)
  {
    j := OneIsOnly(NamedBy(indicator), results.value);
    forall k | 0 <= k < |results.value| && k != j ensures results.value[k].indicator != Some(indicator) {
      assert !NamedBy(indicator)(results.value[k]);
    }
  }

  lemma WindowOfIs(v: WindowValue, w: string)
    ensures WindowOf(v) == Some(w) <==> w != "" && v.windows == Some([Some(w)])
  {
    if WindowOf(v) == Some(w) { assert v.windows.value == [Some(w)]; }
  }

  lemma SummedIs(e: Entry)
    requires e.values.Some? && e.values.value != []
    ensures CanBeSummed(e) <==> Summable(e.values.value)
  {
    var vs := e.values.value;
    forall i, w | 0 <= i < |vs| ensures WindowOf(vs[i]) == Some(w) <==> w != "" && vs[i].windows == Some([Some(w)]) {
      WindowOfIs(vs[i], w);
    }
    if Summable(vs) {
      forall i | 0 <= i < |vs| ensures exists w :: w != "" && vs[i].windows == Some([Some(w)]) {
        assert vs[i].windows == Some([Some(WindowOf(vs[i]).value)]);
      }
    }
  }

  /** An ad's values can be summed if and only if it has one entry for the indicator and that entry's
      values are well formed. */
  lemma ReadableIs(results: Results, indicator: string)
    ensures WindowValues(results, indicator).Some? <==> Readable(results, indicator)
  {
    if j: nat :| OnlyEntry(results, indicator, j) && CanBeSummed(results.value[j]) {
      OnlyIs(results, indicator, j);
      SummedIs(results.value[j]);
      ValuesIff(results.value[j].values.value);
    }
    if WindowValues(results, indicator).Some? {
      var j := OnlyOf(results, indicator);
      OnlyIs(results, indicator, j);
      ValuesIff(results.value[j].values.value);
      SummedIs(results.value[j]);
    }
  }

  /** The ad gives the window a value. */
  ghost predicate GivesWindow(results: Results, indicator: string, w: string) {
    exists j: nat, i: nat :: OnlyEntry(results, indicator, j) && HasWindow(results.value[j], w, i)
  }

  lemma ResultIs(results: Results, indicator: string, w: string, x: real)
    requires WindowValues(results, indicator).Some? && w != "" && TellsResult(results, indicator, w, x)
    ensures CountIn(indicator, w)(results) == x
    ensures w in WindowValues(results, indicator).value <==> GivesWindow(results, indicator, w)
  {
    var j := OnlyOf(results, indicator);
    OnlyIs(results, indicator, j);
    assert forall k: nat :: OnlyEntry(results, indicator, k) ==> k == j;
    ValueOfWindow(results.value[j], w);
  }

  lemma ValueOfWindow(e: Entry, w: string)
    requires e.values.Some? && ValuesUpTo(e.values.value).Some? && w != ""
    ensures w in ValuesUpTo(e.values.value).value <==> exists i: nat :: HasWindow(e, w, i)
    ensures forall i: nat :: HasWindow(e, w, i) ==>
      e.values.value[i].value == Num(AtKey(ValuesUpTo(e.values.value).value, w))
  {
    var vs := e.values.value;
    ValuesIff(vs);
    forall i | 0 <= i < |vs| ensures WindowOf(vs[i]) == Some(w) <==> vs[i].windows == Some([Some(w)]) {
      WindowOfIs(vs[i], w);
    }
    if w in ValuesUpTo(vs).value {
      var i :| 0 <= i < |vs| && WindowOf(vs[i]) == Some(w);
      assert HasWindow(e, w, i);
    }
  }

  /** No ad names the indicator, or some ad cannot be summed, or each window some ad gives has the sum of
      what all of the ads tell of it. */
  lemma TotalIsTold(ads: seq<Results>, indicator: string, w: string, xs: seq<real>)
    requires w != "" && |xs| == |ads| && forall i :: 0 <= i < |ads| && Readable(ads[i], indicator) ==> TellsResult(ads[i], indicator, w, xs[i])
    ensures TotalOf(ads, indicator).Values? <==> ads != [] && forall i :: 0 <= i < |ads| ==> Readable(ads[i], indicator)
    ensures TotalOf(ads, indicator).Values? ==>
      && (w in TotalOf(ads, indicator).counts <==> exists i :: 0 <= i < |ads| && GivesWindow(ads[i], indicator, w))
      && AtKey(TotalOf(ads, indicator).counts, w) == Added(xs)
  {
    TotalIff(ads, indicator);
    forall i | 0 <= i < |ads| ensures WindowValues(ads[i], indicator).Some? <==> Readable(ads[i], indicator) {
      ReadableIs(ads[i], indicator);
    }
    if ads != [] && AllSummable(ads, indicator) {
      forall i | 0 <= i < |ads|
        ensures CountIn(indicator, w)(ads[i]) == xs[i]
        ensures w in WindowValues(ads[i], indicator).value <==> GivesWindow(ads[i], indicator, w)
      {
        ResultIs(ads[i], indicator, w, xs[i]);
      }
      AddedIs(CountIn(indicator, w), ads, xs);
      WindowTotal(ads, indicator, w);
    }
  }

  predicate Names(results: Results, indicator: string) {
    results.Some? && exists k :: 0 <= k < |results.value| && results.value[k].indicator == Some(indicator)
  }

  /** What a derived entry states of the rows' results. */
  ghost predicate EntryTold(e: Entry, ads: seq<Results>, indicator: string) {
    && e.indicator == Some(indicator) && NamedBySome(ads, indicator)
    && (e.values.Some? <==> forall i :: 0 <= i < |ads| ==> Readable(ads[i], indicator))
  }

  /** `asked` tells which indicator each entry answers. */
  ghost predicate Answers(out: seq<Entry>, ads: seq<Results>, indicators: seq<string>, asked: seq<nat>) {
    && |asked| == |out|
    && (forall k :: 0 <= k < |out| ==> asked[k] < |indicators| && EntryTold(out[k], ads, indicators[asked[k]]))
    && forall j, k :: 0 <= j < k < |asked| ==> asked[j] < asked[k]
  }

  /** Everything asked for that some ad named is answered. */
  ghost predicate NoneLeftOut(ads: seq<Results>, indicators: seq<string>, asked: seq<nat>) {
    forall n: nat :: n < |indicators| && NamedBySome(ads, indicators[n]) ==> n in asked
  }

  predicate NamedBySome(ads: seq<Results>, indicator: string) {
    exists i :: 0 <= i < |ads| && Names(ads[i], indicator)
  }

  /** The results list what the caller asked for and some ad named, in the caller's order; the values
      are given only when every ad's can be summed. */
  lemma {:induction false} ResultsAreTold(out: seq<Entry>, ads: seq<Results>, indicators: seq<string>) returns (asked: seq<nat>)
    requires ListsResults(out, ads, indicators)
    ensures Answers(out, ads, indicators, asked) && NoneLeftOut(ads, indicators, asked)
  {
    asked := [];
    if indicators != [] {
      var n := |indicators| - 1;
      NothingIs(ads, indicators[n]);
      if TotalOf(ads, indicators[n]).Nothing? {
        asked := ResultsAreTold(out, ads, indicators[..n]);
        AnswersStay(out, ads, indicators, asked);
      } else {
        var front, last := out[..|out| - 1], out[|out| - 1];
        asked := ResultsAreTold(front, ads, indicators[..n]);
        EntryIsTold(last, ads, indicators[n]);
        AnswersMore(front, last, ads, indicators, asked, n);
        assert out == front + [last];
        asked := asked + [n];
      }
    }
  }

  lemma AnswersStay(out: seq<Entry>, ads: seq<Results>, indicators: seq<string>, asked: seq<nat>)
    requires indicators != [] && Answers(out, ads, indicators[..|indicators| - 1], asked)
    requires NoneLeftOut(ads, indicators[..|indicators| - 1], asked)
    ensures Answers(out, ads, indicators, asked)
    ensures NoneLeftOut(ads, indicators, asked + [|indicators| - 1])
    ensures !NamedBySome(ads, indicators[|indicators| - 1]) ==> NoneLeftOut(ads, indicators, asked)
    ensures forall k :: 0 <= k < |asked| ==> asked[k] < |indicators| - 1
  {
    var front := indicators[..|indicators| - 1];
    assert forall i :: 0 <= i < |front| ==> front[i] == indicators[i];
    forall n: nat | n < |front| && NamedBySome(ads, indicators[n]) ensures n in asked { assert NamedBySome(ads, front[n]); }
    forall k | 0 <= k < |out| ensures EntryTold(out[k], ads, indicators[asked[k]]) { assert EntryTold(out[k], ads, front[asked[k]]); }
  }

  lemma AnswersMore(front: seq<Entry>, last: Entry, ads: seq<Results>, indicators: seq<string>, asked: seq<nat>, n: nat)
    requires |indicators| == n + 1 && EntryTold(last, ads, indicators[n])
    requires Answers(front, ads, indicators[..n], asked) && NoneLeftOut(ads, indicators[..n], asked)
    ensures Answers(front + [last], ads, indicators, asked + [n]) && NoneLeftOut(ads, indicators, asked + [n])
  {
    AnswersStay(front, ads, indicators, asked);
    AnswersSnoc(front, last, ads, indicators, asked, n);
  }

  lemma AnswersSnoc(out: seq<Entry>, e: Entry, ads: seq<Results>, indicators: seq<string>, asked: seq<nat>, n: nat)
    requires Answers(out, ads, indicators, asked) && n < |indicators| && EntryTold(e, ads, indicators[n])
    requires forall k :: 0 <= k < |asked| ==> asked[k] < n
    ensures Answers(out + [e], ads, indicators, asked + [n])
  {
    var all, after := out + [e], asked + [n];
    forall k | 0 <= k < |all| ensures after[k] < |indicators| && EntryTold(all[k], ads, indicators[after[k]]) {
      if k < |out| { assert all[k] == out[k] && after[k] == asked[k]; }
    }
  }

  lemma NothingIs(ads: seq<Results>, indicator: string)
    ensures TotalOf(ads, indicator).Nothing? <==> !NamedBySome(ads, indicator)
  {
    forall i | 0 <= i < |ads| ensures Names(ads[i], indicator) <==> Reported(ads[i], indicator) {
      if Reported(ads[i], indicator) {
        var k :| 0 <= k < |ads[i].value| && IsNamed(ads[i].value[k], indicator);
        assert ads[i].value[k].indicator == Some(indicator);
      }
      if Names(ads[i], indicator) {
        var k :| 0 <= k < |ads[i].value| && ads[i].value[k].indicator == Some(indicator);
        assert IsNamed(ads[i].value[k], indicator);
      }
    }
  }

  lemma EntryIsTold(e: Entry, ads: seq<Results>, indicator: string)
    requires EntryStates(e, indicator, TotalOf(ads, indicator)) && !TotalOf(ads, indicator).Nothing?
    ensures EntryTold(e, ads, indicator)
  {
    NothingIs(ads, indicator);
    TotalIff(ads, indicator);
    forall i | 0 <= i < |ads| ensures WindowValues(ads[i], indicator).Some? <==> Readable(ads[i], indicator) {
      ReadableIs(ads[i], indicator);
    }
  }

  /** Each value of a derived entry: its one window is one some ad gives, and its count is the sum of what the
      ads tell of it, at six decimals. */
  lemma ValueIsTold(e: Entry, ads: seq<Results>, indicator: string, i: nat, w: string, xs: seq<real>)
    requires EntryStates(e, indicator, TotalOf(ads, indicator)) && ads != [] && forall k :: 0 <= k < |ads| ==> Readable(ads[k], indicator)
    requires w != "" && HasWindow(e, w, i)
    requires |xs| == |ads| && forall k :: 0 <= k < |ads| ==> TellsResult(ads[k], indicator, w, xs[k])
    ensures exists k :: 0 <= k < |ads| && GivesWindow(ads[k], indicator, w)
    ensures e.values.value[i].value.Num? && RoundedTo(e.values.value[i].value.x, Added(xs))
  {
    TotalIsTold(ads, indicator, w, xs);
    WindowOfIs(e.values.value[i], w);
    SpendIs(Added(xs));
  }

  /** Each window some ad gives is there. */
  lemma WindowIsThere(e: Entry, ads: seq<Results>, indicator: string, w: string, xs: seq<real>)
    requires EntryStates(e, indicator, TotalOf(ads, indicator)) && ads != [] && forall k :: 0 <= k < |ads| ==> Readable(ads[k], indicator)
    requires w != "" && exists k :: 0 <= k < |ads| && GivesWindow(ads[k], indicator, w)
    requires |xs| == |ads| && forall k :: 0 <= k < |ads| ==> TellsResult(ads[k], indicator, w, xs[k])
    ensures exists i: nat :: HasWindow(e, w, i)
  {
    TotalIsTold(ads, indicator, w, xs);
    var vs := e.values.value;
    var i :| 0 <= i < |vs| && WindowOf(vs[i]) == Some(w);
    WindowOfIs(vs[i], w);
    assert HasWindow(e, w, i);
  }
}
