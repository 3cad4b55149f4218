/** Numbers as insights rows carry them, and sums over rows in any order and any grouping. */
module RollupSums {
  import opened Options

  /** A JSON field read as a number: `Blank` is a blank string, `NotFinite` anything else that is no number. */
  datatype Raw = Undefined | Null | Blank | NotFinite | Num(x: real)

  function Finite(raw: Raw): real {
    if raw.Num? then raw.x else 0.0
  }

  function Round(x: real): real {
    (x + 0.5).Floor as real
  }

  const MICRO: real := 1000000.0

  function RoundSum(x: real): real {
    Round(x * MICRO) / MICRO
  }

  predicate Whole(x: real) {
    x.Floor as real == x
  }

  predicate IsMicro(x: real) {
    Whole(x * MICRO)
  }

  lemma RoundSumIsClose(x: real)
    ensures -0.0000005 <= RoundSum(x) - x <= 0.0000005 && IsMicro(RoundSum(x))
  {
    assert RoundSum(x) * MICRO == Round(x * MICRO);
  }

  lemma FloorIs(x: real, n: int)
    requires n as real <= x < n as real + 1.0
    ensures x.Floor == n
  {
  }

  lemma WholeRounds(x: real)
    requires Whole(x)
    ensures Round(x) == x
  {
    FloorIs(x + 0.5, x.Floor);
  }

  /** Rounding leaves exactly the multiples of a millionth alone. */
  lemma RoundSumKeepsMicros(x: real)
    ensures RoundSum(x) == x <==> IsMicro(x)
  {
    var y := x * MICRO;
    assert RoundSum(x) * MICRO == Round(y);
    if Whole(y) { WholeRounds(y); }
    if RoundSum(x) == x { FloorIs(y, (y + 0.5).Floor); }
  }

  lemma WholeSum(x: real, y: real)
    requires Whole(x) && Whole(y)
    ensures Whole(x + y)
  {
    FloorIs(x + y, x.Floor + y.Floor);
  }

  function NonEmpty(s: Option<string>): Option<string> {
    if s == Some("") then None else s
  }

  // ----- Sums -----

  function SumBy<T>(f: T -> real, s: seq<T>): real {
    if s == [] then 0.0 else SumBy(f, s[..|s| - 1]) + f(s[|s| - 1])
  }

  lemma SumSnoc<T>(f: T -> real, s: seq<T>, x: T)
    ensures SumBy(f, s + [x]) == SumBy(f, s) + f(x)
  {
    assert (s + [x])[..|s|] == s;
  }

  lemma {:induction false} SumConcat<T>(f: T -> real, s: seq<T>, t: seq<T>)
    ensures SumBy(f, s + t) == SumBy(f, s) + SumBy(f, t)
  {
    if t == [] {
      assert s + t == s;
    } else {
      SumConcat(f, s, t[..|t| - 1]);
      assert s + t == s + t[..|t| - 1] + [t[|t| - 1]];
      SumSnoc(f, s + t[..|t| - 1], t[|t| - 1]);
    }
  }

  lemma CutAt<T>(s: seq<T>, i: nat)
    requires i < |s|
    ensures s == s[..i] + [s[i]] + s[i + 1..]
  {
  }

  lemma SumRemove<T>(f: T -> real, s: seq<T>, i: nat)
    requires i < |s|
    ensures SumBy(f, s) == SumBy(f, s[..i] + s[i + 1..]) + f(s[i])
  {
    var a, b := s[..i], s[i + 1..];
    CutAt(s, i);
    SumConcat(f, a + [s[i]], b);
    SumSnoc(f, a, s[i]);
    SumConcat(f, a, b);
  }

  lemma LastOccursIn<T>(s: seq<T>, t: seq<T>) returns (i: nat)
    requires s != [] && multiset(s) == multiset(t)
    ensures i < |t| && t[i] == s[|s| - 1] && multiset(s[..|s| - 1]) == multiset(t[..i] + t[i + 1..])
  {
    var n := |s| - 1;
    CutAt(s, n);
    assert s[n] in multiset(t);
    i :| 0 <= i < |t| && t[i] == s[n];
    CutAt(t, i);
    assert multiset(s[..n]) == multiset(s) - multiset{s[n]};
  }

  /** A sum does not depend on the order of its terms. */
  lemma {:induction false} SumOfPermutation<T>(f: T -> real, s: seq<T>, t: seq<T>)
    requires multiset(s) == multiset(t)
    ensures SumBy(f, s) == SumBy(f, t)
  {
    if s == [] {
      assert |multiset(t)| == 0;
    } else {
      var i := LastOccursIn(s, t);
      SumOfPermutation(f, s[..|s| - 1], t[..i] + t[i + 1..]);
      SumRemove(f, t, i);
    }
  }

  lemma {:induction false} SumPointwise<T, U>(f: T -> real, s: seq<T>, g: U -> real, t: seq<U>)
    requires |s| == |t| && forall i :: 0 <= i < |s| ==> f(s[i]) == g(t[i])
    ensures SumBy(f, s) == SumBy(g, t)
  {
    if s != [] { SumPointwise(f, s[..|s| - 1], g, t[..|t| - 1]); }
  }

  function Plus<T>(f: T -> real, g: T -> real): T -> real {
    (x: T) => f(x) + g(x)
  }

  lemma {:induction false} SumPlus<T>(f: T -> real, g: T -> real, s: seq<T>)
    ensures SumBy(Plus(f, g), s) == SumBy(f, s) + SumBy(g, s)
  {
    if s != [] { SumPlus(f, g, s[..|s| - 1]); }
  }

  lemma {:induction false} SumIsMicro<T>(f: T -> real, s: seq<T>)
    requires forall i :: 0 <= i < |s| ==> IsMicro(f(s[i]))
    ensures IsMicro(SumBy(f, s))
  {
    if s != [] {
      SumIsMicro(f, s[..|s| - 1]);
      WholeSum(SumBy(f, s[..|s| - 1]) * MICRO, f(s[|s| - 1]) * MICRO);
      assert SumBy(f, s) * MICRO == SumBy(f, s[..|s| - 1]) * MICRO + f(s[|s| - 1]) * MICRO;
    }
  }

  lemma {:induction false} SumIsWhole<T>(f: T -> real, s: seq<T>)
    requires forall i :: 0 <= i < |s| ==> Whole(f(s[i]))
    ensures Whole(SumBy(f, s))
  {
    if s != [] {
      SumIsWhole(f, s[..|s| - 1]);
      WholeSum(SumBy(f, s[..|s| - 1]), f(s[|s| - 1]));
    }
  }

  lemma {:induction false} SumOfNonNegative<T>(f: T -> real, s: seq<T>)
    requires forall i :: 0 <= i < |s| ==> f(s[i]) >= 0.0
    ensures SumBy(f, s) >= 0.0
  {
    if s != [] { SumOfNonNegative(f, s[..|s| - 1]); }
  }

  // ----- Groups -----

  function Filter<T>(p: T -> bool, s: seq<T>): seq<T> {
    if s == [] then []
    else Filter(p, s[..|s| - 1]) + (if p(s[|s| - 1]) then [s[|s| - 1]] else [])
  }

  lemma FilterSnoc<T>(p: T -> bool, s: seq<T>, x: T)
    ensures Filter(p, s + [x]) == Filter(p, s) + (if p(x) then [x] else [])
  {
    assert (s + [x])[..|s|] == s;
  }

  lemma {:induction false} InFilter<T>(p: T -> bool, s: seq<T>, x: T)
    ensures x in Filter(p, s) <==> x in s && p(x)
  {
    if s != [] {
      InFilter(p, s[..|s| - 1], x);
      assert s == s[..|s| - 1] + [s[|s| - 1]];
    }
  }

  lemma {:induction false} FilterConcat<T>(p: T -> bool, s: seq<T>, t: seq<T>)
    ensures Filter(p, s + t) == Filter(p, s) + Filter(p, t)
  {
    if t == [] {
      assert s + t == s;
    } else {
      FilterConcat(p, s, t[..|t| - 1]);
      assert s + t == s + t[..|t| - 1] + [t[|t| - 1]];
      FilterSnoc(p, s + t[..|t| - 1], t[|t| - 1]);
    }
  }

  lemma {:induction false} FilterOfPermutation<T>(p: T -> bool, s: seq<T>, t: seq<T>)
    requires multiset(s) == multiset(t)
    ensures multiset(Filter(p, s)) == multiset(Filter(p, t))
  {
    if s == [] {
      assert |multiset(t)| == 0;
    } else {
      var i := LastOccursIn(s, t);
      FilterOfPermutation(p, s[..|s| - 1], t[..i] + t[i + 1..]);
      FilterRemove(p, t, i);
    }
  }

  lemma MoveToEnd<T>(a: seq<T>, x: seq<T>, b: seq<T>)
    ensures multiset(a + x + b) == multiset(a + b + x)
  {
  }

  lemma FilterRemove<T>(p: T -> bool, t: seq<T>, i: nat)
    requires i < |t|
    ensures multiset(Filter(p, t)) == multiset(Filter(p, t[..i] + t[i + 1..]) + (if p(t[i]) then [t[i]] else []))
  {
    var a, b := t[..i], t[i + 1..];
    CutAt(t, i);
    FilterConcat(p, a + [t[i]], b);
    FilterSnoc(p, a, t[i]);
    FilterConcat(p, a, b);
    MoveToEnd(Filter(p, a), if p(t[i]) then [t[i]] else [], Filter(p, b));
  }

  function Guard<T>(f: T -> real, p: T -> bool): T -> real {
    (x: T) => if p(x) then f(x) else 0.0
  }

  lemma {:induction false} FilterSum<T>(f: T -> real, p: T -> bool, s: seq<T>)
    ensures SumBy(f, Filter(p, s)) == SumBy(Guard(f, p), s)
  {
    if s != [] {
      FilterSum(f, p, s[..|s| - 1]);
      var front, x := s[..|s| - 1], s[|s| - 1];
      if p(x) {
        SumSnoc(f, Filter(p, front), x);
      } else {
        assert Filter(p, s) == Filter(p, front);
      }
    }
  }

  predicate Distinct<K(==)>(ids: seq<K>) {
    forall i, j :: 0 <= i < j < |ids| ==> ids[i] != ids[j]
  }

  lemma DistinctSnoc<K>(ids: seq<K>, id: K)
    ensures Distinct(ids + [id]) <==> Distinct(ids) && id !in ids
  {
    if Distinct(ids + [id]) {
      forall i | 0 <= i < |ids| ensures ids[i] != id { assert (ids + [id])[i] == ids[i] && (ids + [id])[|ids|] == id; }
      forall i, j | 0 <= i < j < |ids| ensures ids[i] != ids[j] { assert (ids + [id])[i] == ids[i] && (ids + [id])[j] == ids[j]; }
    }
  }

  function KeyIs<T, K(==)>(key: T -> K, id: K): T -> bool {
    (x: T) => key(x) == id
  }

  function GroupTotal<T, K(==)>(f: T -> real, key: T -> K, s: seq<T>): K -> real {
    (id: K) => SumBy(f, Filter(KeyIs(key, id), s))
  }

  function OneHot<K(==)>(id: K, x: real): K -> real {
    (k: K) => if k == id then x else 0.0
  }

  lemma {:induction false} SumOneHot<K>(ids: seq<K>, id: K, x: real)
    requires Distinct(ids)
    ensures SumBy(OneHot(id, x), ids) == if id in ids then x else 0.0
  {
    if ids != [] {
      SumOneHot(ids[..|ids| - 1], id, x);
      assert ids == ids[..|ids| - 1] + [ids[|ids| - 1]];
    }
  }

  lemma GroupTotalSnoc<T, K>(f: T -> real, key: T -> K, s: seq<T>, x: T, id: K)
    ensures GroupTotal(f, key, s + [x])(id) == Plus(GroupTotal(f, key, s), OneHot(key(x), f(x)))(id)
  {
    var p := KeyIs(key, id);
    FilterSnoc(p, s, x);
    if p(x) {
      SumSnoc(f, Filter(p, s), x);
    } else {
      assert Filter(p, s + [x]) == Filter(p, s);
    }
  }

  /** Grouping conserves a sum: the groups' totals add up to the whole. */
  lemma {:induction false} SumOfGroups<T, K>(f: T -> real, key: T -> K, ids: seq<K>, s: seq<T>)
    requires Distinct(ids) && forall i :: 0 <= i < |s| ==> key(s[i]) in ids
    ensures SumBy(GroupTotal(f, key, s), ids) == SumBy(f, s)
  {
    if s == [] {
      SumPointwise(GroupTotal(f, key, s), ids, (k: K) => 0.0, ids);
      ZeroSum(ids);
    } else {
      var front, x := s[..|s| - 1], s[|s| - 1];
      SumOfGroups(f, key, ids, front);
      assert s == front + [x];
      var moved := Plus(GroupTotal(f, key, front), OneHot(key(x), f(x)));
      forall i | 0 <= i < |ids| ensures GroupTotal(f, key, s)(ids[i]) == moved(ids[i]) {
        GroupTotalSnoc(f, key, front, x, ids[i]);
      }
      SumPointwise(GroupTotal(f, key, s), ids, moved, ids);
      SumPlus(GroupTotal(f, key, front), OneHot(key(x), f(x)), ids);
      SumOneHot(ids, key(x), f(x));
    }
  }

  lemma {:induction false} ZeroSum<K>(ids: seq<K>)
    ensures SumBy((k: K) => 0.0, ids) == 0.0
  {
    if ids != [] { ZeroSum(ids[..|ids| - 1]); }
  }

  // ----- Keyed sums -----

  type Sums = map<string, real>

  function AddTo(sums: Sums, more: Sums): Sums {
    map k | k in sums.Keys + more.Keys :: AtKey(sums, k) + AtKey(more, k)
  }

  function AtKey(sums: Sums, k: string): real {
    if k in sums then sums[k] else 0.0
  }

  lemma SameSums(a: Sums, b: Sums)
    requires forall k :: (k in a <==> k in b) && AtKey(a, k) == AtKey(b, k)
    ensures a == b
  {
    forall k | k in a ensures k in b && a[k] == b[k] {
      assert AtKey(a, k) == AtKey(b, k);
    }
    assert a.Keys == b.Keys;
  }
}
