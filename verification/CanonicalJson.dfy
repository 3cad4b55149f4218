/** Deterministic JSON text. Strings are sequences of Unicode scalar values; a number is its own
    shortest decimal text; `localeCompare` is a parameter, a strict total order on keys. */
module CanonicalJson {
  datatype Value =
    | Undefined
    | Null
    | Bool(b: bool)
    | Num(text: string)
    | Str(s: string)
    | Arr(items: seq<Value>)
    | Obj(members: seq<Member>)

  datatype Member = Member(key: string, value: Value)

  type Order = (string, string) -> bool

  ghost predicate StrictTotal(lt: Order) {
    && (forall a :: !lt(a, a))
    && (forall a, b :: a != b ==> lt(a, b) || lt(b, a))
    && (forall a, b, c :: lt(a, b) && lt(b, c) ==> lt(a, c))
  }

  // ----- Well-formed values: numbers are number tokens, an object holds each key once -----

  predicate NumberChar(c: char) {
    '0' <= c <= '9' || c == '-' || c == '+' || c == '.' || c == 'e' || c == 'E'
  }

  predicate NumberText(t: string) {
    t != [] && ('0' <= t[0] <= '9' || t[0] == '-') && forall i :: 0 <= i < |t| ==> NumberChar(t[i])
  }

  predicate DistinctKeys(ms: seq<Member>) {
    forall i, j :: 0 <= i < j < |ms| ==> ms[i].key != ms[j].key
  }

  ghost predicate Proper(v: Value) {
    match v
    case Num(t) => NumberText(t)
    case Arr(items) => forall i :: 0 <= i < |items| ==> Proper(items[i])
    case Obj(ms) => DistinctKeys(ms) && forall i :: 0 <= i < |ms| ==> Proper(ms[i].value)
    case _ => true
  }

  // ----- Strings, escaped as in section 7 of RFC 8259 -----

  function HexDigit(n: nat): char
    requires n < 16
  {
    if n < 10 then '0' + n as char else 'a' + (n - 10) as char
  }

  function Escape(c: char): string {
    if c == '"' then "\\\""
    else if c == '\\' then "\\\\"
    else if c == 8 as char then "\\b"
    else if c == 12 as char then "\\f"
    else if c == '\n' then "\\n"
    else if c == '\r' then "\\r"
    else if c == '\t' then "\\t"
    else if (c as int) < 32 then ['\\', 'u', '0', '0', HexDigit(c as int / 16), HexDigit(c as int % 16)]
    else [c]
  }

  function EscapeAll(s: string): string {
    if s == [] then [] else Escape(s[0]) + EscapeAll(s[1..])
  }

  function Quote(s: string): string {
    "\"" + EscapeAll(s) + "\""
  }

  // ----- The printer -----

  /** The members that are printed: defined, and not under an omitted key. */
  function Kept(ms: seq<Member>, omit: set<string>): (r: seq<Member>)
    ensures forall m :: m in r <==> m in ms && m.value != Undefined && m.key !in omit
    ensures DistinctKeys(ms) ==> DistinctKeys(r)
  {
    if ms == [] then []
    else if ms[0].value == Undefined || ms[0].key in omit then Kept(ms[1..], omit)
    else [ms[0]] + Kept(ms[1..], omit)
  }

  function Insert(m: Member, ms: seq<Member>, lt: Order): (r: seq<Member>)
    ensures forall x :: x in r <==> x == m || x in ms
    ensures |r| == |ms| + 1
  {
    if ms == [] || lt(m.key, ms[0].key) then [m] + ms else [ms[0]] + Insert(m, ms[1..], lt)
  }

  function Sorted(ms: seq<Member>, lt: Order): (r: seq<Member>)
    ensures forall x :: x in r <==> x in ms
    ensures |r| == |ms|
  {
    if ms == [] then [] else Insert(ms[0], Sorted(ms[1..], lt), lt)
  }

  function Entries(v: Value, omit: set<string>, lt: Order): (es: seq<Member>)
    requires v.Obj?
    ensures forall e :: e in es <==> e in v.members && e.value != Undefined && e.key !in omit
    ensures forall e :: e in es ==> e.value < v
  {
    Sorted(Kept(v.members, omit), lt)
  }

  function Canonical(v: Value, omit: set<string>, lt: Order): string
    decreases v
  {
    match v
    case Undefined => "null"
    case Null => "null"
    case Bool(b) => if b then "true" else "false"
    case Num(t) => t
    case Str(s) => Quote(s)
    case Arr(items) => "[" + PrintItems(items, v, omit, lt) + "]"
    case Obj(_) => "{" + PrintEntries(Entries(v, omit, lt), v, omit, lt) + "}"
  }

  function PrintItems(items: seq<Value>, context: Value, omit: set<string>, lt: Order): string
    requires forall i :: 0 <= i < |items| ==> items[i] < context
    decreases context, |items|
  {
    if items == [] then ""
    else if |items| == 1 then Canonical(items[0], omit, lt)
    else Canonical(items[0], omit, lt) + "," + PrintItems(items[1..], context, omit, lt)
  }

  function EntryText(key: string, text: string): string {
    Quote(key) + ":" + text
  }

  function PrintEntries(es: seq<Member>, context: Value, omit: set<string>, lt: Order): string
    requires forall e :: e in es ==> e.value < context
    decreases context, |es|
  {
    if es == [] then ""
    else if |es| == 1 then EntryText(es[0].key, Canonical(es[0].value, omit, lt))
    else EntryText(es[0].key, Canonical(es[0].value, omit, lt)) + "," + PrintEntries(es[1..], context, omit, lt)
  }

  /** `canonicalMetaAdsJson`: nothing omitted. */
  function CanonicalText(v: Value, lt: Order): string {
    Canonical(v, {}, lt)
  }

  // ----- What a text is about: the value without key order or undefined members -----

  datatype Meaning =
    | MNull
    | MBool(b: bool)
    | MNum(text: string)
    | MStr(s: string)
    | MArr(items: seq<Meaning>)
    | MObj(members: map<string, Meaning>)

  function Means(v: Value, omit: set<string>): Meaning
    decreases v
  {
    match v
    case Undefined => MNull
    case Null => MNull
    case Bool(b) => MBool(b)
    case Num(t) => MNum(t)
    case Str(s) => MStr(s)
    case Arr(items) => MArr(ItemMeanings(items, v, omit))
    case Obj(ms) => MObj(MemberMeanings(ms, v, omit))
  }

  function ItemMeanings(items: seq<Value>, context: Value, omit: set<string>): (r: seq<Meaning>)
    requires forall i :: 0 <= i < |items| ==> items[i] < context
    ensures |r| == |items|
    ensures forall i :: 0 <= i < |items| ==> r[i] == Means(items[i], omit)
    decreases context, |items|
  {
    if items == [] then [] else [Means(items[0], omit)] + ItemMeanings(items[1..], context, omit)
  }

  function MemberMeanings(ms: seq<Member>, context: Value, omit: set<string>): map<string, Meaning>
    requires forall m :: m in ms ==> m.value < context
    decreases context, |ms|
  {
    if ms == [] then map[]
    else
      var rest := MemberMeanings(ms[1..], context, omit);
      if ms[0].value == Undefined || ms[0].key in omit then rest
      else rest[ms[0].key := Means(ms[0].value, omit)]
  }

  /** The members that are printed. */
  predicate Printed(m: Member, k: string, omit: set<string>) {
    m.key == k && m.value != Undefined && k !in omit
  }

  lemma {:induction false} MeaningKeys(ms: seq<Member>, context: Value, omit: set<string>, k: string)
    requires forall m :: m in ms ==> m.value < context
    ensures k in MemberMeanings(ms, context, omit) <==> exists m :: m in ms && Printed(m, k, omit)
  {
    if ms != [] {
      TailMembers(ms);
      MeaningKeys(ms[1..], context, omit, k);
    }
  }

  lemma TailMembers(ms: seq<Member>)
    requires ms != []
    ensures ms[0] in ms && forall x :: x in ms <==> x == ms[0] || x in ms[1..]
  {
    assert ms == [ms[0]] + ms[1..];
  }

  lemma DistinctTail(ms: seq<Member>, i: nat)
    requires DistinctKeys(ms) && 0 < i < |ms|
    ensures DistinctKeys(ms[1..]) && ms[1..][i - 1] == ms[i] && ms[0].key != ms[i].key
  {
  }

  lemma {:induction false} MemberMeaningAt(ms: seq<Member>, context: Value, omit: set<string>, i: nat)
    requires (forall x :: x in ms ==> x.value < context) && DistinctKeys(ms)
    requires i < |ms| && ms[i].value != Undefined && ms[i].key !in omit
    ensures ms[i].key in MemberMeanings(ms, context, omit)
    ensures MemberMeanings(ms, context, omit)[ms[i].key] == Means(ms[i].value, omit)
  {
    if i > 0 {
      DistinctTail(ms, i);
      MemberMeaningAt(ms[1..], context, omit, i - 1);
    }
  }

  lemma MemberMeaning(ms: seq<Member>, context: Value, omit: set<string>, m: Member)
    requires (forall x :: x in ms ==> x.value < context) && DistinctKeys(ms)
    requires m in ms && m.value != Undefined && m.key !in omit
    ensures m.key in MemberMeanings(ms, context, omit) && MemberMeanings(ms, context, omit)[m.key] == Means(m.value, omit)
  {
    var i :| 0 <= i < |ms| && ms[i] == m;
    MemberMeaningAt(ms, context, omit, i);
  }

  // ----- Key order never matters -----

  predicate Ascending(es: seq<Member>, lt: Order) {
    forall i, j :: 0 <= i < j < |es| ==> lt(es[i].key, es[j].key)
  }

  lemma {:induction false} InsertAscends(m: Member, es: seq<Member>, lt: Order)
    requires StrictTotal(lt) && Ascending(es, lt) && forall e :: e in es ==> e.key != m.key
    ensures Ascending(Insert(m, es, lt), lt)
  {
    if es != [] && !lt(m.key, es[0].key) {
      InsertAscends(m, es[1..], lt);
      var rest := Insert(m, es[1..], lt);
      assert forall x :: x in rest ==> x == m || x in es[1..];
      assert lt(es[0].key, m.key) by { assert es[0] in es; }
      forall x | x in rest ensures lt(es[0].key, x.key) {
        if x != m {
          var j :| 0 <= j < |es[1..]| && es[1..][j] == x;
          assert es[j + 1] == x;
        }
      }
    }
  }

  lemma {:induction false} SortedAscends(ms: seq<Member>, lt: Order)
    requires StrictTotal(lt) && DistinctKeys(ms)
    ensures Ascending(Sorted(ms, lt), lt)
  {
    if ms != [] {
      SortedAscends(ms[1..], lt);
      forall e | e in Sorted(ms[1..], lt) ensures e.key != ms[0].key {
        var j :| 0 <= j < |ms[1..]| && ms[1..][j] == e;
        assert ms[j + 1] == e;
      }
      InsertAscends(ms[0], Sorted(ms[1..], lt), lt);
    }
  }

  function Keys(es: seq<Member>): (r: seq<string>)
    ensures |r| == |es|
    ensures forall k :: k in r <==> exists e :: e in es && e.key == k
  {
    if es == [] then [] else [es[0].key] + Keys(es[1..])
  }

  lemma {:induction false} KeyAt(es: seq<Member>, i: nat)
    requires i < |es|
    ensures Keys(es)[i] == es[i].key
  {
    if i > 0 { KeyAt(es[1..], i - 1); }
  }

  lemma {:induction false} KeysAscend(es: seq<Member>, lt: Order)
    requires Ascending(es, lt)
    ensures forall i, j :: 0 <= i < j < |es| ==> lt(Keys(es)[i], Keys(es)[j])
  {
    forall i, j | 0 <= i < j < |es| ensures lt(Keys(es)[i], Keys(es)[j]) {
      KeyAt(es, i);
      KeyAt(es, j);
    }
  }

  /** Two ascending lists of the same keys are the same list. */
  lemma {:induction false} AscendingUnique(a: seq<string>, b: seq<string>, lt: Order)
    requires StrictTotal(lt)
    requires forall i, j :: 0 <= i < j < |a| ==> lt(a[i], a[j])
    requires forall i, j :: 0 <= i < j < |b| ==> lt(b[i], b[j])
    requires forall k :: k in a <==> k in b
    ensures a == b
  {
    assert (a != [] ==> a[0] in b) && (b != [] ==> b[0] in a);
    if a != [] {
      assert a[0] == b[0];
      forall k ensures k in a[1..] <==> k in b[1..] {
        assert k in a <==> k == a[0] || k in a[1..];
        assert k in b <==> k == b[0] || k in b[1..];
        assert a[0] !in a[1..] && b[0] !in b[1..];
      }
      AscendingUnique(a[1..], b[1..], lt);
      assert a == [a[0]] + a[1..] && b == [b[0]] + b[1..];
    }
  }

  lemma ProperMembers(v: Value, e: Member)
    requires Proper(v) && v.Obj? && e in v.members
    ensures Proper(e.value)
  {
    var i :| 0 <= i < |v.members| && v.members[i] == e;
  }

  /** The printed entries of an object are determined, keys and meanings, by what it means. */
  lemma EntryKeys(v: Value, omit: set<string>, lt: Order, k: string)
    requires v.Obj?
    ensures k in Keys(Entries(v, omit, lt)) <==> k in MemberMeanings(v.members, v, omit)
  {
    MeaningKeys(v.members, v, omit, k);
    var es := Entries(v, omit, lt);
    if k in Keys(es) {
      var e :| e in es && e.key == k;
      assert Printed(e, k, omit);
    }
    if m :| m in v.members && Printed(m, k, omit) { assert m in es; }
  }

  lemma EntriesOf(v: Value, omit: set<string>, lt: Order)
    requires StrictTotal(lt) && v.Obj? && Proper(v)
    ensures var es, m := Entries(v, omit, lt), MemberMeanings(v.members, v, omit);
      && Ascending(es, lt)
      && (forall k :: k in Keys(es) <==> k in m)
      && forall e :: e in es ==> Proper(e.value) && e.key in m && m[e.key] == Means(e.value, omit)
  {
    var es := Entries(v, omit, lt);
    SortedAscends(Kept(v.members, omit), lt);
    forall e | e in es
      ensures Proper(e.value) && e.key in MemberMeanings(v.members, v, omit)
      ensures MemberMeanings(v.members, v, omit)[e.key] == Means(e.value, omit)
    {
      ProperMembers(v, e);
      MemberMeaning(v.members, v, omit, e);
    }
    forall k ensures k in Keys(es) <==> k in MemberMeanings(v.members, v, omit) {
      EntryKeys(v, omit, lt, k);
    }
  }

  lemma SameKeysSameOrder(es: seq<Member>, fs: seq<Member>, lt: Order)
    requires StrictTotal(lt) && Ascending(es, lt) && Ascending(fs, lt)
    requires forall k :: k in Keys(es) <==> k in Keys(fs)
    ensures |es| == |fs| && forall i :: 0 <= i < |es| ==> es[i].key == fs[i].key
  {
    KeysAscend(es, lt);
    KeysAscend(fs, lt);
    AscendingUnique(Keys(es), Keys(fs), lt);
    forall i | 0 <= i < |es| ensures es[i].key == fs[i].key {
      KeyAt(es, i);
      KeyAt(fs, i);
    }
  }

  /** Values that mean the same print the same. */
  lemma {:induction false} MeaningFixesText(v: Value, o: set<string>, w: Value, p: set<string>, lt: Order)
    requires StrictTotal(lt) && Proper(v) && Proper(w) && Means(v, o) == Means(w, p)
    ensures Canonical(v, o, lt) == Canonical(w, p, lt)
    decreases v
  {
    match v
    case Arr(items) =>
      ItemsFixText(items, v, o, w.items, w, p, lt);
    case Obj(_) =>
      var es, fs := Entries(v, o, lt), Entries(w, p, lt);
      EntriesOf(v, o, lt);
      EntriesOf(w, p, lt);
      SameKeysSameOrder(es, fs, lt);
      forall i | 0 <= i < |es|
        ensures Means(es[i].value, o) == Means(fs[i].value, p) && Proper(es[i].value) && Proper(fs[i].value)
      {
        assert es[i] in es && fs[i] in fs;
      }
      EntriesFixText(es, v, o, fs, w, p, lt);
    case _ =>
  }

  lemma {:induction false} ItemsFixText(
    vs: seq<Value>, v: Value, o: set<string>, ws: seq<Value>, w: Value, p: set<string>, lt: Order)
    requires StrictTotal(lt) && |vs| == |ws|
    requires forall i :: 0 <= i < |vs| ==> vs[i] < v && ws[i] < w && Proper(vs[i]) && Proper(ws[i])
    requires ItemMeanings(vs, v, o) == ItemMeanings(ws, w, p)
    ensures PrintItems(vs, v, o, lt) == PrintItems(ws, w, p, lt)
    decreases v, |vs|
  {
    if vs != [] {
      assert ItemMeanings(vs, v, o)[0] == ItemMeanings(ws, w, p)[0];
      MeaningFixesText(vs[0], o, ws[0], p, lt);
      assert ItemMeanings(vs[1..], v, o) == ItemMeanings(vs, v, o)[1..];
      assert ItemMeanings(ws[1..], w, p) == ItemMeanings(ws, w, p)[1..];
      ItemsFixText(vs[1..], v, o, ws[1..], w, p, lt);
    }
  }

  lemma {:induction false} EntriesFixText(
    es: seq<Member>, v: Value, o: set<string>, fs: seq<Member>, w: Value, p: set<string>, lt: Order)
    requires StrictTotal(lt) && |es| == |fs|
    requires (forall e :: e in es ==> e.value < v) && forall f :: f in fs ==> f.value < w
    requires forall i :: 0 <= i < |es| ==>
      && es[i].key == fs[i].key && Proper(es[i].value) && Proper(fs[i].value)
      && Means(es[i].value, o) == Means(fs[i].value, p)
    ensures PrintEntries(es, v, o, lt) == PrintEntries(fs, w, p, lt)
    decreases v, |es|
  {
    if es != [] {
      assert es[0] in es && fs[0] in fs;
      MeaningFixesText(es[0].value, o, fs[0].value, p, lt);
      EntriesFixText(es[1..], v, o, fs[1..], w, p, lt);
    }
  }

  // ----- The text is unambiguous -----

  /** What can follow a printed value inside a larger text. */
  predicate Delimited(rest: string) {
    rest == [] || rest[0] == ',' || rest[0] == ']' || rest[0] == '}'
  }

  lemma NumberNotLonger(a: string, s: string, b: string, t: string)
    requires NumberText(a) && NumberText(b) && Delimited(s)
    requires a + s == b + t
    ensures |b| <= |a|
  {
    var i := |a|;
    assert i < |b| ==> (a + s)[i] == (b + t)[i];
    assert i < |b| ==> NumberChar((b + t)[i]);
    assert s != [] ==> !NumberChar((a + s)[i]);
  }

  lemma NumberUnambiguous(a: string, s: string, b: string, t: string)
    requires NumberText(a) && NumberText(b) && Delimited(s) && Delimited(t)
    requires a + s == b + t
    ensures a == b && s == t
  {
    NumberNotLonger(a, s, b, t);
    NumberNotLonger(b, t, a, s);
    assert a == (a + s)[..|a|] && b == (b + t)[..|a|] && s == (a + s)[|a|..] && t == (b + t)[|a|..];
  }

  lemma EscapeUnambiguous(c: char, s: string, d: char, t: string)
    requires Escape(c) + s == Escape(d) + t
    ensures c == d && s == t
  {
    var x, y := Escape(c) + s, Escape(d) + t;
    assert x[0] == Escape(c)[0] && y[0] == Escape(d)[0];
    if x[0] == '\\' {
      assert x[1] == Escape(c)[1] && y[1] == Escape(d)[1];
      if x[1] == 'u' {
        assert x[4] == Escape(c)[4] && y[4] == Escape(d)[4] && x[5] == Escape(c)[5] && y[5] == Escape(d)[5];
        HexUnambiguous(c as int, d as int);
      }
    }
    assert Escape(c) == Escape(d);
    assert s == x[|Escape(c)|..] && t == y[|Escape(d)|..];
  }

  lemma HexUnambiguous(c: int, d: int)
    requires 0 <= c < 32 && 0 <= d < 32
    requires HexDigit(c / 16) == HexDigit(d / 16) && HexDigit(c % 16) == HexDigit(d % 16)
    ensures c == d
  {
    assert forall m: nat, n: nat :: m < 16 && n < 16 && HexDigit(m) == HexDigit(n) ==> m == n;
  }

  lemma EscapedHead(a: string, s: string)
    ensures var x := EscapeAll(a) + "\"" + s;
      if a == [] then x == "\"" + s else x == Escape(a[0]) + (EscapeAll(a[1..]) + "\"" + s) && x[0] != '"'
  {
    if a != [] {
      assert Escape(a[0]) + EscapeAll(a[1..]) + "\"" + s == Escape(a[0]) + (EscapeAll(a[1..]) + "\"" + s);
    }
  }

  lemma {:induction false} EscapeAllUnambiguous(a: string, s: string, b: string, t: string)
    requires EscapeAll(a) + "\"" + s == EscapeAll(b) + "\"" + t
    ensures a == b && s == t
  {
    EscapedHead(a, s);
    EscapedHead(b, t);
    if a == [] {
      DropPrefix("\"", s, t);
    } else {
      EscapeUnambiguous(a[0], EscapeAll(a[1..]) + "\"" + s, b[0], EscapeAll(b[1..]) + "\"" + t);
      EscapeAllUnambiguous(a[1..], s, b[1..], t);
      assert a == [a[0]] + a[1..] && b == [b[0]] + b[1..];
    }
  }

  lemma QuoteHead(a: string, s: string)
    ensures Quote(a) + s == "\"" + (EscapeAll(a) + "\"" + s)
  {
    Assoc3("\"", EscapeAll(a) + "\"", s);
    Assoc3("\"", EscapeAll(a), "\"");
  }

  lemma QuoteUnambiguous(a: string, s: string, b: string, t: string)
    requires Quote(a) + s == Quote(b) + t
    ensures a == b && s == t
  {
    QuoteHead(a, s);
    QuoteHead(b, t);
    DropPrefix("\"", EscapeAll(a) + "\"" + s, EscapeAll(b) + "\"" + t);
    EscapeAllUnambiguous(a, s, b, t);
  }

  lemma DropPrefix(x: string, s: string, t: string)
    requires x + s == x + t
    ensures s == t
  {
    assert s == (x + s)[|x|..] && t == (x + t)[|x|..];
  }

  lemma Assoc(a: string, b: string, c: string, d: string)
    ensures a + b + c + d == a + (b + (c + d))
  {}

  lemma Assoc3(a: string, b: string, c: string)
    ensures a + b + c == a + (b + c)
  {}

  /** The value as it is printed: nulls for undefined scalars, entries kept and in order. */
  datatype Tree =
    | TNull
    | TBool(b: bool)
    | TNum(text: string)
    | TStr(s: string)
    | TArr(items: Trees)
    | TObj(fields: Fields)
  datatype Trees = NoTree | Item(head: Tree, tail: Trees)
  datatype Fields = NoField | Field(key: string, value: Tree, tail: Fields)

  predicate ProperTree(t: Tree) {
    match t
    case TNum(text) => NumberText(text)
    case TArr(items) => ProperTrees(items)
    case TObj(fields) => ProperFields(fields)
    case _ => true
  }

  predicate ProperTrees(ts: Trees) {
    ts.Item? ==> ProperTree(ts.head) && ProperTrees(ts.tail)
  }

  predicate ProperFields(fs: Fields) {
    fs.Field? ==> ProperTree(fs.value) && ProperFields(fs.tail)
  }

  /** The tree's text followed by `rest`. */
  function Text(t: Tree, rest: string): string {
    match t
    case TNull => "null" + rest
    case TBool(b) => (if b then "true" else "false") + rest
    case TNum(text) => text + rest
    case TStr(s) => Quote(s) + rest
    case TArr(items) => "[" + TreesText(items, "]" + rest)
    case TObj(fields) => "{" + FieldsText(fields, "}" + rest)
  }

  function TreesText(ts: Trees, rest: string): string {
    if ts.NoTree? then rest
    else Text(ts.head, if ts.tail.NoTree? then rest else "," + TreesText(ts.tail, rest))
  }

  function FieldsText(fs: Fields, rest: string): string {
    if fs.NoField? then rest
    else Quote(fs.key) + (":" + Text(fs.value, if fs.tail.NoField? then rest else "," + FieldsText(fs.tail, rest)))
  }

  /** The first character tells the kind of value. */
  lemma FirstChar(t: Tree, rest: string)
    requires ProperTree(t)
    ensures var x := Text(t, rest);
      && x != []
      && (t.TNull? <==> x[0] == 'n')
      && (t.TBool? <==> x[0] == 't' || x[0] == 'f')
      && (t.TNum? <==> '0' <= x[0] <= '9' || x[0] == '-')
      && (t.TStr? <==> x[0] == '"') && (t.TArr? <==> x[0] == '[') && (t.TObj? <==> x[0] == '{')
  {
    assert "null"[0] == 'n' && "true"[0] == 't' && "false"[0] == 'f';
  }

  lemma {:induction false} TextUnambiguous(a: Tree, s: string, b: Tree, t: string)
    requires ProperTree(a) && ProperTree(b) && Delimited(s) && Delimited(t)
    requires Text(a, s) == Text(b, t)
    ensures a == b && s == t
    decreases a
  {
    FirstChar(a, s);
    FirstChar(b, t);
    match a
    case TNull =>
      DropPrefix("null", s, t);
    case TBool(x) =>
      assert "true"[0] == 't' && "false"[0] == 'f';
      DropPrefix(if x then "true" else "false", s, t);
    case TNum(x) =>
      NumberUnambiguous(x, s, b.text, t);
    case TStr(x) =>
      QuoteUnambiguous(x, s, b.s, t);
    case TArr(items) =>
      DropPrefix("[", TreesText(items, "]" + s), TreesText(b.items, "]" + t));
      TreesUnambiguous(items, "]" + s, b.items, "]" + t);
      DropPrefix("]", s, t);
    case TObj(fields) =>
      DropPrefix("{", FieldsText(fields, "}" + s), FieldsText(b.fields, "}" + t));
      FieldsUnambiguous(fields, "}" + s, b.fields, "}" + t);
      DropPrefix("}", s, t);
  }

  lemma {:induction false} TreesUnambiguous(a: Trees, s: string, b: Trees, t: string)
    requires ProperTrees(a) && ProperTrees(b)
    requires s != [] && t != [] && s[0] == t[0] == ']'
    requires TreesText(a, s) == TreesText(b, t)
    ensures a == b && s == t
    decreases a
  {
    if a.Item? { FirstChar(a.head, if a.tail.NoTree? then s else "," + TreesText(a.tail, s)); }
    if b.Item? { FirstChar(b.head, if b.tail.NoTree? then t else "," + TreesText(b.tail, t)); }
    if a.Item? {
      var x := if a.tail.NoTree? then s else "," + TreesText(a.tail, s);
      var y := if b.tail.NoTree? then t else "," + TreesText(b.tail, t);
      TextUnambiguous(a.head, x, b.head, y);
      if a.tail.Item? {
        DropPrefix(",", TreesText(a.tail, s), TreesText(b.tail, t));
        TreesUnambiguous(a.tail, s, b.tail, t);
      }
    }
  }

  lemma {:induction false} FieldsUnambiguous(a: Fields, s: string, b: Fields, t: string)
    requires ProperFields(a) && ProperFields(b)
    requires s != [] && t != [] && s[0] == t[0] == '}'
    requires FieldsText(a, s) == FieldsText(b, t)
    ensures a == b && s == t
    decreases a
  {
    assert a.Field? ==> FieldsText(a, s)[0] == '"';
    assert b.Field? ==> FieldsText(b, t)[0] == '"';
    if a.Field? {
      var x := if a.tail.NoField? then s else "," + FieldsText(a.tail, s);
      var y := if b.tail.NoField? then t else "," + FieldsText(b.tail, t);
      QuoteUnambiguous(a.key, ":" + Text(a.value, x), b.key, ":" + Text(b.value, y));
      DropPrefix(":", Text(a.value, x), Text(b.value, y));
      TextUnambiguous(a.value, x, b.value, y);
      if a.tail.Field? {
        DropPrefix(",", FieldsText(a.tail, s), FieldsText(b.tail, t));
        FieldsUnambiguous(a.tail, s, b.tail, t);
      }
    }
  }

  function Normal(v: Value, omit: set<string>, lt: Order): Tree
    decreases v
  {
    match v
    case Undefined => TNull
    case Null => TNull
    case Bool(b) => TBool(b)
    case Num(t) => TNum(t)
    case Str(s) => TStr(s)
    case Arr(items) => TArr(NormalItems(items, v, omit, lt))
    case Obj(_) => TObj(NormalEntries(Entries(v, omit, lt), v, omit, lt))
  }

  function NormalItems(vs: seq<Value>, context: Value, omit: set<string>, lt: Order): Trees
    requires forall i :: 0 <= i < |vs| ==> vs[i] < context
    decreases context, |vs|
  {
    if vs == [] then NoTree else Item(Normal(vs[0], omit, lt), NormalItems(vs[1..], context, omit, lt))
  }

  function NormalEntries(es: seq<Member>, context: Value, omit: set<string>, lt: Order): Fields
    requires forall e :: e in es ==> e.value < context
    decreases context, |es|
  {
    if es == [] then NoField
    else Field(es[0].key, Normal(es[0].value, omit, lt), NormalEntries(es[1..], context, omit, lt))
  }

  lemma {:induction false} PrintsNormal(v: Value, o: set<string>, lt: Order, rest: string)
    requires Proper(v)
    ensures Canonical(v, o, lt) + rest == Text(Normal(v, o, lt), rest) && ProperTree(Normal(v, o, lt))
    decreases v
  {
    match v
    case Arr(items) =>
      PrintsItems(items, v, o, lt, "]" + rest);
      Assoc("[", PrintItems(items, v, o, lt), "]", rest);
    case Obj(_) =>
      var es := Entries(v, o, lt);
      forall e | e in es ensures Proper(e.value) { ProperMembers(v, e); }
      PrintsEntries(es, v, o, lt, "}" + rest);
      Assoc("{", PrintEntries(es, v, o, lt), "}", rest);
    case _ =>
  }

  lemma {:induction false} PrintsItems(vs: seq<Value>, v: Value, o: set<string>, lt: Order, rest: string)
    requires forall i :: 0 <= i < |vs| ==> vs[i] < v && Proper(vs[i])
    ensures PrintItems(vs, v, o, lt) + rest == TreesText(NormalItems(vs, v, o, lt), rest)
    ensures ProperTrees(NormalItems(vs, v, o, lt))
    decreases v, |vs|
  {
    if vs == [] {
      assert "" + rest == rest;
    } else {
      var head, others := Canonical(vs[0], o, lt), PrintItems(vs[1..], v, o, lt);
      PrintsItems(vs[1..], v, o, lt, rest);
      if |vs| == 1 {
        PrintsNormal(vs[0], o, lt, rest);
        assert vs[1..] == [];
      } else {
        PrintsNormal(vs[0], o, lt, "," + (others + rest));
        Assoc(head, ",", others, rest);
      }
    }
  }

  lemma {:induction false} PrintsEntries(es: seq<Member>, v: Value, o: set<string>, lt: Order, rest: string)
    requires forall e :: e in es ==> e.value < v && Proper(e.value)
    ensures PrintEntries(es, v, o, lt) + rest == FieldsText(NormalEntries(es, v, o, lt), rest)
    ensures ProperFields(NormalEntries(es, v, o, lt))
    decreases v, |es|
  {
    if es == [] {
      assert "" + rest == rest;
    } else {
      assert es[0] in es;
      var q, text, others := Quote(es[0].key), Canonical(es[0].value, o, lt), PrintEntries(es[1..], v, o, lt);
      PrintsEntries(es[1..], v, o, lt, rest);
      if |es| == 1 {
        PrintsNormal(es[0].value, o, lt, rest);
        Assoc(q, ":", text, rest);
        assert es[1..] == [];
      } else {
        PrintsNormal(es[0].value, o, lt, "," + (others + rest));
        Assoc(q + ":" + text, ",", others, rest);
        Assoc(q, ":", text, "," + (others + rest));
      }
    }
  }

  /** Values printed alike mean the same. */
  lemma {:induction false} NormalFixesMeaning(v: Value, o: set<string>, w: Value, p: set<string>, lt: Order)
    requires StrictTotal(lt) && Proper(v) && Proper(w) && Normal(v, o, lt) == Normal(w, p, lt)
    ensures Means(v, o) == Means(w, p)
    decreases v
  {
    match v
    case Arr(items) =>
      ItemsFixMeaning(items, v, o, w.items, w, p, lt);
    case Obj(_) =>
      EntriesOf(v, o, lt);
      EntriesOf(w, p, lt);
      EntriesFixMeaning(Entries(v, o, lt), v, o, Entries(w, p, lt), w, p, lt);
      AlikeEntries(v, o, w, p, lt);
    case _ =>
  }

  lemma EntriesListed(v: Value, o: set<string>, lt: Order)
    requires StrictTotal(lt) && Proper(v) && v.Obj?
    ensures Lists(Entries(v, o, lt), o, MemberMeanings(v.members, v, o))
  {
    EntriesOf(v, o, lt);
    var es := Entries(v, o, lt);
    forall i | 0 <= i < |es|
      ensures es[i].key in MemberMeanings(v.members, v, o) && MemberMeanings(v.members, v, o)[es[i].key] == Means(es[i].value, o)
    {
      assert es[i] in es;
    }
  }

  lemma AlikeEntries(v: Value, o: set<string>, w: Value, p: set<string>, lt: Order)
    requires StrictTotal(lt) && Proper(v) && Proper(w) && v.Obj? && w.Obj? && Alike(Entries(v, o, lt), o, Entries(w, p, lt), p)
    ensures Means(v, o) == Means(w, p)
  {
    EntriesListed(v, o, lt);
    EntriesListed(w, p, lt);
    SameEntriesSameMap(Entries(v, o, lt), MemberMeanings(v.members, v, o), o, Entries(w, p, lt), MemberMeanings(w.members, w, p), p);
  }

  lemma {:induction false} ItemsFixMeaning(
    vs: seq<Value>, v: Value, o: set<string>, ws: seq<Value>, w: Value, p: set<string>, lt: Order)
    requires StrictTotal(lt)
    requires forall i :: 0 <= i < |vs| ==> vs[i] < v && Proper(vs[i])
    requires forall i :: 0 <= i < |ws| ==> ws[i] < w && Proper(ws[i])
    requires NormalItems(vs, v, o, lt) == NormalItems(ws, w, p, lt)
    ensures ItemMeanings(vs, v, o) == ItemMeanings(ws, w, p)
    decreases v, |vs|
  {
    if vs != [] && ws != [] {
      NormalFixesMeaning(vs[0], o, ws[0], p, lt);
      ItemsFixMeaning(vs[1..], v, o, ws[1..], w, p, lt);
    }
  }

  predicate Alike(es: seq<Member>, o: set<string>, fs: seq<Member>, p: set<string>) {
    |es| == |fs| && forall i :: 0 <= i < |es| ==> es[i].key == fs[i].key && Means(es[i].value, o) == Means(fs[i].value, p)
  }

  lemma TailAlike(es: seq<Member>, o: set<string>, fs: seq<Member>, p: set<string>)
    requires es != [] && fs != [] && Alike(es[1..], o, fs[1..], p)
    requires es[0].key == fs[0].key && Means(es[0].value, o) == Means(fs[0].value, p)
    ensures Alike(es, o, fs, p)
  {
    forall i | 0 < i < |es| ensures es[i].key == fs[i].key && Means(es[i].value, o) == Means(fs[i].value, p) {
      assert es[i] == es[1..][i - 1] && fs[i] == fs[1..][i - 1];
    }
  }

  lemma {:induction false} EntriesFixMeaning(
    es: seq<Member>, v: Value, o: set<string>, fs: seq<Member>, w: Value, p: set<string>, lt: Order)
    requires StrictTotal(lt)
    requires forall e :: e in es ==> e.value < v && Proper(e.value)
    requires forall f :: f in fs ==> f.value < w && Proper(f.value)
    requires NormalEntries(es, v, o, lt) == NormalEntries(fs, w, p, lt)
    ensures Alike(es, o, fs, p)
    decreases v, |es|
  {
    if es != [] && fs != [] {
      TailMembers(es);
      TailMembers(fs);
      NormalFixesMeaning(es[0].value, o, fs[0].value, p, lt);
      EntriesFixMeaning(es[1..], v, o, fs[1..], w, p, lt);
      TailAlike(es, o, fs, p);
    }
  }

  /** A map holds each entry under its key, and nothing else. */
  ghost predicate Lists(es: seq<Member>, o: set<string>, m: map<string, Meaning>) {
    && (forall k :: k in Keys(es) <==> k in m)
    && forall i :: 0 <= i < |es| ==> es[i].key in m && m[es[i].key] == Means(es[i].value, o)
  }

  lemma EntriesWithin(es: seq<Member>, m: map<string, Meaning>, o: set<string>, fs: seq<Member>, n: map<string, Meaning>, p: set<string>)
    requires Lists(es, o, m) && Lists(fs, p, n) && Alike(es, o, fs, p)
    ensures forall k :: k in m ==> k in n && m[k] == n[k]
  {
    forall k | k in m ensures k in n && m[k] == n[k] {
      assert k in Keys(es);
      var e :| e in es && e.key == k;
      var i :| 0 <= i < |es| && es[i] == e;
      assert fs[i].key in n && n[fs[i].key] == Means(fs[i].value, p);
    }
  }

  lemma SameEntriesSameMap(es: seq<Member>, m: map<string, Meaning>, o: set<string>,
                           fs: seq<Member>, n: map<string, Meaning>, p: set<string>)
    requires Lists(es, o, m) && Lists(fs, p, n) && Alike(es, o, fs, p)
    ensures m == n
  {
    EntriesWithin(es, m, o, fs, n, p);
    EntriesWithin(fs, n, p, es, m, o);
  }

  /** The canonical text of a value holds exactly its meaning: equal texts mean equal values up to
      key order, dropped undefined members and undefined scalars read as null, and none of these
      ever changes the text. */
  lemma CanonicalTextIsMeaning(v: Value, o: set<string>, w: Value, p: set<string>, lt: Order)
    requires StrictTotal(lt) && Proper(v) && Proper(w)
    ensures Canonical(v, o, lt) == Canonical(w, p, lt) <==> Means(v, o) == Means(w, p)
  {
    if Means(v, o) == Means(w, p) {
      MeaningFixesText(v, o, w, p, lt);
    } else if Canonical(v, o, lt) == Canonical(w, p, lt) {
      PrintsNormal(v, o, lt, []);
      PrintsNormal(w, p, lt, []);
      TextUnambiguous(Normal(v, o, lt), [], Normal(w, p, lt), []);
      NormalFixesMeaning(v, o, w, p, lt);
    }
  }

  // ----- Omitting keys while printing is stripping them first -----

  function Strip(v: Value, omit: set<string>): Value
    decreases v
  {
    match v
    case Arr(items) => Arr(seq(|items|, i requires 0 <= i < |items| => Strip(items[i], omit)))
    case Obj(ms) => Obj(StripMembers(ms, v, omit))
    case _ => v
  }

  function StripMembers(ms: seq<Member>, context: Value, omit: set<string>): seq<Member>
    requires forall m :: m in ms ==> m.value < context
    decreases context, |ms|
  {
    if ms == [] then []
    else if ms[0].key in omit then StripMembers(ms[1..], context, omit)
    else [Member(ms[0].key, Strip(ms[0].value, omit))] + StripMembers(ms[1..], context, omit)
  }

  predicate StripsTo(m: Member, x: Member, omit: set<string>) {
    m.key !in omit && x == Member(m.key, Strip(m.value, omit))
  }

  lemma {:induction false} StripMembersAre(ms: seq<Member>, context: Value, omit: set<string>, x: Member)
    requires forall m :: m in ms ==> m.value < context
    ensures x in StripMembers(ms, context, omit) <==> exists m :: m in ms && StripsTo(m, x, omit)
  {
    if ms != [] {
      TailMembers(ms);
      StripMembersAre(ms[1..], context, omit, x);
      assert ms[0].key !in omit ==> StripsTo(ms[0], Member(ms[0].key, Strip(ms[0].value, omit)), omit);
    }
  }

  lemma {:induction false} StripDistinct(ms: seq<Member>, context: Value, omit: set<string>)
    requires (forall m :: m in ms ==> m.value < context) && DistinctKeys(ms)
    ensures DistinctKeys(StripMembers(ms, context, omit))
  {
    if ms != [] {
      StripDistinct(ms[1..], context, omit);
      forall x | x in StripMembers(ms[1..], context, omit) ensures x.key != ms[0].key {
        StripMembersAre(ms[1..], context, omit, x);
        var m :| m in ms[1..] && StripsTo(m, x, omit);
        var j :| 0 <= j < |ms[1..]| && ms[1..][j] == m;
        DistinctTail(ms, j + 1);
      }
    }
  }

  lemma {:induction false} StripMeans(v: Value, omit: set<string>)
    requires Proper(v)
    ensures Proper(Strip(v, omit)) && Means(Strip(v, omit), {}) == Means(v, omit)
    ensures Strip(v, omit) == Undefined <==> v == Undefined
    decreases v
  {
    match v
    case Arr(items) =>
      forall i | 0 <= i < |items|
        ensures Proper(Strip(items[i], omit)) && Means(Strip(items[i], omit), {}) == Means(items[i], omit)
      {
        StripMeans(items[i], omit);
      }
      var r := Strip(v, omit);
      assert ItemMeanings(r.items, r, {}) == ItemMeanings(items, v, omit);
    case Obj(ms) =>
      forall m | m in ms ensures StrippedAlike(m, omit) {
        ProperMembers(v, m);
        StripMeans(m.value, omit);
      }
      StripDistinct(ms, v, omit);
      StripMembersMean(v, omit);
    case _ =>
  }

  ghost predicate StrippedAlike(m: Member, omit: set<string>) {
    && Proper(Strip(m.value, omit)) && Means(Strip(m.value, omit), {}) == Means(m.value, omit)
    && (Strip(m.value, omit) == Undefined <==> m.value == Undefined)
  }

  ghost predicate Strippable(v: Value, omit: set<string>) {
    && v.Obj? && DistinctKeys(v.members) && DistinctKeys(StripMembers(v.members, v, omit))
    && forall m :: m in v.members ==> StrippedAlike(m, omit)
  }

  function Before(v: Value, omit: set<string>): map<string, Meaning>
    requires v.Obj?
  {
    MemberMeanings(v.members, v, omit)
  }

  function After(v: Value, omit: set<string>): map<string, Meaning>
    requires v.Obj?
  {
    MemberMeanings(StripMembers(v.members, v, omit), Strip(v, omit), {})
  }

  lemma StripKeeps(v: Value, omit: set<string>, m: Member)
    requires Strippable(v, omit) && m in v.members && m.value != Undefined && m.key !in omit
    ensures m.key in Before(v, omit) && m.key in After(v, omit) && After(v, omit)[m.key] == Before(v, omit)[m.key]
  {
    var x := Member(m.key, Strip(m.value, omit));
    assert StrippedAlike(m, omit) && StripsTo(m, x, omit);
    StripMembersAre(v.members, v, omit, x);
    MemberMeaning(v.members, v, omit, m);
    MemberMeaning(StripMembers(v.members, v, omit), Strip(v, omit), {}, x);
  }

  lemma AfterWasBefore(v: Value, omit: set<string>, k: string)
    requires Strippable(v, omit) && k in After(v, omit)
    ensures k in Before(v, omit) && After(v, omit)[k] == Before(v, omit)[k]
  {
    MeaningKeys(StripMembers(v.members, v, omit), Strip(v, omit), {}, k);
    var x :| x in StripMembers(v.members, v, omit) && Printed(x, k, {});
    StripMembersAre(v.members, v, omit, x);
    var m :| m in v.members && StripsTo(m, x, omit);
    assert StrippedAlike(m, omit);
    StripKeeps(v, omit, m);
  }

  lemma BeforeIsAfter(v: Value, omit: set<string>, k: string)
    requires Strippable(v, omit) && k in Before(v, omit)
    ensures k in After(v, omit)
  {
    MeaningKeys(v.members, v, omit, k);
    var m :| m in v.members && Printed(m, k, omit);
    StripKeeps(v, omit, m);
  }

  lemma SameMeanings(m: map<string, Meaning>, n: map<string, Meaning>)
    requires (forall k :: k in m ==> k in n && m[k] == n[k]) && forall k :: k in n ==> k in m
    ensures m == n
  {
  }

  lemma StripMembersMean(v: Value, omit: set<string>)
    requires Strippable(v, omit)
    ensures Proper(Strip(v, omit)) && Means(Strip(v, omit), {}) == Means(v, omit)
  {
    forall x | x in StripMembers(v.members, v, omit) ensures Proper(x.value) {
      StripMembersAre(v.members, v, omit, x);
      var m :| m in v.members && StripsTo(m, x, omit);
      assert StrippedAlike(m, omit);
    }
    forall k | k in After(v, omit) ensures k in Before(v, omit) && After(v, omit)[k] == Before(v, omit)[k] {
      AfterWasBefore(v, omit, k);
    }
    forall k | k in Before(v, omit) ensures k in After(v, omit) {
      BeforeIsAfter(v, omit, k);
    }
    SameMeanings(After(v, omit), Before(v, omit));
  }

  /** Printing with omitted keys is printing the value with those keys stripped at every depth. */
  lemma OmitIsStrip(v: Value, omit: set<string>, lt: Order)
    requires StrictTotal(lt) && Proper(v)
    ensures Canonical(v, omit, lt) == CanonicalText(Strip(v, omit), lt)
  {
    StripMeans(v, omit);
    MeaningFixesText(v, omit, Strip(v, omit), {}, lt);
  }

  const VOLATILE_KEYS: set<string> := {"thumbnail_url", "image_url", "picture"}

  /** The text a version's fingerprint hashes. A version is minted exactly when, rendered media urls
      aside, the metadata means something else. */
  lemma VersionMintedIffMeaningChanged(before: Value, after: Value, lt: Order)
    requires StrictTotal(lt) && Proper(before) && Proper(after)
    ensures Canonical(before, VOLATILE_KEYS, lt) != Canonical(after, VOLATILE_KEYS, lt)
      <==> Means(Strip(before, VOLATILE_KEYS), {}) != Means(Strip(after, VOLATILE_KEYS), {})
  {
    StripMeans(before, VOLATILE_KEYS);
    StripMeans(after, VOLATILE_KEYS);
    CanonicalTextIsMeaning(before, VOLATILE_KEYS, after, VOLATILE_KEYS, lt);
  }
}
