/** Reading canonical text back, by the grammar of RFC 8259 without white space. */
module JsonReading {
  import opened Options
  import opened CanonicalJson

  datatype Read<T> = Got(value: T, rest: string) | Bad

  // ----- Strings (section 7 of RFC 8259) -----

  function HexValue(c: char): Option<nat> {
    if '0' <= c <= '9' then Some((c as int) - 48)
    else if 'a' <= c <= 'f' then Some((c as int) - 87)
    else if 'A' <= c <= 'F' then Some((c as int) - 55)
    else None
  }

  function FourHex(a: char, b: char, c: char, d: char): Option<nat> {
    var w, x, y, z := HexValue(a), HexValue(b), HexValue(c), HexValue(d);
    if w.None? || x.None? || y.None? || z.None? then None
    else Some(w.value * 4096 + x.value * 256 + y.value * 16 + z.value)
  }

  /** One character of a string, escaped or not. */
  function ReadChar(s: string): (r: Read<char>)
    ensures r.Got? ==> |r.rest| < |s|
  {
    if s == [] || s[0] == '"' || (s[0] as int) < 32 then Bad
    else if s[0] != '\\' then Got(s[0], s[1..])
    else if |s| < 2 then Bad
    else match s[1]
      case '"' => Got('"', s[2..])
      case '\\' => Got('\\', s[2..])
      case '/' => Got('/', s[2..])
      case 'b' => Got(8 as char, s[2..])
      case 'f' => Got(12 as char, s[2..])
      case 'n' => Got(10 as char, s[2..])
      case 'r' => Got(13 as char, s[2..])
      case 't' => Got(9 as char, s[2..])
      case 'u' =>
        if |s| < 6 then Bad
        else
          var code := FourHex(s[2], s[3], s[4], s[5]);
          if code.None? || 0xD800 <= code.value < 0xE000 || code.value >= 0x10000 then Bad
          else Got(code.value as char, s[6..])
      case _ => Bad
  }

  /** The characters up to the closing quotation mark. */
  function ReadChars(s: string): (r: Read<string>)
    ensures r.Got? ==> |r.rest| < |s|
    decreases |s|
  {
    if s == [] then Bad
    else if s[0] == '"' then Got([], s[1..])
    else
      var first := ReadChar(s);
      if first.Bad? then Bad
      else
        var more := ReadChars(first.rest);
        if more.Bad? then Bad else Got([first.value] + more.value, more.rest)
  }

  function ReadString(s: string): (r: Read<string>)
    ensures r.Got? ==> |r.rest| < |s|
  {
    if s == [] || s[0] != '"' then Bad else ReadChars(s[1..])
  }

  // ----- Values (sections 3 to 6) -----

  /** How many characters of a number stand at the head. */
  function NumberLength(s: string): (n: nat)
    ensures n <= |s|
  {
    if s == [] || !NumberChar(s[0]) then 0 else 1 + NumberLength(s[1..])
  }

  predicate StartsWith(s: string, word: string) {
    |word| <= |s| && s[..|word|] == word
  }

  function ReadValue(s: string): (r: Read<Tree>)
    ensures r.Got? ==> |r.rest| < |s|
    decreases |s|, 1
  {
    if s == [] then Bad
    else if StartsWith(s, "null") then Got(TNull, s[4..])
    else if StartsWith(s, "true") then Got(TBool(true), s[4..])
    else if StartsWith(s, "false") then Got(TBool(false), s[5..])
    else if s[0] == '"' then
      var text := ReadString(s);
      if text.Bad? then Bad else Got(TStr(text.value), text.rest)
    else if s[0] == '[' then
      if StartsWith(s[1..], "]") then Got(TArr(NoTree), s[2..])
      else
        var items := ReadItems(s[1..]);
        if items.Bad? then Bad else Got(TArr(items.value), items.rest)
    else if s[0] == '{' then
      if StartsWith(s[1..], "}") then Got(TObj(NoField), s[2..])
      else
        var fields := ReadFields(s[1..]);
        if fields.Bad? then Bad else Got(TObj(fields.value), fields.rest)
    else if s[0] == '-' || '0' <= s[0] <= '9' then Got(TNum(s[..NumberLength(s)]), s[NumberLength(s)..])
    else Bad
  }

  /** At least one item, and the closing bracket. */
  function ReadItems(s: string): (r: Read<Trees>)
    ensures r.Got? ==> |r.rest| < |s|
    decreases |s|, 2
  {
    var head := ReadValue(s);
    if head.Bad? || head.rest == [] then Bad
    else if head.rest[0] == ']' then Got(Item(head.value, NoTree), head.rest[1..])
    else if head.rest[0] != ',' then Bad
    else
      var tail := ReadItems(head.rest[1..]);
      if tail.Bad? then Bad else Got(Item(head.value, tail.value), tail.rest)
  }

  /** At least one member, and the closing brace. */
  function ReadFields(s: string): (r: Read<Fields>)
    ensures r.Got? ==> |r.rest| < |s|
    decreases |s|, 2
  {
    var key := ReadString(s);
    if key.Bad? || key.rest == [] || key.rest[0] != ':' then Bad
    else
      var value := ReadValue(key.rest[1..]);
      if value.Bad? || value.rest == [] then Bad
      else if value.rest[0] == '}' then Got(Field(key.value, value.value, NoField), value.rest[1..])
      else if value.rest[0] != ',' then Bad
      else
        var tail := ReadFields(value.rest[1..]);
        if tail.Bad? then Bad else Got(Field(key.value, value.value, tail.value), tail.rest)
  }

  // ----- Reading undoes printing -----

  lemma ReadsChar(c: char, rest: string)
    ensures ReadChar(Escape(c) + rest) == Got(c, rest)
    ensures Escape(c) != [] && (Escape(c) + rest)[0] != '"'
  {
    var s := Escape(c) + rest;
    assert s[|Escape(c)|..] == rest;
    if s[0] == '\\' && s[1] == 'u' {
      ReadsHex(c as int / 16);
      ReadsHex(c as int % 16);
      assert s[2] == '0' && s[3] == '0' && s[4] == HexDigit(c as int / 16) && s[5] == HexDigit(c as int % 16);
    }
  }

  lemma ReadsHex(n: nat)
    requires n < 16
    ensures HexValue(HexDigit(n)) == Some(n)
  {
  }

  lemma {:induction false} ReadsChars(text: string, rest: string)
    ensures ReadChars(EscapeAll(text) + "\"" + rest) == Got(text, rest)
  {
    EscapedHead(text, rest);
    if text == [] {
      assert ("\"" + rest)[1..] == rest;
    } else {
      ReadsChar(text[0], EscapeAll(text[1..]) + "\"" + rest);
      ReadsChars(text[1..], rest);
      assert text == [text[0]] + text[1..];
    }
  }

  lemma ReadsString(text: string, rest: string)
    ensures ReadString(Quote(text) + rest) == Got(text, rest)
  {
    QuoteHead(text, rest);
    ReadsChars(text, rest);
    assert ("\"" + (EscapeAll(text) + "\"" + rest))[1..] == EscapeAll(text) + "\"" + rest;
  }

  lemma {:induction false} NumberEnds(text: string, rest: string)
    requires (forall i :: 0 <= i < |text| ==> NumberChar(text[i])) && Delimited(rest)
    ensures NumberLength(text + rest) == |text|
  {
    if text == [] {
      assert text + rest == rest;
    } else {
      NumberEnds(text[1..], rest);
      assert (text + rest)[1..] == text[1..] + rest;
    }
  }

  lemma ReadsNumber(text: string, rest: string)
    requires NumberText(text) && Delimited(rest)
    ensures ReadValue(text + rest) == Got(TNum(text), rest)
  {
    NumberEnds(text, rest);
    var s := text + rest;
    assert s[0] == text[0] && s[..|text|] == text && s[|text|..] == rest;
    assert !StartsWith(s, "null") by { assert "null"[0] == 'n'; }
    assert !StartsWith(s, "true") by { assert "true"[0] == 't'; }
    assert !StartsWith(s, "false") by { assert "false"[0] == 'f'; }
  }

  lemma NoWord(s: string)
    requires s != [] && s[0] !in {'n', 't', 'f'}
    ensures !StartsWith(s, "null") && !StartsWith(s, "true") && !StartsWith(s, "false")
  {
    assert "null"[0] == 'n' && "true"[0] == 't' && "false"[0] == 'f';
  }

  lemma ReadsWord(t: Tree, rest: string)
    requires t.TNull? || t.TBool?
    ensures ReadValue(Text(t, rest)) == Got(t, rest)
  {
    var s := Text(t, rest);
    assert "null"[0] == 'n' && "true"[0] == 't' && "false"[0] == 'f';
    match t
    case TNull => assert s == "null" + rest && s[..4] == "null" && s[4..] == rest;
    case TBool(b) =>
      if b {
        assert s == "true" + rest && s[0] == 't' && s[..4] == "true" && s[4..] == rest;
      } else {
        assert s == "false" + rest && s[0] == 'f' && s[..5] == "false" && s[5..] == rest;
      }
  }

  /** Reading a printed tree gives the tree, and leaves what followed it. */
  lemma {:induction false} ReadsTree(t: Tree, rest: string)
    requires ProperTree(t) && Delimited(rest)
    ensures ReadValue(Text(t, rest)) == Got(t, rest)
    decreases t
  {
    match t
    case TNum(text) => ReadsNumber(text, rest);
    case TStr(text) =>
      ReadsString(text, rest);
      NoWord(Quote(text) + rest);
    case TArr(items) =>
      if items.Item? { ReadsTrees(items, rest); }
      ReadsArray(items, rest);
    case TObj(fields) =>
      if fields.Field? { ReadsFields(fields, rest); }
      ReadsObject(fields, rest);
    case _ => ReadsWord(t, rest);
  }

  lemma OpenBracket(s: string)
    ensures ReadValue("[" + s) ==
      if StartsWith(s, "]") then Got(TArr(NoTree), s[1..])
      else if ReadItems(s).Bad? then Bad else Got(TArr(ReadItems(s).value), ReadItems(s).rest)
  {
    NoWord("[" + s);
    assert ("[" + s)[1..] == s;
    if s != [] { assert ("[" + s)[2..] == s[1..]; }
  }

  lemma OpenBrace(s: string)
    ensures ReadValue("{" + s) ==
      if StartsWith(s, "}") then Got(TObj(NoField), s[1..])
      else if ReadFields(s).Bad? then Bad else Got(TObj(ReadFields(s).value), ReadFields(s).rest)
  {
    NoWord("{" + s);
    assert ("{" + s)[1..] == s;
    if s != [] { assert ("{" + s)[2..] == s[1..]; }
  }

  lemma ReadsArray(items: Trees, rest: string)
    requires ProperTrees(items)
    requires items.Item? ==> ReadItems(TreesText(items, "]" + rest)) == Got(items, rest)
    ensures ReadValue("[" + TreesText(items, "]" + rest)) == Got(TArr(items), rest)
  {
    OpenBracket(TreesText(items, "]" + rest));
    if items.NoTree? {
      assert ("]" + rest)[1..] == rest;
    } else {
      NotClosed(items.head, if items.tail.NoTree? then "]" + rest else "," + TreesText(items.tail, "]" + rest));
    }
  }

  lemma ReadsObject(fields: Fields, rest: string)
    requires ProperFields(fields)
    requires fields.Field? ==> ReadFields(FieldsText(fields, "}" + rest)) == Got(fields, rest)
    ensures ReadValue("{" + FieldsText(fields, "}" + rest)) == Got(TObj(fields), rest)
  {
    OpenBrace(FieldsText(fields, "}" + rest));
    if fields.NoField? {
      assert ("}" + rest)[1..] == rest;
    } else {
      NotEnded(fields, "}" + rest);
    }
  }

  lemma NotEnded(fs: Fields, rest: string)
    requires fs.Field?
    ensures !StartsWith(FieldsText(fs, rest), "}")
  {
    QuoteHead(fs.key, FieldsText(fs, rest)[|Quote(fs.key)|..]);
    assert FieldsText(fs, rest)[0] == Quote(fs.key)[0] == '"';
  }

  lemma NotClosed(t: Tree, rest: string)
    requires ProperTree(t)
    ensures !StartsWith(Text(t, rest), "]")
  {
    FirstChar(t, rest);
  }

  lemma {:induction false} ReadsTrees(ts: Trees, rest: string)
    requires ts.Item? && ProperTrees(ts)
    ensures ReadItems(TreesText(ts, "]" + rest)) == Got(ts, rest)
    decreases ts
  {
    var end := "]" + rest;
    assert end[1..] == rest;
    if ts.tail.NoTree? {
      ReadsTree(ts.head, end);
    } else {
      var more := TreesText(ts.tail, end);
      ReadsTree(ts.head, "," + more);
      ReadsTrees(ts.tail, rest);
      assert ("," + more)[1..] == more;
    }
  }

  lemma {:induction false} ReadsFields(fs: Fields, rest: string)
    requires fs.Field? && ProperFields(fs)
    ensures ReadFields(FieldsText(fs, "}" + rest)) == Got(fs, rest)
    decreases fs
  {
    var end := "}" + rest;
    assert end[1..] == rest;
    var after := if fs.tail.NoField? then end else "," + FieldsText(fs.tail, end);
    ReadsString(fs.key, ":" + Text(fs.value, after));
    assert (":" + Text(fs.value, after))[1..] == Text(fs.value, after);
    ReadsTree(fs.value, after);
    if fs.tail.Field? {
      var more := FieldsText(fs.tail, end);
      ReadsFields(fs.tail, rest);
      assert ("," + more)[1..] == more;
    }
  }

  // ----- What is read -----

  function TreeMeans(t: Tree): Meaning {
    match t
    case TNull => MNull
    case TBool(b) => MBool(b)
    case TNum(text) => MNum(text)
    case TStr(s) => MStr(s)
    case TArr(items) => MArr(TreesMean(items))
    case TObj(fields) => MObj(FieldsMean(fields))
  }

  function TreesMean(ts: Trees): seq<Meaning> {
    if ts.NoTree? then [] else [TreeMeans(ts.head)] + TreesMean(ts.tail)
  }

  function FieldsMean(fs: Fields): map<string, Meaning> {
    if fs.NoField? then map[] else FieldsMean(fs.tail)[fs.key := TreeMeans(fs.value)]
  }

  lemma {:induction false} NormalMeans(v: Value, o: set<string>, lt: Order)
    requires StrictTotal(lt) && Proper(v)
    ensures TreeMeans(Normal(v, o, lt)) == Means(v, o)
    decreases v
  {
    match v
    case Arr(items) => ItemsMean(items, v, o, lt);
    case Obj(ms) =>
      EntriesOf(v, o, lt);
      EntriesMean(Entries(v, o, lt), v, o, lt, MemberMeanings(ms, v, o));
    case _ =>
  }

  lemma {:induction false} ItemsMean(vs: seq<Value>, v: Value, o: set<string>, lt: Order)
    requires StrictTotal(lt) && forall i :: 0 <= i < |vs| ==> vs[i] < v && Proper(vs[i])
    ensures TreesMean(NormalItems(vs, v, o, lt)) == ItemMeanings(vs, v, o)
    decreases v, |vs|
  {
    if vs != [] {
      NormalMeans(vs[0], o, lt);
      ItemsMean(vs[1..], v, o, lt);
    }
  }

  /** A map holds each entry's meaning under its key, and nothing else. */
  ghost predicate HeldBy(es: seq<Member>, o: set<string>, m: map<string, Meaning>) {
    && (forall e :: e in es ==> e.key in m && m[e.key] == Means(e.value, o))
    && forall k :: k in Keys(es) <==> k in m
  }

  lemma {:induction false} EntriesMean(es: seq<Member>, v: Value, o: set<string>, lt: Order, m: map<string, Meaning>)
    requires StrictTotal(lt) && Ascending(es, lt) && HeldBy(es, o, m)
    requires forall e :: e in es ==> e.value < v && Proper(e.value)
    ensures FieldsMean(NormalEntries(es, v, o, lt)) == m
    decreases v, |es|
  {
    if es != [] {
      TailMembers(es);
      NormalMeans(es[0].value, o, lt);
      FirstIsNew(es, lt);
      TailHeld(es, o, m);
      EntriesMean(es[1..], v, o, lt, m - {es[0].key});
      PutBack(m, es[0].key);
    } else {
      assert forall k :: k in m ==> k in Keys(es);
    }
  }

  lemma PutBack(m: map<string, Meaning>, k: string)
    requires k in m
    ensures (m - {k})[k := m[k]] == m
  {
  }

  lemma TailHeld(es: seq<Member>, o: set<string>, m: map<string, Meaning>)
    requires es != [] && HeldBy(es, o, m) && forall e :: e in es[1..] ==> e.key != es[0].key
    ensures HeldBy(es[1..], o, m - {es[0].key})
  {
    TailMembers(es);
    assert Keys(es) == [es[0].key] + Keys(es[1..]);
  }

  lemma FirstIsNew(es: seq<Member>, lt: Order)
    requires StrictTotal(lt) && Ascending(es, lt) && es != []
    ensures Ascending(es[1..], lt) && forall e :: e in es[1..] ==> e.key != es[0].key
  {
    forall e | e in es[1..] ensures e.key != es[0].key {
      var j :| 0 <= j < |es[1..]| && es[1..][j] == e;
      assert es[j + 1] == e;
    }
  }

  /** Canonical text is the JSON of its value: reading it gives the value's meaning, with nothing left over. */
  lemma ReadingIsMeaning(v: Value, o: set<string>, lt: Order)
    requires StrictTotal(lt) && Proper(v)
    ensures ReadValue(Canonical(v, o, lt)).Got? && ReadValue(Canonical(v, o, lt)).rest == []
    ensures TreeMeans(ReadValue(Canonical(v, o, lt)).value) == Means(v, o)
  {
    PrintsNormal(v, o, lt, []);
    assert Canonical(v, o, lt) + [] == Canonical(v, o, lt);
    ReadsTree(Normal(v, o, lt), []);
    NormalMeans(v, o, lt);
  }

  // ----- What an omitted key leaves out -----

  /** A meaning without these keys, at every depth. */
  function Without(m: Meaning, keys: set<string>): Meaning {
    match m
    case MArr(items) => MArr(seq(|items|, i requires 0 <= i < |items| => Without(items[i], keys)))
    case MObj(members) => MObj(map k | k in members && k !in keys :: Without(members[k], keys))
    case _ => m
  }

  lemma {:induction false} OmittingIsWithout(v: Value, o: set<string>)
    requires Proper(v)
    ensures Means(v, o) == Without(Means(v, {}), o)
    decreases v
  {
    match v
    case Arr(items) =>
      forall i | 0 <= i < |items| ensures Means(items[i], o) == Without(Means(items[i], {}), o) { OmittingIsWithout(items[i], o); }
      assert Means(v, o).items == Without(Means(v, {}), o).items;
    case Obj(ms) =>
      forall m | m in ms ensures Means(m.value, o) == Without(Means(m.value, {}), o) {
        ProperMembers(v, m);
        OmittingIsWithout(m.value, o);
      }
      MembersWithout(v, o);
    case _ =>
  }

  lemma MembersWithout(v: Value, o: set<string>)
    requires Proper(v) && v.Obj?
    requires forall m :: m in v.members ==> Means(m.value, o) == Without(Means(m.value, {}), o)
    ensures Means(v, o) == Without(Means(v, {}), o)
  {
    var some, all := MemberMeanings(v.members, v, o), MemberMeanings(v.members, v, {});
    forall k ensures (k in some <==> k in all && k !in o) && (k in some ==> some[k] == Without(all[k], o)) {
      MemberWithout(v, o, k);
    }
    assert some == map k | k in all && k !in o :: Without(all[k], o);
  }

  lemma MemberWithout(v: Value, o: set<string>, k: string)
    requires Proper(v) && v.Obj?
    requires forall m :: m in v.members ==> Means(m.value, o) == Without(Means(m.value, {}), o)
    ensures var some, all := MemberMeanings(v.members, v, o), MemberMeanings(v.members, v, {});
      (k in some <==> k in all && k !in o) && (k in some ==> some[k] == Without(all[k], o))
  {
    MeaningKeys(v.members, v, o, k);
    MeaningKeys(v.members, v, {}, k);
    if m :| m in v.members && Printed(m, k, {}) {
      MemberMeaning(v.members, v, {}, m);
      if k !in o {
        assert Printed(m, k, o);
        MemberMeaning(v.members, v, o, m);
      }
    }
  }

  /** A version is minted exactly when something other than a rendered media URL means something new. */
  lemma MintedIffMeaningMoved(before: Value, after: Value, lt: Order)
    requires StrictTotal(lt) && Proper(before) && Proper(after)
    ensures Canonical(before, VOLATILE_KEYS, lt) != Canonical(after, VOLATILE_KEYS, lt) <==>
      Without(Means(before, {}), {"thumbnail_url", "image_url", "picture"})
      != Without(Means(after, {}), {"thumbnail_url", "image_url", "picture"})
  {
    OmittingIsWithout(before, VOLATILE_KEYS);
    OmittingIsWithout(after, VOLATILE_KEYS);
    CanonicalTextIsMeaning(before, VOLATILE_KEYS, after, VOLATILE_KEYS, lt);
  }
}
