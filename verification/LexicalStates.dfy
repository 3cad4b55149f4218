/** The lexical-state labeller: one label per source offset, written in place by a loop that
    looks one character ahead and skips one character after an escape or a block close. */
module LexicalStates {
  import opened Options

  /** A character-by-character automaton: the two skips of the loop are states of their own. */
  datatype Mode =
    | Code
    | Quoted(closer: char)
    | Escaped(closer: char)   // the character after a backslash
    | LineComment
    | BlockComment
    | BlockClosing            // the '/' that ends a block comment

  const CODE: nat := 0
  const STRING: nat := 1
  const TEMPLATE: nat := 2
  const COMMENT: nat := 3

  predicate IsQuote(ch: char) {
    ch == '\'' || ch == '"' || ch == '`'
  }

  function QuoteLabel(closer: char): nat {
    if closer == '`' then TEMPLATE else STRING
  }

  function Peek(s: string, i: nat): Option<char> {
    if i < |s| then Some(s[i]) else None
  }

  function Next(m: Mode, ch: char, next: Option<char>): Mode {
    match m
    case Code =>
      if ch == '/' && next == Some('/') then LineComment
      else if ch == '/' && next == Some('*') then BlockComment
      else if IsQuote(ch) then Quoted(ch)
      else Code
    case Quoted(q) => if ch == '\\' then Escaped(q) else if ch == q then Code else Quoted(q)
    case Escaped(q) => Quoted(q)
    case LineComment => if ch == '\n' then Code else LineComment
    case BlockComment => if ch == '*' && next == Some('/') then BlockClosing else BlockComment
    case BlockClosing => Code
  }

  function Label(m: Mode, ch: char, next: Option<char>): nat {
    match m
    case Code => if ch == '/' && (next == Some('/') || next == Some('*')) then COMMENT else CODE
    case Quoted(q) => if ch == q && ch != '\\' then CODE else QuoteLabel(q)
    case Escaped(q) => QuoteLabel(q)
    case LineComment => COMMENT
    case BlockComment => COMMENT
    case BlockClosing => COMMENT
  }

  /** The automaton's state before offset `i`. */
  function ModeAt(s: string, i: nat): Mode
    requires i <= |s|
  {
    if i == 0 then Code else Next(ModeAt(s, i - 1), s[i - 1], Peek(s, i))
  }

  function LabelAt(s: string, i: nat): nat
    requires i < |s|
  {
    Label(ModeAt(s, i), s[i], Peek(s, i + 1))
  }

  function Labels(s: string): seq<nat> {
    seq(|s|, i requires 0 <= i < |s| => LabelAt(s, i))
  }

  /** How the loop's three variables stand for an automaton state. */
  predicate Stands(state: nat, closer: char, lineComment: bool, m: Mode) {
    match state
    case 0 => m == Code
    case 1 => m == Quoted(closer) && (closer == '\'' || closer == '"')
    case 2 => m == Quoted(closer) && closer == '`'
    case 3 => m == (if lineComment then LineComment else BlockComment)
    case _ => false
  }

  method ComputeStates(source: string) returns (states: array<nat>)
    ensures states[..] == Labels(source)
  {
    var n := |source|;
    states := new nat[n](_ => CODE);
    var state: nat, closer, lineComment := CODE, ' ', false;
    var i := 0;
    while i < n
      invariant 0 <= i <= n + 1
      invariant i <= n ==> Stands(state, closer, lineComment, ModeAt(source, i))
      invariant forall k :: 0 <= k < i && k < n ==> states[k] == LabelAt(source, k)
    {
      var ch := source[i];
      var next := Peek(source, i + 1);
      assert i + 1 <= n && ModeAt(source, i + 1) == Next(ModeAt(source, i), ch, next);
      if state == CODE {
        if ch == '/' && next == Some('/') {
          state, lineComment, states[i] := COMMENT, true, COMMENT;
        } else if ch == '/' && next == Some('*') {
          state, lineComment, states[i] := COMMENT, false, COMMENT;
        } else {
          if ch == '\'' || ch == '"' {
            state, closer := STRING, ch;
          } else if ch == '`' {
            state, closer := TEMPLATE, '`';
          }
          states[i] := CODE;
        }
      } else {
        states[i] := state;
        if state == COMMENT {
          if lineComment && ch == '\n' {
            state := CODE;
          } else if !lineComment && ch == '*' && next == Some('/') {
            states[i + 1] := COMMENT;
            i, state := i + 1, CODE;
          }
        } else if ch == '\\' {
          if i + 1 < n { states[i + 1] := state; }
          i := i + 1;
        } else if ch == closer {
          states[i], state := CODE, CODE;
        }
      }
      i := i + 1;
    }
  }

  lemma {:induction false} ModePrefixStable(s: string, t: string, i: nat)
    requires i < |s|
    ensures ModeAt(s + t, i) == ModeAt(s, i)
  {
    if i > 0 {
      ModePrefixStable(s, t, i - 1);
      assert Peek(s + t, i) == Peek(s, i) && (s + t)[i - 1] == s[i - 1];
    }
  }

  /** Extending the source never changes a label before the last offset ... */
  lemma LabelsPrefixStable(s: string, t: string)
    ensures forall i: nat :: i + 1 < |s| ==> Labels(s + t)[i] == Labels(s)[i]
  {
    forall i: nat | i + 1 < |s| ensures Labels(s + t)[i] == Labels(s)[i] {
      ModePrefixStable(s, t, i);
      assert Peek(s + t, i + 1) == Peek(s, i + 1);
    }
  }

  /** ... and the last one changes exactly when it is a code '/' that the extension turns into a
      comment opener. */
  lemma LastLabelChanges(s: string, t: string)
    requires s != []
    ensures var i := |s| - 1;
      Labels(s + t)[i] != Labels(s)[i]
      <==> ModeAt(s, i) == Code && s[i] == '/' && t != [] && (t[0] == '/' || t[0] == '*')
  {
    ModePrefixStable(s, t, |s| - 1);
    assert Peek(s + t, |s|) == if t == [] then None else Some(t[0]);
  }

  predicate InQuote(s: string, i: nat)
    requires i < |s|
  {
    LabelAt(s, i) == STRING || LabelAt(s, i) == TEMPLATE
  }

  lemma {:induction false} RunKeepsItsQuote(s: string, a: nat, b: nat, q: char)
    requires a <= b <= |s| && IsQuote(q)
    requires ModeAt(s, a) == Quoted(q)
    requires forall k :: a <= k < b ==> InQuote(s, k)
    ensures ModeAt(s, b) == Quoted(q) || ModeAt(s, b) == Escaped(q)
    ensures forall k :: a <= k < b ==> LabelAt(s, k) == QuoteLabel(q)
  {
    if a < b {
      RunKeepsItsQuote(s, a, b - 1, q);
      assert InQuote(s, b - 1);
    }
  }

  /** Every maximal run labelled string or template starts right after its opening quote, carries
      that quote's label throughout and, unless it reaches the end of the source, stops at the same
      quote; both quotes are labelled code. */
  lemma QuotedRunIsDelimited(s: string, a: nat, b: nat)
    requires a < b <= |s|
    requires forall k :: a <= k < b ==> InQuote(s, k)
    requires a > 0 ==> !InQuote(s, a - 1)
    requires b < |s| ==> !InQuote(s, b)
    ensures a > 0 && IsQuote(s[a - 1]) && LabelAt(s, a - 1) == CODE
    ensures forall k :: a <= k < b ==> LabelAt(s, k) == QuoteLabel(s[a - 1])
    ensures b < |s| ==> s[b] == s[a - 1] && LabelAt(s, b) == CODE
  {
    assert InQuote(s, a);
    RunKeepsItsQuote(s, a, b, s[a - 1]);
  }

  // ----- Comments and escapes -----

  /** A '//' in code labels everything through the next newline, or the end of the source, as comment; code
      goes on after the newline. */
  lemma {:induction false} LineCommentRuns(s: string, a: nat, b: nat)
    requires a + 1 < b <= |s| && ModeAt(s, a) == Code && s[a] == '/' && s[a + 1] == '/'
    requires forall k :: a + 1 < k < b ==> s[k] != '\n'
    ensures ModeAt(s, b) == LineComment && forall k :: a <= k < b ==> Labels(s)[k] == 3
    ensures b < |s| && s[b] == '\n' ==> Labels(s)[b] == 3 && ModeAt(s, b + 1) == Code
  {
    if b == a + 2 {
      assert ModeAt(s, a + 1) == LineComment;
    } else {
      LineCommentRuns(s, a, b - 1);
    }
  }

  /** A '/' and '*' in code label everything through the next '*' and '/', the opening star included, or
      the end of the source; code goes on after it. */
  lemma {:induction false} BlockCommentRuns(s: string, a: nat, b: nat)
    requires a < b < |s| && ModeAt(s, a) == Code && s[a] == '/' && s[a + 1] == '*'
    requires forall k :: a < k < b ==> !(s[k] == '*' && s[k + 1] == '/')
    ensures ModeAt(s, b) == BlockComment && forall k :: a <= k <= b ==> Labels(s)[k] == 3
    ensures b + 1 < |s| && s[b] == '*' && s[b + 1] == '/' ==> Labels(s)[b + 1] == 3 && ModeAt(s, b + 2) == Code
  {
    if b > a + 1 { BlockCommentRuns(s, a, b - 1); }
  }

  /** Inside quotes a backslash takes the next character with it, whatever that is; only the quote that
      opened them closes them. */
  lemma EscapeIsSkipped(s: string, i: nat, q: char)
    requires i < |s| && IsQuote(q) && ModeAt(s, i) == Quoted(q)
    ensures s[i] == '\\' ==> Labels(s)[i] == (if q == '`' then 2 else 1)
    ensures s[i] == '\\' && i + 1 < |s| ==> Labels(s)[i + 1] == Labels(s)[i] && ModeAt(s, i + 2) == Quoted(q)
    ensures s[i] == q ==> Labels(s)[i] == 0 && ModeAt(s, i + 1) == Code
    ensures s[i] != q && s[i] != '\\' ==> Labels(s)[i] == (if q == '`' then 2 else 1) && ModeAt(s, i + 1) == Quoted(q)
  {
    assert ModeAt(s, i + 1) == Next(Quoted(q), s[i], Peek(s, i + 1));
    if i + 1 < |s| && s[i] == '\\' {
      assert ModeAt(s, i + 1) == Escaped(q);
      assert ModeAt(s, i + 2) == Next(Escaped(q), s[i + 1], Peek(s, i + 2));
    }
  }

  /** A source starts in code, and only a quote or an opened comment leaves it. */
  lemma CodeGoesOn(s: string, i: nat)
    requires i < |s| && ModeAt(s, i) == Code
    ensures ModeAt(s, 0) == Code
    ensures s[i] in {'\'', '"', '`'} ==> Labels(s)[i] == 0 && ModeAt(s, i + 1) == Quoted(s[i])
    ensures s[i] !in {'\'', '"', '`', '/'} ==> Labels(s)[i] == 0 && ModeAt(s, i + 1) == Code
    ensures s[i] == '/' && !(i + 1 < |s| && s[i + 1] in {'/', '*'}) ==> Labels(s)[i] == 0 && ModeAt(s, i + 1) == Code
  {
    assert ModeAt(s, i + 1) == Next(Code, s[i], Peek(s, i + 1));
  }
}
