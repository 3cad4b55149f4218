/** The NDJSON frame reader. Chunks are decoded text with their byte counts (a streaming decoder gives
    the same text however the bytes are cut); parsing one line is an oracle. */
module StreamReader {
  import opened Options

  const MAX_STREAM_BYTES: nat := 16 * 1024 * 1024
  const MAX_LINE_BYTES: nat := 1024 * 1024

  datatype Kind = Progress | Done | Error | OtherKind

  /** One parsed line; a field of another JSON type is None. */
  datatype Parsed<D> =
    | NotJson
    | NotRecord
    | Record(protocolOk: bool, requestId: Option<string>, sequence: Option<int>, kind: Kind, data: D)

  datatype Env<!D> = Env(parse: string -> Parsed<D>, requestId: string)

  datatype Failure =
    | BlankFrame | OversizedFrame | MalformedJson | MalformedFrame | UnknownFrame | OversizedStream
    | Incompatible | RequestMismatch | OutOfOrder | TrailingFrame | MissingTerminal | Transport

  datatype Frame<D> = Frame(sequence: nat, data: D)
  datatype Terminal<D> = Terminal(isError: bool, data: D)

  /** The reader's variables: the next sequence number, the terminal frame, the progress handed on. */
  datatype Reader<D> = Reader(expected: nat, terminal: Option<Terminal<D>>, progress: seq<Frame<D>>)

  datatype State<D> = Open(reader: Reader<D>) | Failed(failure: Failure, progress: seq<Frame<D>>)

  datatype Outcome<D> = Outcome(progress: seq<Frame<D>>, verdict: Verdict<D>)
  datatype Verdict<D> = Success(terminal: Terminal<D>) | Failure(failure: Failure)

  function Start<D>(): State<D> {
    Open(Reader(1, None, []))
  }

  // ----- Text -----

  function Utf8Length(c: char): nat {
    if (c as int) < 0x80 then 1 else if (c as int) < 0x800 then 2 else if (c as int) < 0x1_0000 then 3 else 4
  }

  function ByteLength(s: string): nat {
    if s == [] then 0 else ByteLength(s[..|s| - 1]) + Utf8Length(s[|s| - 1])
  }

  predicate IsSpace(c: char) {
    || (9 <= c as int <= 13) || c == ' ' || c as int == 0xA0 || c as int == 0x1680 || (0x2000 <= c as int <= 0x200A)
    || c as int == 0x2028 || c as int == 0x2029 || c as int == 0x202F || c as int == 0x205F || c as int == 0x3000
    || c as int == 0xFEFF
  }

  predicate Blank(s: string) {
    forall i :: 0 <= i < |s| ==> IsSpace(s[i])
  }

  function DropCr(line: string): string {
    if line != [] && line[|line| - 1] == '\r' then line[..|line| - 1] else line
  }

  /** The raw complete lines of a text and what follows its last newline. */
  function RawLines(text: string): seq<string> {
    if text == [] then []
    else
      var init := text[..|text| - 1];
      if text[|text| - 1] == '\n' then RawLines(init) + [Rest(init)] else RawLines(init)
  }

  function Rest(text: string): string {
    if text == [] || text[|text| - 1] == '\n' then []
    else Rest(text[..|text| - 1]) + [text[|text| - 1]]
  }

  // ----- One frame -----

  function ConsumeLine<D>(env: Env<D>, r: Reader<D>, line: string): State<D> {
    if Blank(line) then Failed(BlankFrame, r.progress)
    else if ByteLength(line) > MAX_LINE_BYTES then Failed(OversizedFrame, r.progress)
    else match env.parse(line)
      case NotJson => Failed(MalformedJson, r.progress)
      case NotRecord => Failed(MalformedFrame, r.progress)
      case Record(protocolOk, requestId, sequence, kind, data) =>
        if !protocolOk then Failed(Incompatible, r.progress)
        else if requestId != Some(env.requestId) then Failed(RequestMismatch, r.progress)
        else if sequence != Some(r.expected) then Failed(OutOfOrder, r.progress)
        else if r.terminal.Some? then Failed(TrailingFrame, r.progress)
        else
          match kind
          case Progress => Open(Reader(r.expected + 1, None, r.progress + [Frame(r.expected, data)]))
          case Done => Open(Reader(r.expected + 1, Some(Terminal(false, data)), r.progress))
          case Error => Open(Reader(r.expected + 1, Some(Terminal(true, data)), r.progress))
          case OtherKind => Failed(UnknownFrame, r.progress)
  }

  /** Raw lines in order, each without its CR; the first failure ends the stream. */
  function ConsumeAll<D>(env: Env<D>, st: State<D>, lines: seq<string>): State<D> {
    if lines == [] then st
    else
      match ConsumeAll(env, st, lines[..|lines| - 1])
      case Failed(f, progress) => Failed(f, progress)
      case Open(r) => ConsumeLine(env, r, DropCr(lines[|lines| - 1]))
  }

  function Finish<D>(st: State<D>, closed: bool): Outcome<D> {
    match st
    case Failed(f, progress) => Outcome(progress, Failure(f))
    case Open(r) =>
      if !closed then Outcome(r.progress, Failure(Transport))
      else if r.terminal.None? then Outcome(r.progress, Failure(MissingTerminal))
      else Outcome(r.progress, Success(r.terminal.value))
  }

  /** The lines a closed stream is made of: a last one without newline counts unless it is blank. */
  function Lines(text: string, closed: bool): seq<string> {
    if closed && !Blank(Rest(text)) then RawLines(text) + [Rest(text)] else RawLines(text)
  }

  /** What a stream means: a function of its whole text and of whether it closed or broke. */
  function Read<D>(env: Env<D>, text: string, closed: bool): Outcome<D> {
    Finish(ConsumeAll(env, Start(), Lines(text, closed)), closed)
  }

  // ----- The chunked reader -----

  datatype Chunk = Chunk(text: string, bytes: nat)

  /** After `i` chunks; `flush` is what the decoder holds back until the end. */
  function ReadFrom<D>(
    env: Env<D>, chunks: seq<Chunk>, i: nat, flush: string, closed: bool, st: State<D>, buffer: string, bytes: nat): Outcome<D>
    requires i <= |chunks|
    decreases |chunks| - i
  {
    match st
    case Failed(f, progress) => Outcome(progress, Failure(f))
    case Open(r) =>
      if i == |chunks| then
        if !closed then Outcome(r.progress, Failure(Transport))
        else
          var last := buffer + flush;
          Finish(if Blank(last) then st else ConsumeLine(env, r, DropCr(last)), closed)
      else if bytes + chunks[i].bytes > MAX_STREAM_BYTES then Outcome(r.progress, Failure(OversizedStream))
      else
        var text := buffer + chunks[i].text;
        var next := ConsumeAll(env, st, RawLines(text));
        if next.Open? && ByteLength(Rest(text)) > MAX_LINE_BYTES then Outcome(next.reader.progress, Failure(OversizedFrame))
        else ReadFrom(env, chunks, i + 1, flush, closed, next, Rest(text), bytes + chunks[i].bytes)
  }

  function NewlineIndex(s: string): (n: Option<nat>)
    ensures n.None? ==> '\n' !in s
    ensures n.Some? ==> n.value < |s| && s[n.value] == '\n' && '\n' !in s[..n.value]
  {
    if s == [] then None
    else if s[0] == '\n' then Some(0)
    else
      var rest := NewlineIndex(s[1..]);
      assert s == [s[0]] + s[1..];
      if rest.None? then None
      else
        assert s[..rest.value + 1] == [s[0]] + s[1..][..rest.value];
        Some(rest.value + 1)
  }

  lemma {:induction false} NoNewline(s: string)
    requires '\n' !in s
    ensures RawLines(s) == [] && Rest(s) == s
  {
    if s != [] {
      assert s == s[..|s| - 1] + [s[|s| - 1]];
      NoNewline(s[..|s| - 1]);
    }
  }

  /** Cutting a text anywhere: the lines of the first part, then those of its rest and the second part. */
  lemma LinesSnoc(s: string, c: char)
    ensures RawLines(s + [c]) == RawLines(s) + (if c == '\n' then [Rest(s)] else [])
    ensures Rest(s + [c]) == if c == '\n' then [] else Rest(s) + [c]
  {
    assert (s + [c])[..|s|] == s;
  }

  lemma Regroup<T>(a: seq<T>, b: seq<T>, c: seq<T>)
    ensures a + b + c == a + (b + c)
  {
  }

  lemma {:induction false} LinesOfConcat(a: string, b: string)
    ensures RawLines(a + b) == RawLines(a) + RawLines(Rest(a) + b)
    ensures Rest(a + b) == Rest(Rest(a) + b)
  {
    if b == [] {
      RestHasNoNewline(a);
      NoNewline(Rest(a));
      assert a + b == a && Rest(a) + b == Rest(a);
    } else {
      var init, c := b[..|b| - 1], b[|b| - 1];
      LinesOfConcat(a, init);
      Regroup(a, init, [c]);
      Regroup(Rest(a), init, [c]);
      assert b == init + [c];
      LinesSnoc(a + init, c);
      LinesSnoc(Rest(a) + init, c);
      Regroup(RawLines(a), RawLines(Rest(a) + init), if c == '\n' then [Rest(a + init)] else []);
    }
  }

  lemma {:induction false} RestHasNoNewline(a: string)
    ensures '\n' !in Rest(a)
  {
    if a != [] && a[|a| - 1] != '\n' { RestHasNoNewline(a[..|a| - 1]); }
  }

  lemma CutAtNewline(s: string, n: nat)
    requires n < |s| && s[n] == '\n'
    ensures s == s[..n] + ['\n'] + s[n + 1..] && [] + s[n + 1..] == s[n + 1..]
  {
  }

  lemma OneLine(line: string)
    requires '\n' !in line
    ensures RawLines(line + ['\n']) == [line] && Rest(line + ['\n']) == []
  {
    NoNewline(line);
    LinesSnoc(line, '\n');
  }

  lemma FirstLine(s: string, n: nat)
    requires n < |s| && s[n] == '\n' && '\n' !in s[..n]
    ensures RawLines(s) == [s[..n]] + RawLines(s[n + 1..]) && Rest(s) == Rest(s[n + 1..])
  {
    var head, tail := s[..n] + ['\n'], s[n + 1..];
    CutAtNewline(s, n);
    OneLine(s[..n]);
    LinesOfConcat(head, tail);
    assert Rest(head) + tail == tail;
    assert s == head + tail;
  }

  lemma {:induction false} ConsumeConcat<D>(env: Env<D>, st: State<D>, a: seq<string>, b: seq<string>)
    ensures ConsumeAll(env, st, a + b) == ConsumeAll(env, ConsumeAll(env, st, a), b)
  {
    if b == [] {
      assert a + b == a;
    } else {
      assert (a + b)[..|a + b| - 1] == a + b[..|b| - 1];
      ConsumeConcat(env, st, a, b[..|b| - 1]);
    }
  }

  function ProgressSoFar<D>(st: State<D>): seq<Frame<D>> {
    match st
    case Open(r) => r.progress
    case Failed(_, progress) => progress
  }

  lemma {:induction false} ProgressOnlyGrows<D>(env: Env<D>, st: State<D>, lines: seq<string>)
    ensures ProgressSoFar(st) <= ProgressSoFar(ConsumeAll(env, st, lines))
  {
    if lines != [] { ProgressOnlyGrows(env, st, lines[..|lines| - 1]); }
  }

  lemma {:induction false} FailureSticks<D>(env: Env<D>, st: State<D>, lines: seq<string>)
    requires st.Failed?
    ensures ConsumeAll(env, st, lines) == st
  {
    if lines != [] { FailureSticks(env, st, lines[..|lines| - 1]); }
  }

  method ReadFrames<D>(env: Env<D>, chunks: seq<Chunk>, flush: string, closed: bool) returns (outcome: Outcome<D>)
    ensures outcome == ReadFrom(env, chunks, 0, flush, closed, Start(), "", 0)
  {
    var st: State<D>, buffer, bytesRead: nat := Start(), "", 0;
    for i := 0 to |chunks|
      invariant st.Open?
      invariant ReadFrom(env, chunks, i, flush, closed, st, buffer, bytesRead)
             == ReadFrom(env, chunks, 0, flush, closed, Start(), "", 0)
    {
      if bytesRead + chunks[i].bytes > MAX_STREAM_BYTES {
        return Outcome(st.reader.progress, Failure(OversizedStream));
      }
      ghost var text := buffer + chunks[i].text;
      ghost var before := st;
      bytesRead := bytesRead + chunks[i].bytes;
      buffer := buffer + chunks[i].text;
      var newline := NewlineIndex(buffer);
      while newline.Some?
        invariant newline == NewlineIndex(buffer) && st.Open?
        invariant Rest(buffer) == Rest(text)
        invariant ConsumeAll(env, st, RawLines(buffer)) == ConsumeAll(env, before, RawLines(text))
        decreases |buffer|
      {
        FirstLine(buffer, newline.value);
        var line := buffer[..newline.value];
        ConsumeConcat(env, st, [line], RawLines(buffer[newline.value + 1..]));
        assert [line][..0] == [];
        st := ConsumeLine(env, st.reader, DropCr(line));
        buffer := buffer[newline.value + 1..];
        if st.Failed? {
          FailureSticks(env, st, RawLines(buffer));
          return Outcome(st.progress, Failure(st.failure));
        }
        newline := NewlineIndex(buffer);
      }
      NoNewline(buffer);
      if ByteLength(buffer) > MAX_LINE_BYTES {
        return Outcome(st.reader.progress, Failure(OversizedFrame));
      }
    }
    if !closed { return Outcome(st.reader.progress, Failure(Transport)); }
    buffer := buffer + flush;
    if !Blank(buffer) { st := ConsumeLine(env, st.reader, DropCr(buffer)); }
    outcome := Finish(st, closed);
  }

  lemma LinesSplit(a: string, b: string, closed: bool)
    ensures Lines(a + b, closed) == RawLines(a) + Lines(Rest(a) + b, closed)
  {
    LinesOfConcat(a, b);
  }

  // ----- What success means -----

  /** Line `n` of the stream is a well-formed frame of this request with its own number. */
  predicate Numbered<D>(env: Env<D>, raw: string, n: nat) {
    var line := DropCr(raw);
    && !Blank(line) && ByteLength(line) <= MAX_LINE_BYTES
    && var p := env.parse(line);
       p.Record? && p.protocolOk && p.requestId == Some(env.requestId) && p.sequence == Some(n)
  }

  function KindOf<D>(env: Env<D>, raw: string): Kind {
    var p := env.parse(DropCr(raw));
    if p.Record? then p.kind else OtherKind
  }

  /** Numbered from 1, progress frames up to a last frame that is progress or terminal. */
  predicate Orderly<D>(env: Env<D>, lines: seq<string>) {
    && (forall k :: 0 <= k < |lines| ==> Numbered(env, lines[k], k + 1) && !KindOf(env, lines[k]).OtherKind?)
    && forall k :: 0 <= k < |lines| - 1 ==> KindOf(env, lines[k]).Progress?
  }

  function ProgressOf<D>(env: Env<D>, lines: seq<string>): seq<Frame<D>>
    requires Orderly(env, lines)
  {
    if lines == [] then []
    else
      var n := |lines| - 1;
      var rest := ProgressOf(env, lines[..n]);
      if KindOf(env, lines[n]).Progress? then rest + [Frame(n + 1, env.parse(DropCr(lines[n])).data)] else rest
  }

  lemma OpenAfterLine<D>(env: Env<D>, r: Reader<D>, raw: string)
    requires r.expected > 0
    ensures var st, kind := ConsumeLine(env, r, DropCr(raw)), KindOf(env, raw);
      && (st.Open? <==> Numbered(env, raw, r.expected) && !kind.OtherKind? && r.terminal.None?)
      && (st.Open? ==>
        && st.reader.expected == r.expected + 1
        && st.reader.progress ==
           (if kind.Progress? then r.progress + [Frame(r.expected, env.parse(DropCr(raw)).data)] else r.progress)
        && st.reader.terminal == LastTerminal(env, raw))
  {}

  function LastTerminal<D>(env: Env<D>, raw: string): Option<Terminal<D>>
    requires env.parse(DropCr(raw)).Record?
  {
    if KindOf(env, raw).Progress? then None
    else Some(Terminal(KindOf(env, raw).Error?, env.parse(DropCr(raw)).data))
  }

  /** The last line carries its number and a known kind, and only progress comes before it. */
  predicate LastInOrder<D>(env: Env<D>, lines: seq<string>, n: nat)
    requires n + 1 == |lines|
  {
    && Numbered(env, lines[n], n + 1) && !KindOf(env, lines[n]).OtherKind?
    && (n > 0 ==> KindOf(env, lines[n - 1]).Progress?)
  }

  lemma OrderlyThen<D>(env: Env<D>, lines: seq<string>, n: nat)
    requires n + 1 == |lines| && Orderly(env, lines[..n]) && LastInOrder(env, lines, n)
    ensures Orderly(env, lines)
  {
    var init := lines[..n];
    forall k | 0 <= k < n ensures Numbered(env, lines[k], k + 1) && !KindOf(env, lines[k]).OtherKind? {
      assert Numbered(env, init[k], k + 1);
    }
    forall k | 0 <= k < n ensures KindOf(env, lines[k]).Progress? {
      if k < n - 1 { assert KindOf(env, init[k]).Progress?; }
    }
  }

  lemma OrderlyBefore<D>(env: Env<D>, lines: seq<string>, n: nat)
    requires n + 1 == |lines| && Orderly(env, lines)
    ensures Orderly(env, lines[..n]) && LastInOrder(env, lines, n)
  {
    var init := lines[..n];
    assert Numbered(env, lines[n], n + 1);
    forall k | 0 <= k < n ensures Numbered(env, init[k], k + 1) && !KindOf(env, init[k]).OtherKind? {
      assert Numbered(env, lines[k], k + 1);
    }
  }

  lemma OrderlyStep<D>(env: Env<D>, lines: seq<string>, n: nat)
    requires n + 1 == |lines|
    ensures Orderly(env, lines) <==> Orderly(env, lines[..n]) && LastInOrder(env, lines, n)
  {
    if Orderly(env, lines) { OrderlyBefore(env, lines, n); }
    if Orderly(env, lines[..n]) && LastInOrder(env, lines, n) { OrderlyThen(env, lines, n); }
  }

  lemma {:induction false} OpenIffOrderly<D>(env: Env<D>, lines: seq<string>)
    ensures var st := ConsumeAll(env, Start(), lines);
      && (st.Open? <==> Orderly(env, lines))
      && (st.Open? ==>
        && st.reader.expected == |lines| + 1
        && st.reader.progress == ProgressOf(env, lines)
        && (lines == [] ==> st.reader.terminal == None)
        && (lines != [] ==> Numbered(env, lines[|lines| - 1], |lines|)
                            && st.reader.terminal == LastTerminal(env, lines[|lines| - 1])))
  {
    if lines != [] {
      var n := |lines| - 1;
      OpenIffOrderly(env, lines[..n]);
      OrderlyStep(env, lines, n);
      var before := ConsumeAll(env, Start(), lines[..n]);
      if before.Open? {
        OpenAfterLine(env, before.reader, lines[n]);
        assert n > 0 ==> lines[..n][n - 1] == lines[n - 1];
      }
    }
  }

  /** A stream succeeds exactly when it closes and its lines are progress frames followed by one
      terminal frame, numbered 1..n for this request; the callbacks are those progress frames. */
  lemma SuccessIff<D>(env: Env<D>, text: string, closed: bool)
    ensures var lines, got := Lines(text, closed), Read(env, text, closed);
      && (got.verdict.Success? <==>
            closed && lines != [] && Orderly(env, lines) && !KindOf(env, lines[|lines| - 1]).Progress?)
      && (got.verdict.Success? ==>
        && got.progress == ProgressOf(env, lines)
        && Numbered(env, lines[|lines| - 1], |lines|)
        && Some(got.verdict.terminal) == LastTerminal(env, lines[|lines| - 1]))
  {
    OpenIffOrderly(env, Lines(text, closed));
  }
}
