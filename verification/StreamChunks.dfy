/** When the outcome of a stream depends on how it was cut: exactly the line lengths at which it does. */
module StreamChunks {
  import opened Options
  import opened StreamReader

  // ----- Cuts -----

  function Text(chunks: seq<Chunk>, i: nat): string
    requires i <= |chunks|
    decreases |chunks| - i
  {
    if i == |chunks| then [] else chunks[i].text + Text(chunks, i + 1)
  }

  function Bytes(chunks: seq<Chunk>, i: nat): nat
    requires i <= |chunks|
    decreases |chunks| - i
  {
    if i == |chunks| then 0 else chunks[i].bytes + Bytes(chunks, i + 1)
  }

  predicate Fits(line: string) {
    ByteLength(line) <= MAX_LINE_BYTES
  }

  /** Every raw line, its CR included, and the unfinished last one fit the line limit. */
  predicate LinesFit(text: string) {
    Fits(Rest(text)) && forall line :: line in RawLines(text) ==> Fits(line)
  }

  function ReadCut<D>(env: Env<D>, chunks: seq<Chunk>, flush: string, closed: bool): Outcome<D> {
    ReadFrom(env, chunks, 0, flush, closed, Start(), "", 0)
  }

  predicate CutsTo(chunks: seq<Chunk>, text: string) {
    Text(chunks, 0) == text && Bytes(chunks, 0) <= MAX_STREAM_BYTES
  }

  /** However the text is cut, the callbacks and the outcome are the same. */
  ghost predicate CutsAgree<D(!new)>(env: Env<D>, text: string, flush: string, closed: bool) {
    forall a, b :: CutsTo(a, text) && CutsTo(b, text) ==> ReadCut(env, a, flush, closed) == ReadCut(env, b, flush, closed)
  }

  // ----- The rest in one piece -----

  function Oversized<D>(r: Reader<D>): Outcome<D> {
    Outcome(r.progress, Failure(OversizedFrame))
  }

  /** All lines are consumed and `rest` is left over. */
  function AtEnd<D>(env: Env<D>, st: State<D>, rest: string, flush: string, closed: bool): Outcome<D> {
    match st
    case Failed(f, progress) => Outcome(progress, Failure(f))
    case Open(r) =>
      if !Fits(rest) then Oversized(r)
      else if !closed then Outcome(r.progress, Failure(Transport))
      else Finish(if Blank(rest + flush) then st else ConsumeLine(env, r, DropCr(rest + flush)), closed)
  }

  /** What is read when everything still to come arrives at once. */
  function ReadRest<D>(env: Env<D>, st: State<D>, text: string, flush: string, closed: bool): Outcome<D> {
    AtEnd(env, ConsumeAll(env, st, RawLines(text)), Rest(text), flush, closed)
  }

  lemma {:induction false} ByteConcat(a: string, b: string)
    ensures ByteLength(a + b) == ByteLength(a) + ByteLength(b)
  {
    if b == [] {
      assert a + b == a;
    } else {
      assert (a + b)[..|a + b| - 1] == a + b[..|b| - 1];
      ByteConcat(a, b[..|b| - 1]);
    }
  }

  lemma RestInPieces<D>(env: Env<D>, st: State<D>, a: string, b: string, flush: string, closed: bool)
    ensures ReadRest(env, st, a + b, flush, closed)
         == ReadRest(env, ConsumeAll(env, st, RawLines(a)), Rest(a) + b, flush, closed)
  {
    LinesOfConcat(a, b);
    ConsumeConcat(env, st, RawLines(a), RawLines(Rest(a) + b));
  }

  /** A first line, or the leftover when there is none, starts with what was already there. */
  lemma BeginsWith(r: string, b: string)
    requires '\n' !in r && !Fits(r)
    ensures if RawLines(r + b) == [] then !Fits(Rest(r + b)) else !Fits(RawLines(r + b)[0])
  {
    var all := r + b;
    ByteConcat(r, b);
    match NewlineIndex(all)
    case None => NoNewline(all);
    case Some(n) =>
      FirstLine(all, n);
      assert forall j :: 0 <= j < |r| ==> all[j] == r[j] != '\n';
      assert n >= |r|;
      assert all[..n] == r + all[|r|..n];
      ByteConcat(r, all[|r|..n]);
  }

  // ----- Strained lines -----

  /** Before line `k`. */
  function LineState<D>(env: Env<D>, st: State<D>, text: string, k: nat): State<D>
    requires k <= |RawLines(text)|
  {
    ConsumeAll(env, st, RawLines(text)[..k])
  }

  predicate StrainedIn<D>(env: Env<D>, st: State<D>, lines: seq<string>, k: nat) {
    k < |lines| && ConsumeAll(env, st, lines[..k]).Open? && !Fits(lines[k])
  }

  /** Line `k` is reached and is, with its CR, over the buffer limit. */
  predicate Strained<D>(env: Env<D>, st: State<D>, text: string, k: nat) {
    StrainedIn(env, st, RawLines(text), k)
  }

  ghost predicate Tolerates<D(!new)>(env: Env<D>, st: State<D>, text: string, whole: Outcome<D>) {
    forall k: nat :: Strained(env, st, text, k) ==> whole == Oversized(LineState(env, st, text, k).reader)
  }

  /** Every strained line of the rest is refused as oversized when the rest comes in one piece. */
  ghost predicate Steady<D(!new)>(env: Env<D>, st: State<D>, text: string, flush: string, closed: bool) {
    Tolerates(env, st, text, ReadRest(env, st, text, flush, closed))
  }

  lemma LineLater<D>(env: Env<D>, st: State<D>, front: seq<string>, back: seq<string>, k: nat)
    requires StrainedIn(env, ConsumeAll(env, st, front), back, k)
    ensures StrainedIn(env, st, front + back, |front| + k)
    ensures ConsumeAll(env, st, (front + back)[..|front| + k]) == ConsumeAll(env, ConsumeAll(env, st, front), back[..k])
  {
    assert (front + back)[..|front| + k] == front + back[..k];
    ConsumeConcat(env, st, front, back[..k]);
  }

  /** What is asked of a text is asked of what is left of it after some lines. */
  lemma ToleratesLater<D(!new)>(env: Env<D>, st: State<D>, text: string, front: seq<string>, left: string, whole: Outcome<D>)
    requires Tolerates(env, st, text, whole) && RawLines(text) == front + RawLines(left)
    ensures Tolerates(env, ConsumeAll(env, st, front), left, whole)
  {
    var next := ConsumeAll(env, st, front);
    forall k: nat | Strained(env, next, left, k) ensures whole == Oversized(LineState(env, next, left, k).reader) {
      LineLater(env, st, front, RawLines(left), k);
      assert Strained(env, st, text, |front| + k);
    }
  }

  /** Where a chunk ends in an overlong line, the rest in one piece is refused too. */
  lemma RestIsOversized<D(!new)>(env: Env<D>, next: State<D>, r: string, b: string, flush: string, closed: bool)
    requires next.Open? && '\n' !in r && !Fits(r)
    requires Steady(env, next, r + b, flush, closed)
    ensures ReadRest(env, next, r + b, flush, closed) == Oversized(next.reader)
  {
    BeginsWith(r, b);
    if RawLines(r + b) != [] {
      assert RawLines(r + b)[..0] == [];
      assert Strained(env, next, r + b, 0);
    }
  }

  lemma EndOfChunks<D>(env: Env<D>, chunks: seq<Chunk>, flush: string, closed: bool, st: State<D>, buffer: string, bytes: nat)
    requires st.Open? ==> Fits(buffer)
    ensures ReadFrom(env, chunks, |chunks|, flush, closed, st, buffer, bytes) == AtEnd(env, st, buffer, flush, closed)
  {
  }

  /** One chunk: its complete lines are consumed, and the leftover must fit. */
  lemma OneStep<D>(env: Env<D>, chunks: seq<Chunk>, i: nat, flush: string, closed: bool, st: State<D>, buffer: string, bytes: nat)
    requires i < |chunks| && st.Open? && bytes + chunks[i].bytes <= MAX_STREAM_BYTES
    ensures var text := buffer + chunks[i].text;
      var next := ConsumeAll(env, st, RawLines(text));
      ReadFrom(env, chunks, i, flush, closed, st, buffer, bytes) ==
        if next.Open? && !Fits(Rest(text)) then Oversized(next.reader)
        else ReadFrom(env, chunks, i + 1, flush, closed, next, Rest(text), bytes + chunks[i].bytes)
  {
  }

  lemma RestOfFailed<D>(env: Env<D>, st: State<D>, text: string, flush: string, closed: bool)
    requires st.Failed?
    ensures ReadRest(env, st, text, flush, closed) == Outcome(st.progress, Failure(st.failure))
  {
    FailureSticks(env, st, RawLines(text));
  }

  lemma RestOfBuffer<D>(env: Env<D>, st: State<D>, buffer: string, flush: string, closed: bool)
    requires '\n' !in buffer
    ensures ReadRest(env, st, buffer, flush, closed) == AtEnd(env, st, buffer, flush, closed)
  {
    NoNewline(buffer);
  }

  lemma {:induction false} CutReadsTheRest<D(!new)>(
    env: Env<D>, chunks: seq<Chunk>, i: nat, flush: string, closed: bool, st: State<D>, buffer: string, bytes: nat)
    requires i <= |chunks| && '\n' !in buffer && (st.Open? ==> Fits(buffer)) && bytes + Bytes(chunks, i) <= MAX_STREAM_BYTES
    requires Steady(env, st, buffer + Text(chunks, i), flush, closed)
    ensures ReadFrom(env, chunks, i, flush, closed, st, buffer, bytes) == ReadRest(env, st, buffer + Text(chunks, i), flush, closed)
    decreases |chunks| - i
  {
    if st.Failed? {
      RestOfFailed(env, st, buffer + Text(chunks, i), flush, closed);
    } else if i == |chunks| {
      assert buffer + [] == buffer;
      RestOfBuffer(env, st, buffer, flush, closed);
      EndOfChunks(env, chunks, flush, closed, st, buffer, bytes);
    } else {
      var text := buffer + chunks[i].text;
      var next, left := ConsumeAll(env, st, RawLines(text)), Rest(text);
      CutStep(env, chunks, i, flush, closed, st, buffer);
      OneStep(env, chunks, i, flush, closed, st, buffer, bytes);
      RestHasNoNewline(text);
      if next.Open? && !Fits(left) {
        RestIsOversized(env, next, left, Text(chunks, i + 1), flush, closed);
      } else {
        CutReadsTheRest(env, chunks, i + 1, flush, closed, next, left, bytes + chunks[i].bytes);
      }
    }
  }

  /** After one more chunk the same question is asked of the rest. */
  lemma CutStep<D(!new)>(env: Env<D>, chunks: seq<Chunk>, i: nat, flush: string, closed: bool, st: State<D>, buffer: string)
    requires i < |chunks|
    requires Steady(env, st, buffer + Text(chunks, i), flush, closed)
    ensures var text, rest := buffer + chunks[i].text, Text(chunks, i + 1);
      var next := ConsumeAll(env, st, RawLines(text));
      && ReadRest(env, st, buffer + Text(chunks, i), flush, closed) == ReadRest(env, next, Rest(text) + rest, flush, closed)
      && Steady(env, next, Rest(text) + rest, flush, closed)
  {
    var text, rest := buffer + chunks[i].text, Text(chunks, i + 1);
    Regroup(buffer, chunks[i].text, rest);
    RestInPieces(env, st, text, rest, flush, closed);
    LinesOfConcat(text, rest);
    ToleratesLater(env, st, text + rest, RawLines(text), Rest(text) + rest, ReadRest(env, st, text + rest, flush, closed));
  }

  // ----- Cutting inside a line -----

  /** The text up to the end of line `k`, before its LF. */
  lemma {:induction false} LineCut(text: string, k: nat) returns (head: string, tail: string)
    requires k < |RawLines(text)|
    ensures text == head + tail && RawLines(head) == RawLines(text)[..k] && Rest(head) == RawLines(text)[k]
  {
    var init, c := text[..|text| - 1], text[|text| - 1];
    assert text == init + [c];
    LinesSnoc(init, c);
    if k < |RawLines(init)| {
      head, tail := LineCut(init, k);
      assert init + [c] == head + (tail + [c]);
      assert RawLines(text)[..k] == RawLines(init)[..k];
      tail := tail + [c];
    } else {
      assert RawLines(text)[..k] == RawLines(init);
      head, tail := init, [c];
    }
  }

  lemma TwoChunks(head: string, tail: string)
    requires ByteLength(head + tail) <= MAX_STREAM_BYTES
    ensures CutsTo([Chunk(head, ByteLength(head)), Chunk(tail, ByteLength(tail))], head + tail)
  {
    var chunks := [Chunk(head, ByteLength(head)), Chunk(tail, ByteLength(tail))];
    ByteConcat(head, tail);
    assert Text(chunks, 2) == [] && Text(chunks, 1) == tail + [] && tail + [] == tail;
    assert Bytes(chunks, 2) == 0 && Bytes(chunks, 1) == ByteLength(tail);
  }

  lemma OneCut(text: string)
    requires ByteLength(text) <= MAX_STREAM_BYTES
    ensures CutsTo([Chunk(text, ByteLength(text))], text)
  {
    var chunks := [Chunk(text, ByteLength(text))];
    assert Text(chunks, 1) == [] && text + [] == text && Bytes(chunks, 1) == 0;
  }

  lemma WholeIsRest<D>(env: Env<D>, text: string, flush: string, closed: bool)
    requires ByteLength(text) <= MAX_STREAM_BYTES
    ensures ReadCut(env, [Chunk(text, ByteLength(text))], flush, closed) == ReadRest(env, Start(), text, flush, closed)
  {
    var chunks, next := [Chunk(text, ByteLength(text))], ConsumeAll(env, Start(), RawLines(text));
    assert "" + text == text;
    OneStep(env, chunks, 0, flush, closed, Start(), "", 0);
    if next.Failed? || Fits(Rest(text)) {
      EndOfChunks(env, chunks, flush, closed, next, Rest(text), ByteLength(text));
    }
  }

  /** Cut there, the reader refuses the line as oversized. */
  lemma CutRefuses<D>(env: Env<D>, text: string, k: nat, flush: string, closed: bool) returns (chunks: seq<Chunk>)
    requires ByteLength(text) <= MAX_STREAM_BYTES && Strained(env, Start(), text, k)
    ensures CutsTo(chunks, text)
    ensures ReadCut(env, chunks, flush, closed) == Oversized(LineState(env, Start(), text, k).reader)
  {
    var head, tail := LineCut(text, k);
    chunks := [Chunk(head, ByteLength(head)), Chunk(tail, ByteLength(tail))];
    TwoChunks(head, tail);
    ByteConcat(head, tail);
    assert "" + head == head;
  }

  /** All cuts agree exactly when every strained line is refused as oversized however it is cut. */
  lemma CutsAgreeIffTolerated<D(!new)>(env: Env<D>, text: string, flush: string, closed: bool)
    requires ByteLength(text) <= MAX_STREAM_BYTES
    ensures CutsAgree(env, text, flush, closed) <==> Steady(env, Start(), text, flush, closed)
  {
    var whole := ReadRest(env, Start(), text, flush, closed);
    if CutsAgree(env, text, flush, closed) {
      OneCut(text);
      WholeIsRest(env, text, flush, closed);
      forall k: nat | Strained(env, Start(), text, k) ensures whole == Oversized(LineState(env, Start(), text, k).reader) {
        var chunks := CutRefuses(env, text, k, flush, closed);
      }
    }
    if Steady(env, Start(), text, flush, closed) {
      forall chunks | CutsTo(chunks, text) ensures ReadCut(env, chunks, flush, closed) == whole {
        assert "" + Text(chunks, 0) == text;
        CutReadsTheRest(env, chunks, 0, flush, closed, Start(), "", 0);
      }
    }
  }

  // ----- The guards that decide -----

  /** The line fails the size guard: it is not blank, and too long without its CR. */
  predicate TooLong(raw: string) {
    !Blank(DropCr(raw)) && !Fits(DropCr(raw))
  }

  function AfterLine<D>(env: Env<D>, text: string, k: nat): State<D>
    requires Strained(env, Start(), text, k)
  {
    ConsumeLine(env, LineState(env, Start<D>(), text, k).reader, DropCr(RawLines(text)[k]))
  }

  /** After the terminal frame, what comes next is too long as well. */
  predicate NextTooLong(text: string, k: nat, flush: string, closed: bool) {
    var lines := RawLines(text);
    if k + 1 < |lines| then TooLong(lines[k + 1])
    else !Fits(Rest(text)) || (closed && TooLong(Rest(text) + flush))
  }

  predicate RefusedEitherWay<D>(env: Env<D>, text: string, k: nat, flush: string, closed: bool)
    requires Strained(env, Start(), text, k)
  {
    || TooLong(RawLines(text)[k])
    || (&& AfterLine(env, text, k).Open? && AfterLine(env, text, k).reader.terminal.Some?
        && NextTooLong(text, k, flush, closed))
  }

  lemma OversizedIffTooLong<D>(env: Env<D>, r: Reader<D>, raw: string)
    ensures var next := ConsumeLine(env, r, DropCr(raw));
      && (next.Failed? ==> next.progress == r.progress && (next.failure.OversizedFrame? <==> TooLong(raw)))
      && (TooLong(raw) ==> next.Failed?)
      && (next.Open? && next.reader.terminal.None? ==> |next.reader.progress| == |r.progress| + 1)
      && (next.Open? && next.reader.terminal.Some? ==> next.reader.progress == r.progress)
      && (r.terminal.Some? ==> next.Failed?)
  {
  }

  lemma AfterLineThenRest<D>(env: Env<D>, text: string, k: nat, flush: string, closed: bool)
    requires Strained(env, Start(), text, k)
    ensures ReadRest(env, Start(), text, flush, closed)
         == AtEnd(env, ConsumeAll(env, AfterLine(env, text, k), RawLines(text)[k + 1..]), Rest(text), flush, closed)
  {
    var lines := RawLines(text);
    assert lines == lines[..k] + ([lines[k]] + lines[k + 1..]);
    ConsumeConcat(env, Start<D>(), lines[..k], [lines[k]] + lines[k + 1..]);
    ConsumeConcat(env, LineState(env, Start<D>(), text, k), [lines[k]], lines[k + 1..]);
    assert [lines[k]][..0] == [];
  }

  lemma EndKeepsProgress<D>(env: Env<D>, st: State<D>, rest: string, flush: string, closed: bool)
    ensures ProgressSoFar(st) <= AtEnd(env, st, rest, flush, closed).progress
  {
  }

  /** A terminal frame, then anything more: refused as oversized only if that is too long. */
  lemma AfterTerminal<D>(env: Env<D>, r: Reader<D>, lines: seq<string>, rest: string, flush: string, closed: bool)
    requires r.terminal.Some?
    ensures AtEnd(env, ConsumeAll(env, Open(r), lines), rest, flush, closed) == Oversized(r) <==>
      if lines != [] then TooLong(lines[0]) else !Fits(rest) || (closed && TooLong(rest + flush))
  {
    if lines != [] {
      assert lines == [lines[0]] + lines[1..];
      ConsumeConcat(env, Open(r), [lines[0]], lines[1..]);
      assert [lines[0]][..0] == [];
      OversizedIffTooLong(env, r, lines[0]);
      FailureSticks(env, ConsumeLine(env, r, DropCr(lines[0])), lines[1..]);
    } else {
      OversizedIffTooLong(env, r, rest + flush);
      BlankWithoutCr(rest + flush);
    }
  }

  lemma BlankWithoutCr(raw: string)
    ensures Blank(raw) <==> Blank(DropCr(raw))
  {
    if raw != [] && raw[|raw| - 1] == '\r' {
      assert raw == DropCr(raw) + ['\r'];
    }
  }

  lemma RefusedIff<D>(env: Env<D>, text: string, k: nat, flush: string, closed: bool)
    requires Strained(env, Start(), text, k)
    ensures ReadRest(env, Start(), text, flush, closed) == Oversized(LineState(env, Start(), text, k).reader)
      <==> RefusedEitherWay(env, text, k, flush, closed)
  {
    var lines, r, next := RawLines(text), LineState(env, Start<D>(), text, k).reader, AfterLine(env, text, k);
    AfterLineThenRest(env, text, k, flush, closed);
    OversizedIffTooLong(env, r, lines[k]);
    if next.Failed? {
      FailureSticks(env, next, lines[k + 1..]);
    } else if next.reader.terminal.None? {
      ProgressOnlyGrows(env, next, lines[k + 1..]);
      EndKeepsProgress(env, ConsumeAll(env, next, lines[k + 1..]), Rest(text), flush, closed);
    } else {
      AfterTerminal(env, next.reader, lines[k + 1..], Rest(text), flush, closed);
    }
  }

  /** The outcome of a text does not depend on its cuts if and only if every line that is reached and over
      the limit with its CR is over the limit without it and not blank, or is a terminal frame followed
      by something too long. */
  lemma CutsAgreeIff<D(!new)>(env: Env<D>, text: string, flush: string, closed: bool)
    requires ByteLength(text) <= MAX_STREAM_BYTES
    ensures CutsAgree(env, text, flush, closed) <==>
      forall k: nat :: Strained(env, Start(), text, k) ==> RefusedEitherWay(env, text, k, flush, closed)
  {
    CutsAgreeIffTolerated(env, text, flush, closed);
    forall k: nat | Strained(env, Start(), text, k)
      ensures ReadRest(env, Start(), text, flush, closed) == Oversized(LineState(env, Start(), text, k).reader)
        <==> RefusedEitherWay(env, text, k, flush, closed)
    {
      RefusedIff(env, text, k, flush, closed);
    }
  }

  // ----- Two families of inputs on which cuts disagree -----

  lemma ReadOneLine<D>(env: Env<D>, line: string)
    requires '\n' !in line
    ensures ConsumeAll(env, Start(), RawLines(line + ['\n'])) == ConsumeLine(env, Start<D>().reader, DropCr(line))
    ensures RawLines(line) == [] && Rest(line) == line && Rest(line + ['\n']) == []
  {
    OneLine(line);
    NoNewline(line);
    assert [line][..0] == [];
  }

  lemma OneChunk<D>(env: Env<D>, line: string, bytes: nat)
    requires '\n' !in line && bytes <= MAX_STREAM_BYTES
    ensures ReadFrom(env, [Chunk(line + ['\n'], bytes)], 0, "", false, Start(), "", 0)
         == Finish(ConsumeLine(env, Start<D>().reader, DropCr(line)), false)
  {
    ReadOneLine(env, line);
    assert "" + (line + ['\n']) == line + ['\n'];
  }

  lemma OversizedChunk<D>(env: Env<D>, chunks: seq<Chunk>)
    requires chunks != [] && chunks[0].bytes <= MAX_STREAM_BYTES
    requires '\n' !in chunks[0].text && ByteLength(chunks[0].text) > MAX_LINE_BYTES
    ensures ReadFrom(env, chunks, 0, "", false, Start(), "", 0) == Outcome([], Failure(OversizedFrame))
  {
    NoNewline(chunks[0].text);
    assert "" + chunks[0].text == chunks[0].text;
  }

  lemma DropCrIsShorter(line: string)
    ensures ByteLength(DropCr(line)) <= ByteLength(line)
  {
    var kept := DropCr(line);
    assert line == kept + line[|kept|..];
    ByteConcat(kept, line[|kept|..]);
  }

  /** A broken-off stream of these chunks fails at once, for this reason. */
  ghost predicate EndsAs<D>(env: Env<D>, chunks: seq<Chunk>, f: Failure) {
    ReadCut(env, chunks, "", false) == Outcome([], Failure(f))
  }

  /** A blank line over the limit is called blank when it comes with its LF, and oversized when it does not. */
  lemma LongBlankLine<D>(env: Env<D>, line: string)
    requires '\n' !in line && Blank(line) && !Fits(DropCr(line)) && ByteLength(line) < MAX_STREAM_BYTES
    ensures EndsAs(env, [Chunk(line + ['\n'], ByteLength(line) + 1)], BlankFrame)
    ensures EndsAs(env, [Chunk(line, ByteLength(line)), Chunk(['\n'], 1)], OversizedFrame)
  {
    BlankIsBlank(env, line, ByteLength(line) + 1);
    LongIsOversized(env, line);
  }

  lemma LongIsOversized<D>(env: Env<D>, line: string)
    requires '\n' !in line && !Fits(DropCr(line)) && ByteLength(line) <= MAX_STREAM_BYTES
    ensures EndsAs(env, [Chunk(line, ByteLength(line)), Chunk(['\n'], 1)], OversizedFrame)
  {
    DropCrIsShorter(line);
    OversizedChunk(env, [Chunk(line, ByteLength(line)), Chunk(['\n'], 1)]);
  }

  lemma BlankIsBlank<D>(env: Env<D>, line: string, bytes: nat)
    requires '\n' !in line && Blank(line) && bytes <= MAX_STREAM_BYTES
    ensures EndsAs(env, [Chunk(line + ['\n'], bytes)], BlankFrame)
  {
    BlankWithoutCr(line);
    OneChunk(env, line, bytes);
  }

  /** The limit must count the CR: a frame that fills the limit and ends in CR LF is handed on when both
      come in one chunk, and refused as oversized when the chunk ends between them. */
  lemma CutBeforeLfMatters<D>(env: Env<D>, line: string)
    requires '\n' !in line && ByteLength(line) == MAX_LINE_BYTES && Numbered(env, line + ['\r'], 1)
    requires KindOf(env, line + ['\r']).Progress?
    ensures var raw := line + ['\r'];
      var whole := ReadCut(env, [Chunk(raw + ['\n'], MAX_LINE_BYTES + 2)], "", false);
      var cut := ReadCut(env, [Chunk(raw, MAX_LINE_BYTES + 1), Chunk(['\n'], 1)], "", false);
      && whole == Outcome([Frame(1, env.parse(line).data)], Failure(Transport))
      && cut == Outcome([], Failure(OversizedFrame))
  {
    var raw := line + ['\r'];
    assert raw[..|raw| - 1] == line && DropCr(raw) == line;
    OneChunk(env, raw, MAX_LINE_BYTES + 2);
    OversizedChunk(env, [Chunk(raw, MAX_LINE_BYTES + 1), Chunk(['\n'], 1)]);
  }

  // ----- Within the limits -----

  lemma FittingIsTolerated<D(!new)>(env: Env<D>, text: string, whole: Outcome<D>)
    requires LinesFit(text)
    ensures Tolerates(env, Start(), text, whole)
  {
    forall k: nat | k < |RawLines(text)| ensures Fits(RawLines(text)[k]) { assert RawLines(text)[k] in RawLines(text); }
  }

  lemma FlushJoinsRest(text: string, flush: string)
    requires '\n' !in flush
    ensures RawLines(text + flush) == RawLines(text) && Rest(text + flush) == Rest(text) + flush
  {
    LinesOfConcat(text, flush);
    RestHasNoNewline(text);
    NoNewline(Rest(text) + flush);
  }

  lemma EndIsFinish<D>(env: Env<D>, lines: seq<string>, rest: string, flush: string, closed: bool)
    requires Fits(rest)
    ensures AtEnd(env, ConsumeAll(env, Start(), lines), rest, flush, closed)
         == Finish(ConsumeAll(env, Start(), if closed && !Blank(rest + flush) then lines + [rest + flush] else lines), closed)
  {
    assert (lines + [rest + flush])[..|lines|] == lines;
  }

  lemma RestIsRead<D>(env: Env<D>, text: string, flush: string, closed: bool)
    requires Fits(Rest(text)) && '\n' !in flush
    ensures ReadRest(env, Start(), text, flush, closed) == Read(env, text + flush, closed)
  {
    FlushJoinsRest(text, flush);
    EndIsFinish(env, RawLines(text), Rest(text), flush, closed);
  }

  /** Within the size limits the callbacks and the outcome depend only on the text, not on how it was cut. */
  lemma ChunkingIrrelevant<D(!new)>(env: Env<D>, chunks: seq<Chunk>, flush: string, closed: bool)
    requires '\n' !in flush
    requires Bytes(chunks, 0) <= MAX_STREAM_BYTES && LinesFit(Text(chunks, 0))
    ensures ReadCut(env, chunks, flush, closed) == Read(env, Text(chunks, 0) + flush, closed)
  {
    var text := Text(chunks, 0);
    assert "" + text == text;
    FittingIsTolerated(env, text, ReadRest(env, Start(), text, flush, closed));
    CutReadsTheRest(env, chunks, 0, flush, closed, Start(), "", 0);
    RestIsRead(env, text, flush, closed);
  }
}
