/** Why a stream fails, and what a streamed confirm answers then. */
module StreamFailures {
  import opened Options
  import opened StreamReader
  import opened StreamChunks
  import opened StreamedConfirm

  // ----- The first bad line decides -----

  /** A line as it is read: without the carriage return at its end. */
  predicate ReadAs(raw: string, line: string) {
    raw == line + ['\r'] || (raw == line && (line == [] || line[|line| - 1] != '\r'))
  }

  lemma DropCrIs(raw: string)
    ensures ReadAs(raw, DropCr(raw)) && forall line :: ReadAs(raw, line) ==> line == DropCr(raw)
  {
    if raw != [] { assert raw == raw[..|raw| - 1] + [raw[|raw| - 1]]; }
    forall line | ReadAs(raw, line) ensures line == DropCr(raw) {
      if raw == line + ['\r'] { assert raw[..|raw| - 1] == line; }
    }
  }

  predicate Sized(line: string) {
    !Blank(line) && ByteLength(line) <= 1_048_576
  }

  /** A record of this protocol, for this request, with the number of its line. */
  predicate OwnFrame<D>(env: Env<D>, line: string, number: nat) {
    && Sized(line)
    && var p := env.parse(line);
       p.Record? && p.protocolOk && p.requestId == Some(env.requestId) && p.sequence == Some(number)
  }

  predicate IsTerminal<D>(env: Env<D>, line: string) {
    var p := env.parse(line);
    p.Record? && (p.kind.Done? || p.kind.Error?)
  }

  /** What is wrong with line `i`, when nothing is wrong with the lines before it. */
  predicate Wrong<D>(env: Env<D>, lines: seq<string>, i: nat, f: Failure)
    requires i < |lines|
  {
    var line := DropCr(lines[i]);
    var p := env.parse(line);
    match f
    case BlankFrame => Blank(line)
    case OversizedFrame => !Blank(line) && ByteLength(line) > 1_048_576
    case MalformedJson => Sized(line) && p.NotJson?
    case MalformedFrame => Sized(line) && p.NotRecord?
    case Incompatible => Sized(line) && p.Record? && !p.protocolOk
    case RequestMismatch => Sized(line) && p.Record? && p.protocolOk && p.requestId != Some(env.requestId)
    case OutOfOrder => Sized(line) && p.Record? && p.protocolOk && p.requestId == Some(env.requestId) && p.sequence != Some(i + 1)
    case TrailingFrame => OwnFrame(env, line, i + 1) && i > 0 && IsTerminal(env, DropCr(lines[i - 1]))
    case UnknownFrame => OwnFrame(env, line, i + 1) && p.kind.OtherKind? && (i > 0 ==> !IsTerminal(env, DropCr(lines[i - 1])))
    case _ => false
  }

  ghost predicate NoneWrong<D>(env: Env<D>, lines: seq<string>, n: nat)
    requires n <= |lines|
  {
    forall i, f :: 0 <= i < n ==> !Wrong(env, lines, i, f)
  }

  /** The progress of the first `n` lines is what their progress frames carry, in order. */
  ghost predicate Carries<D(!new)>(env: Env<D>, lines: seq<string>, n: nat, progress: seq<Frame<D>>)
    requires n <= |lines|
  {
    && |progress| <= n && n <= |progress| + 1
    && (forall k :: 0 <= k < |progress| ==>
          var p := env.parse(DropCr(lines[k])); p.Record? && p.kind.Progress? && progress[k] == Frame(k + 1, p.data))
    && (n == |progress| + 1 ==> IsTerminal(env, DropCr(lines[n - 1])))
  }

  lemma WrongBefore<D>(env: Env<D>, lines: seq<string>, n: nat, i: nat, f: Failure)
    requires i < n <= |lines|
    ensures Wrong(env, lines[..n], i, f) <==> Wrong(env, lines, i, f)
  {
    assert lines[..n][i] == lines[i] && (i > 0 ==> lines[..n][i - 1] == lines[i - 1]);
  }

  /** Where the reader stands after `n` lines: in order so far, or failed at the first that is wrong. */
  ghost predicate Standing<D(!new)>(env: Env<D>, lines: seq<string>, n: nat, st: State<D>)
    requires n <= |lines|
  {
    match st
    case Open(r) =>
      && NoneWrong(env, lines, n) && r.expected == n + 1 && Carries(env, lines, n, r.progress)
      && (r.terminal.Some? <==> n > 0 && IsTerminal(env, DropCr(lines[n - 1])))
    case Failed(f, progress) => exists i: nat :: i < n && FailsAt(env, lines, i, f, progress)
  }

  /** Line `i` is the first wrong one, wrong for this reason, and the progress before it was handed on. */
  ghost predicate FailsAt<D(!new)>(env: Env<D>, lines: seq<string>, i: nat, f: Failure, progress: seq<Frame<D>>)
    requires i < |lines|
  {
    NoneWrong(env, lines, i) && Wrong(env, lines, i, f) && Carries(env, lines, i, progress)
  }

  lemma StandingFront<D(!new)>(env: Env<D>, lines: seq<string>, n: nat, st: State<D>)
    requires n <= |lines| && Standing(env, lines[..n], n, st)
    ensures Standing(env, lines, n, st)
  {
    forall i: nat, f | i < n ensures Wrong(env, lines[..n], i, f) <==> Wrong(env, lines, i, f) { WrongBefore(env, lines, n, i, f); }
    assert forall k :: 0 <= k < n ==> lines[..n][k] == lines[k];
    if st.Failed? {
      var i: nat :| i < n && FailsAt(env, lines[..n], i, st.failure, st.progress);
      assert FailsAt(env, lines, i, st.failure, st.progress);
    }
  }

  /** A line is refused if and only if something is wrong with it, and for that. */
  lemma NextLine<D(!new)>(env: Env<D>, r: Reader<D>, lines: seq<string>, n: nat)
    requires n < |lines| && Standing(env, lines, n, Open(r))
    ensures var st := ConsumeLine(env, r, DropCr(lines[n]));
      && (st.Failed? ==> Wrong(env, lines, n, st.failure) && st.progress == r.progress)
      && (st.Open? ==> forall f :: !Wrong(env, lines, n, f))
  {
  }

  lemma NextStanding<D(!new)>(env: Env<D>, r: Reader<D>, lines: seq<string>, n: nat)
    requires n < |lines| && Standing(env, lines, n, Open(r))
    ensures Standing(env, lines, n + 1, ConsumeLine(env, r, DropCr(lines[n])))
  {
    NextLine(env, r, lines, n);
    var st := ConsumeLine(env, r, DropCr(lines[n]));
    if st.Failed? { assert FailsAt(env, lines, n, st.failure, st.progress); }
  }

  lemma {:induction false} AllLines<D(!new)>(env: Env<D>, lines: seq<string>)
    ensures Standing(env, lines, |lines|, ConsumeAll(env, Start(), lines))
  {
    if lines != [] {
      var n := |lines| - 1;
      AllLines(env, lines[..n]);
      var before := ConsumeAll(env, Start(), lines[..n]);
      StandingFront(env, lines, n, before);
      if before.Open? {
        NextStanding(env, before.reader, lines, n);
      } else {
        var i: nat :| i < n && FailsAt(env, lines, i, before.failure, before.progress);
      }
    }
  }

  lemma OneFailure<D(!new)>(env: Env<D>, lines: seq<string>, i: nat, f: Failure, j: nat, g: Failure)
    requires i < |lines| && j < |lines| && NoneWrong(env, lines, i) && Wrong(env, lines, i, f)
    requires NoneWrong(env, lines, j) && Wrong(env, lines, j, g)
    ensures i == j && f == g
  {
  }

  /** Why a stream within the limits fails: its first wrong line says so; a stream that breaks off, or ends
      without a terminal frame, fails only when no line of it is wrong. */
  lemma FailureIff<D(!new)>(env: Env<D>, text: string, closed: bool, f: Failure)
    ensures var lines, got := Lines(text, closed), Read(env, text, closed);
      got.verdict == Failure(f) <==>
        || (exists i: nat :: i < |lines| && FailsAt(env, lines, i, f, got.progress))
        || (NoneWrong(env, lines, |lines|) && !closed && f == Transport)
        || (NoneWrong(env, lines, |lines|) && closed && f == MissingTerminal && !EndsWithTerminal(env, lines))
  {
    var lines := Lines(text, closed);
    AllLines(env, lines);
    var st := ConsumeAll(env, Start(), lines);
    if st.Failed? {
      var i: nat :| i < |lines| && FailsAt(env, lines, i, st.failure, st.progress);
      if j: nat :| j < |lines| && FailsAt(env, lines, j, f, Read(env, text, closed).progress) {
        OneFailure(env, lines, i, st.failure, j, f);
      }
    }
  }

  predicate EndsWithTerminal<D>(env: Env<D>, lines: seq<string>) {
    lines != [] && IsTerminal(env, DropCr(lines[|lines| - 1]))
  }

  // ----- How many bytes a line has -----

  /** UTF-8 as in section 3 of RFC 3629. */
  function Utf8(c: char): seq<nat> {
    var n := c as int;
    if n <= 0x7F then [n]
    else if n <= 0x7FF then [0xC0 + n / 64, 0x80 + n % 64]
    else if n <= 0xFFFF then [0xE0 + n / 4096, 0x80 + n / 64 % 64, 0x80 + n % 64]
    else [0xF0 + n / 262144, 0x80 + n / 4096 % 64, 0x80 + n / 64 % 64, 0x80 + n % 64]
  }

  function Utf8All(s: string): seq<nat> {
    if s == [] then [] else Utf8(s[0]) + Utf8All(s[1..])
  }

  lemma {:induction false} BytesAreUtf8(s: string)
    ensures ByteLength(s) == |Utf8All(s)|
  {
    if s != [] {
      BytesAreUtf8(s[1..]);
      ByteConcat([s[0]], s[1..]);
      assert s == [s[0]] + s[1..] && [s[0]][..0] == [];
    }
  }

  // ----- The size of the whole stream -----

  /** A stream of more than 16 777 216 bytes never succeeds, and only such a stream is called oversized. */
  lemma {:induction false} StreamBound<D>(
    env: Env<D>, chunks: seq<Chunk>, i: nat, flush: string, closed: bool, st: State<D>, buffer: string, bytes: nat)
    requires i <= |chunks| && bytes <= 16_777_216
    requires st.Failed? ==> st.failure != OversizedStream
    ensures var got := ReadFrom(env, chunks, i, flush, closed, st, buffer, bytes);
      && (bytes + Bytes(chunks, i) > 16_777_216 ==> got.verdict.Failure?)
      && (got.verdict == Failure(OversizedStream) ==> bytes + Bytes(chunks, i) > 16_777_216)
    decreases |chunks| - i
  {
    if st.Failed? || i == |chunks| || bytes + chunks[i].bytes > 16_777_216 {
      StopBound(env, chunks, i, flush, closed, st, buffer, bytes);
    } else {
      var text := buffer + chunks[i].text;
      OneStep(env, chunks, i, flush, closed, st, buffer, bytes);
      NeverCalledOversized(env, st, RawLines(text));
      StreamBound(env, chunks, i + 1, flush, closed, ConsumeAll(env, st, RawLines(text)), Rest(text), bytes + chunks[i].bytes);
    }
  }

  lemma StopBound<D>(
    env: Env<D>, chunks: seq<Chunk>, i: nat, flush: string, closed: bool, st: State<D>, buffer: string, bytes: nat)
    requires i <= |chunks| && bytes <= 16_777_216 && (st.Failed? || i == |chunks| || bytes + chunks[i].bytes > 16_777_216)
    requires st.Failed? ==> st.failure != OversizedStream
    ensures var got := ReadFrom(env, chunks, i, flush, closed, st, buffer, bytes);
      && (bytes + Bytes(chunks, i) > 16_777_216 ==> got.verdict.Failure?)
      && (got.verdict == Failure(OversizedStream) ==> bytes + Bytes(chunks, i) > 16_777_216)
  {
  }

  lemma {:induction false} NeverCalledOversized<D>(env: Env<D>, st: State<D>, lines: seq<string>)
    requires st.Failed? ==> st.failure != OversizedStream
    ensures ConsumeAll(env, st, lines).Failed? ==> ConsumeAll(env, st, lines).failure != OversizedStream
  {
    if lines != [] { NeverCalledOversized(env, st, lines[..|lines| - 1]); }
  }

  // ----- What a streamed confirm answers -----

  /** A first receipt that was confirmed is returned as it came, with the turn the terminal frame carries or
      why there is none; one that was refused is thrown with its own code and view. */
  lemma SettledReply(frames: seq<Frame<AppData>>, n: nat, ending: Ending)
    requires FirstReceipt(frames, n)
    ensures var p, reply := frames[n].data.receipt.value, ReplyOf(HearAll(frames), ending);
      && (reply.Returned? <==> p.ok && p.executionFailure.None?)
      && (reply.Returned? ==> reply.receipt == p && FollowsUp(reply.followUp, ending))
      && (!p.ok ==> reply.Thrown? && Declined(reply.error, p))
      && (p.ok && p.executionFailure.Some? ==> reply.Thrown? && NotExecuted(reply.error, p, p.executionFailure.value))
  {
    HeardAfterFirstReceipt(frames, n);
  }

  /** The app would not do it; nothing ran if it said so and showed no view. */
  predicate Declined(error: ClientError, p: Payload) {
    && error.view == p.view && (error.nothingRan <==> p.error.notSent && p.view.None?)
    && error.code == if p.error.code.Some? then p.error.code.value else "desktop_confirmation_failed"
  }

  /** The app did it and the action failed. */
  predicate NotExecuted(error: ClientError, p: Payload, code: Option<string>) {
    && error.view == p.view && !error.nothingRan
    && error.code == if code.Some? then code.value else "desktop_confirmation_execution_failed"
  }

  predicate FollowsUp(followUp: FollowUp, ending: Ending) {
    match ending
    case Lost(code) => followUp == Broken(if code.Some? then code.value else "desktop_stream_invalid")
    case Ended(Terminal(false, data)) =>
      (if data.turn.Some? then followUp == Answered(data.turn.value) else followUp == Broken("desktop_response_invalid"))
    case Ended(Terminal(true, data)) =>
      followUp == Broken(if data.error.code.Some? then data.error.code.value else "desktop_turn_failed")
  }

  /** Without a receipt an error frame is thrown with its code, and says nothing ran only on the app's mark
      or a code refused before anything resolves; a done frame leaves the outcome unknown. */
  lemma EndedUnsettled(frames: seq<Frame<AppData>>, terminal: Terminal<AppData>)
    requires forall k :: 0 <= k < |frames| ==> !IsReceipt(frames[k])
    ensures var reply := ReplyOf(HearAll(frames), Ended(terminal)); reply.Thrown?
    ensures var error := ReplyOf(HearAll(frames), Ended(terminal)).error;
      if terminal.isError then Failing(error, terminal.data.error) else OutcomeUnknown(error)
  {
    NothingHeardBefore(frames);
    assert ReplyOf(HearAll(frames), Ended(terminal)) == Thrown(Unsettled(Ended(terminal)));
    if terminal.isError { FailingIs(terminal); }
  }

  lemma FailingIs(terminal: Terminal<AppData>)
    requires terminal.isError
    ensures Failing(Unsettled(Ended(terminal)), terminal.data.error)
  {
  }

  predicate Failing(error: ClientError, told: AppError) {
    && error.code == (if told.code.Some? then told.code.value else "desktop_confirmation_failed")
    && error.view.None?
    && (error.nothingRan <==> told.notSent || error.code == "field_invalid" || error.code == "receipt_view_unavailable")
  }

  /** Without a receipt a stream that failed leaves the outcome unknown, whatever was wrong with it; only a
      broken read whose error is not a loss of the stream is thrown as it is. */
  lemma FailedUnsettled(frames: seq<Frame<AppData>>, f: Failure, transport: Option<string>)
    requires forall k :: 0 <= k < |frames| ==> !IsReceipt(frames[k])
    ensures var reply := ReplyOf(HearAll(frames), EndingOf(Failure(f), transport)); reply.Thrown?
    ensures var error := ReplyOf(HearAll(frames), EndingOf(Failure(f), transport)).error;
      if f == Transport && transport.Some? && transport.value !in OWN_LOSSES then error == ClientError(transport.value, None, false)
      else OutcomeUnknown(error)
  {
    NothingHeardBefore(frames);
    FailureIsLoss(f, transport);
    assert Unsettled(Lost(FailureCode(f, transport))) == ReplyOf(HearAll(frames), EndingOf(Failure(f), transport)).error;
  }

  lemma FailureIsLoss(f: Failure, transport: Option<string>)
    ensures f != Transport ==> FailureCode(f, transport).Some? && FailureCode(f, transport).value in OWN_LOSSES
    ensures f == Transport ==> FailureCode(f, transport) == transport
    ensures OWN_LOSSES == LOSS_CODES
  {
  }

  /** Each failure has a code of its own, or the common one of a malformed stream. */
  lemma CodesTellApart(f: Failure, transport: Option<string>)
    requires f != Transport
    ensures var code := FailureCode(f, transport);
      && (f == Incompatible <==> code == Some("desktop_protocol_incompatible"))
      && (f == RequestMismatch <==> code == Some("desktop_stream_request_mismatch"))
      && (f == OutOfOrder <==> code == Some("desktop_stream_sequence"))
      && (f == TrailingFrame <==> code == Some("desktop_stream_trailing_frame"))
      && (f == MissingTerminal <==> code == Some("desktop_stream_missing_terminal"))
      && (f in {BlankFrame, OversizedFrame, MalformedJson, MalformedFrame, UnknownFrame, OversizedStream}
          <==> code == Some("desktop_stream_invalid"))
  {
  }

  const OWN_LOSSES: set<string> := {
    "desktop_unreachable", "desktop_protocol_incompatible", "desktop_response_invalid", "desktop_stream_invalid",
    "desktop_stream_request_mismatch", "desktop_stream_sequence", "desktop_stream_trailing_frame",
    "desktop_stream_missing_terminal"}

  predicate OutcomeUnknown(error: ClientError) {
    error.code == "desktop_confirmation_outcome_unknown" && error.view.None? && !error.nothingRan
  }
}
