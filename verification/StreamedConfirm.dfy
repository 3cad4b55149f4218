/** A streamed confirm: the first receipt frame settles the answer, whatever the stream does next. */
module StreamedConfirm {
  import opened Options
  import opened StreamReader
  import opened StreamChunks

  type View = string
  type Turn = string

  /** How an error payload reads: its code, and the app's own `notSent` mark. */
  datatype AppError = AppError(code: Option<string>, notSent: bool)

  /** A receipt payload; `executionFailure` is a nested failure, with its code when it has one. */
  datatype Payload = Payload(ok: bool, error: AppError, executionFailure: Option<Option<string>>, view: Option<View>)

  /** A frame's data, as each reader of it sees it. */
  datatype AppData = AppData(receipt: Option<Payload>, error: AppError, turn: Option<Turn>)

  datatype ClientError = ClientError(code: string, view: Option<View>, nothingRan: bool)

  datatype Receipt = Confirmed(payload: Payload) | Refused(error: ClientError)

  function CodeOr(code: Option<string>, fallback: string): string {
    if code.Some? then code.value else fallback
  }

  function ReceiptOutcome(p: Payload): Receipt {
    if !p.ok then
      Refused(ClientError(CodeOr(p.error.code, "desktop_confirmation_failed"), p.view, p.view.None? && p.error.notSent))
    else if p.executionFailure.Some? then
      Refused(ClientError(CodeOr(p.executionFailure.value, "desktop_confirmation_execution_failed"), p.view, false))
    else Confirmed(p)
  }

  // ----- Frames -----

  /** The listener's variables, with the callbacks it has made. */
  datatype Seen = Seen(settled: Option<Receipt>, receiptCalls: seq<Payload>, progressCalls: seq<Frame<AppData>>)

  function Hear(s: Seen, frame: Frame<AppData>): Seen {
    if s.settled.Some? then s.(progressCalls := s.progressCalls + [frame])
    else if frame.data.receipt.None? then s
    else
      var outcome := ReceiptOutcome(frame.data.receipt.value);
      s.(settled := Some(outcome),
         receiptCalls := if outcome.Confirmed? then s.receiptCalls + [outcome.payload] else s.receiptCalls)
  }

  function HearAll(frames: seq<Frame<AppData>>): Seen {
    if frames == [] then Seen(None, [], []) else Hear(HearAll(frames[..|frames| - 1]), frames[|frames| - 1])
  }

  class Listener {
    var receipt: Option<Payload>
    var receiptFailure: Option<ClientError>
    var receiptCalls: seq<Payload>
    var progressCalls: seq<Frame<AppData>>

    ghost predicate Valid()
      reads this
    {
      receipt.None? || receiptFailure.None?
    }

    ghost function Heard(): Seen
      requires Valid()
      reads this
    {
      Seen(if receipt.Some? then Some(Confirmed(receipt.value))
           else if receiptFailure.Some? then Some(Refused(receiptFailure.value)) else None,
           receiptCalls, progressCalls)
    }

    constructor ()
      ensures Valid() && Heard() == Seen(None, [], [])
    {
      receipt, receiptFailure, receiptCalls, progressCalls := None, None, [], [];
    }

    method OnFrame(frame: Frame<AppData>)
      requires Valid()
      modifies this
      ensures Valid() && Heard() == Hear(old(Heard()), frame)
    {
      if receipt.None? && receiptFailure.None? {
        if frame.data.receipt.Some? {
          var outcome := ReceiptOutcome(frame.data.receipt.value);
          match outcome {
            case Refused(error) => receiptFailure := Some(error);
            case Confirmed(payload) =>
              receipt := Some(payload);
              receiptCalls := receiptCalls + [payload];
          }
        }
        return;
      }
      progressCalls := progressCalls + [frame];
    }

    /** A receipt is returned, whatever the ending; a refused one is thrown; with neither, the ending decides. */
    method Settle(ending: Ending) returns (reply: Reply)
      requires Valid()
      ensures reply == ReplyOf(Heard(), ending)
    {
      if receipt.Some? {
        reply := Returned(receipt.value, FollowUpOf(ending));
      } else if receiptFailure.Some? {
        reply := Thrown(receiptFailure.value);
      } else {
        reply := Thrown(Unsettled(ending));
      }
    }
  }

  // ----- The end of the stream -----

  /** How the request ended: a terminal frame, or an error (None: not one of the client's own). */
  datatype Ending = Ended(terminal: Terminal<AppData>) | Lost(code: Option<string>)

  datatype FollowUp = Answered(turn: Turn) | Broken(code: string)

  datatype Reply = Returned(receipt: Payload, followUp: FollowUp) | Thrown(error: ClientError)

  const LOSS_CODES: set<string> := {
    "desktop_unreachable", "desktop_stream_invalid", "desktop_stream_missing_terminal", "desktop_stream_sequence",
    "desktop_stream_request_mismatch", "desktop_stream_trailing_frame", "desktop_protocol_incompatible",
    "desktop_response_invalid"}

  const NOT_RUN_CODES: set<string> := {"field_invalid", "receipt_view_unavailable"}

  const UNKNOWN: ClientError := ClientError("desktop_confirmation_outcome_unknown", None, false)

  function Unsettled(ending: Ending): ClientError {
    match ending
    case Lost(code) =>
      if code.Some? && code.value !in LOSS_CODES then ClientError(code.value, None, false) else UNKNOWN
    case Ended(terminal) =>
      if !terminal.isError then UNKNOWN
      else
        var code := CodeOr(terminal.data.error.code, "desktop_confirmation_failed");
        ClientError(code, None, terminal.data.error.notSent || code in NOT_RUN_CODES)
  }

  function FollowUpOf(ending: Ending): FollowUp {
    match ending
    case Lost(code) => Broken(CodeOr(code, "desktop_stream_invalid"))
    case Ended(terminal) =>
      if terminal.isError then Broken(CodeOr(terminal.data.error.code, "desktop_turn_failed"))
      else if terminal.data.turn.Some? then Answered(terminal.data.turn.value)
      else Broken("desktop_response_invalid")
  }

  function ReplyOf(seen: Seen, ending: Ending): Reply {
    match seen.settled
    case None => Thrown(Unsettled(ending))
    case Some(Refused(error)) => Thrown(error)
    case Some(Confirmed(payload)) => Returned(payload, FollowUpOf(ending))
  }

  function FailureCode(f: Failure, transport: Option<string>): Option<string> {
    match f
    case Incompatible => Some("desktop_protocol_incompatible")
    case RequestMismatch => Some("desktop_stream_request_mismatch")
    case OutOfOrder => Some("desktop_stream_sequence")
    case TrailingFrame => Some("desktop_stream_trailing_frame")
    case MissingTerminal => Some("desktop_stream_missing_terminal")
    case Transport => transport
    case _ => Some("desktop_stream_invalid")
  }

  function EndingOf(verdict: Verdict<AppData>, transport: Option<string>): Ending {
    match verdict
    case Success(terminal) => Ended(terminal)
    case Failure(f) => Lost(FailureCode(f, transport))
  }

  /** Whether the request was answered with a stream; None: not one of the client's own errors. */
  datatype Opening = Accepted | Rejected(code: Option<string>)

  /** The whole exchange; `transport` is the code of a read that broke. */
  method StreamConfirmation(
    opening: Opening, env: Env<AppData>, chunks: seq<Chunk>, flush: string, closed: bool, transport: Option<string>)
    returns (reply: Reply, listener: Listener)
    ensures fresh(listener) && listener.Valid()
    ensures opening.Rejected? ==>
      listener.Heard() == HearAll([]) && reply == ReplyOf(HearAll([]), Lost(opening.code))
    ensures opening.Accepted? ==>
      var read := ReadCut(env, chunks, flush, closed);
      && listener.Heard() == HearAll(read.progress)
      && reply == ReplyOf(HearAll(read.progress), EndingOf(read.verdict, transport))
  {
    listener := new Listener();
    if opening.Rejected? {
      return Thrown(Unsettled(Lost(opening.code))), listener;
    }
    var read := ReadFrames(env, chunks, flush, closed);
    for i := 0 to |read.progress|
      invariant fresh(listener) && listener.Valid() && listener.Heard() == HearAll(read.progress[..i])
    {
      assert read.progress[..i + 1][..i] == read.progress[..i];
      listener.OnFrame(read.progress[i]);
    }
    assert read.progress[..|read.progress|] == read.progress;
    reply := listener.Settle(EndingOf(read.verdict, transport));
  }

  // ----- The first receipt stands -----

  predicate IsReceipt(frame: Frame<AppData>) {
    frame.data.receipt.Some?
  }

  /** `n` is the first receipt frame. */
  predicate FirstReceipt(frames: seq<Frame<AppData>>, n: nat) {
    n < |frames| && IsReceipt(frames[n]) && forall k :: 0 <= k < n ==> !IsReceipt(frames[k])
  }

  /** The receipt handed on is the first one, once; the progress handed on is what follows it. */
  lemma {:induction false} HeardAfterFirstReceipt(frames: seq<Frame<AppData>>, n: nat)
    requires FirstReceipt(frames, n)
    ensures var outcome := ReceiptOutcome(frames[n].data.receipt.value);
      HearAll(frames) == Seen(Some(outcome), if outcome.Confirmed? then [outcome.payload] else [], frames[n + 1..])
  {
    var init := frames[..|frames| - 1];
    if |frames| == n + 1 {
      NothingHeardBefore(init);
    } else {
      assert forall k :: 0 <= k <= n ==> init[k] == frames[k];
      HeardAfterFirstReceipt(init, n);
      assert frames[n + 1..] == init[n + 1..] + [frames[|frames| - 1]];
    }
  }

  lemma {:induction false} NothingHeardBefore(frames: seq<Frame<AppData>>)
    requires forall k :: 0 <= k < |frames| ==> !IsReceipt(frames[k])
    ensures HearAll(frames) == Seen(None, [], [])
  {
    if frames != [] { NothingHeardBefore(frames[..|frames| - 1]); }
  }

  /** Two exchanges whose frames agree up to the first receipt end alike, whatever follows it (more
      frames, a terminal of either kind, a malformed or lost stream): the same receipt is returned and
      was handed on once, or the same refusal is thrown and none was. */
  lemma FirstReceiptStands(a: seq<Frame<AppData>>, x: Ending, b: seq<Frame<AppData>>, y: Ending, n: nat)
    requires FirstReceipt(a, n) && n < |b| && a[..n + 1] == b[..n + 1]
    ensures var outcome := ReceiptOutcome(a[n].data.receipt.value);
      var p, q := ReplyOf(HearAll(a), x), ReplyOf(HearAll(b), y);
      && HearAll(a).receiptCalls == HearAll(b).receiptCalls
      && match outcome {
           case Confirmed(payload) => p.Returned? && q.Returned? && p.receipt == q.receipt == payload
                                      && HearAll(a).receiptCalls == [payload]
           case Refused(error) => p == q == Thrown(error) && HearAll(a).receiptCalls == []
         }
  {
    assert forall k :: 0 <= k <= n ==> a[..n + 1][k] == a[k] && b[..n + 1][k] == b[k];
    HeardAfterFirstReceipt(a, n);
    HeardAfterFirstReceipt(b, n);
  }

  /** The same for streams: once the text `head` has delivered a receipt, no continuation of the
      stream, closed or broken off, changes the receipt or the refusal. */
  lemma ReceiptInTextStands(
    env: Env<AppData>, head: string, n: nat,
    rest: string, closed: bool, transport: Option<string>, rest': string, closed': bool, transport': Option<string>)
    requires FirstReceipt(ProgressSoFar(ConsumeAll(env, Start(), RawLines(head))), n)
    ensures var a, b := Read(env, head + rest, closed), Read(env, head + rest', closed');
      var p, q := ReplyOf(HearAll(a.progress), EndingOf(a.verdict, transport)),
                  ReplyOf(HearAll(b.progress), EndingOf(b.verdict, transport'));
      && HearAll(a.progress).receiptCalls == HearAll(b.progress).receiptCalls
      && (p.Returned? <==> q.Returned?)
      && (p.Returned? ==> p.receipt == q.receipt)
      && (p.Thrown? ==> p == q)
  {
    var known := ProgressSoFar(ConsumeAll(env, Start(), RawLines(head)));
    KeepsHead(env, head, rest, closed);
    KeepsHead(env, head, rest', closed');
    var a, b := Read(env, head + rest, closed), Read(env, head + rest', closed');
    assert a.progress[..n + 1] == known[..n + 1] == b.progress[..n + 1];
    FirstReceiptStands(a.progress, EndingOf(a.verdict, transport), b.progress, EndingOf(b.verdict, transport'), n);
  }

  lemma KeepsHead(env: Env<AppData>, head: string, rest: string, closed: bool)
    ensures ProgressSoFar(ConsumeAll(env, Start(), RawLines(head))) <= Read(env, head + rest, closed).progress
  {
    LinesSplit(head, rest, closed);
    var tail := Lines(Rest(head) + rest, closed);
    ConsumeConcat(env, Start(), RawLines(head), tail);
    ProgressOnlyGrows(env, ConsumeAll(env, Start(), RawLines(head)), tail);
  }

  lemma {:induction false} ReadKeepsProgress(
    env: Env<AppData>, chunks: seq<Chunk>, i: nat, flush: string, closed: bool, st: State<AppData>, buffer: string, bytes: nat)
    requires i <= |chunks|
    ensures ProgressSoFar(st) <= ReadFrom(env, chunks, i, flush, closed, st, buffer, bytes).progress
    decreases |chunks| - i
  {
    if st.Failed? || i == |chunks| || bytes + chunks[i].bytes > MAX_STREAM_BYTES {
      StopKeepsProgress(env, chunks, i, flush, closed, st, buffer, bytes);
    } else {
      var text := buffer + chunks[i].text;
      OneStep(env, chunks, i, flush, closed, st, buffer, bytes);
      ProgressOnlyGrows(env, st, RawLines(text));
      ReadKeepsProgress(env, chunks, i + 1, flush, closed, ConsumeAll(env, st, RawLines(text)), Rest(text), bytes + chunks[i].bytes);
    }
  }

  lemma StopKeepsProgress(
    env: Env<AppData>, chunks: seq<Chunk>, i: nat, flush: string, closed: bool, st: State<AppData>, buffer: string, bytes: nat)
    requires i <= |chunks| && (st.Failed? || i == |chunks| || bytes + chunks[i].bytes > MAX_STREAM_BYTES)
    ensures ProgressSoFar(st) <= ReadFrom(env, chunks, i, flush, closed, st, buffer, bytes).progress
  {
  }

  /** From here, reading `all` hands on at least what reading `head` does. */
  ghost predicate Kept(
    env: Env<AppData>, head: seq<Chunk>, all: seq<Chunk>, i: nat, flush: string, closed: bool,
    st: State<AppData>, buffer: string, bytes: nat)
    requires i <= |head| <= |all|
  {
    ReadFrom(env, head, i, "", false, st, buffer, bytes).progress <= ReadFrom(env, all, i, flush, closed, st, buffer, bytes).progress
  }

  lemma KeptWhenDone(
    env: Env<AppData>, head: seq<Chunk>, all: seq<Chunk>, i: nat, flush: string, closed: bool,
    st: State<AppData>, buffer: string, bytes: nat)
    requires i <= |head| <= |all|
    requires i == |head| || st.Failed? || bytes + head[i].bytes > MAX_STREAM_BYTES
    ensures Kept(env, head, all, i, flush, closed, st, buffer, bytes)
  {
    ReadKeepsProgress(env, all, i, flush, closed, st, buffer, bytes);
  }

  lemma KeptBefore(
    env: Env<AppData>, head: seq<Chunk>, all: seq<Chunk>, i: nat, flush: string, closed: bool,
    st: State<AppData>, buffer: string, bytes: nat)
    requires i < |head| <= |all| && all[i] == head[i] && st.Open? && bytes + head[i].bytes <= MAX_STREAM_BYTES
    requires var text := buffer + head[i].text;
      Kept(env, head, all, i + 1, flush, closed, ConsumeAll(env, st, RawLines(text)), Rest(text), bytes + head[i].bytes)
    ensures Kept(env, head, all, i, flush, closed, st, buffer, bytes)
  {
    OneStep(env, head, i, "", false, st, buffer, bytes);
    OneStep(env, all, i, flush, closed, st, buffer, bytes);
  }

  /** What the first chunks have handed on, any further chunks only add to. */
  lemma {:induction false} HeadIsKept(
    env: Env<AppData>, head: seq<Chunk>, all: seq<Chunk>, i: nat, flush: string, closed: bool,
    st: State<AppData>, buffer: string, bytes: nat)
    requires i <= |head| && head <= all
    ensures Kept(env, head, all, i, flush, closed, st, buffer, bytes)
    decreases |head| - i
  {
    if i < |head| && st.Open? && bytes + head[i].bytes <= MAX_STREAM_BYTES {
      var text := buffer + head[i].text;
      assert all[i] == head[i];
      HeadIsKept(env, head, all, i + 1, flush, closed, ConsumeAll(env, st, RawLines(text)), Rest(text), bytes + head[i].bytes);
      KeptBefore(env, head, all, i, flush, closed, st, buffer, bytes);
    } else {
      KeptWhenDone(env, head, all, i, flush, closed, st, buffer, bytes);
    }
  }

  /** Once the chunks read so far have delivered a receipt, no further chunks, of any size and however the
      stream ends, change the receipt, the refusal or the calls made with it. */
  lemma ReceiptInChunksStands(
    env: Env<AppData>, head: seq<Chunk>, n: nat,
    tail: seq<Chunk>, flush: string, closed: bool, transport: Option<string>,
    tail': seq<Chunk>, flush': string, closed': bool, transport': Option<string>)
    requires FirstReceipt(ReadCut(env, head, "", false).progress, n)
    ensures var a, b := ReadCut(env, head + tail, flush, closed), ReadCut(env, head + tail', flush', closed');
      var p, q := ReplyOf(HearAll(a.progress), EndingOf(a.verdict, transport)),
                  ReplyOf(HearAll(b.progress), EndingOf(b.verdict, transport'));
      && HearAll(a.progress).receiptCalls == HearAll(b.progress).receiptCalls
      && (p.Returned? <==> q.Returned?)
      && (p.Returned? ==> p.receipt == q.receipt)
      && (p.Thrown? ==> p == q)
  {
    var known := ReadCut(env, head, "", false).progress;
    HeadIsKept(env, head, head + tail, 0, flush, closed, Start(), "", 0);
    HeadIsKept(env, head, head + tail', 0, flush', closed', Start(), "", 0);
    var a, b := ReadCut(env, head + tail, flush, closed), ReadCut(env, head + tail', flush', closed');
    assert a.progress[..n + 1] == known[..n + 1] == b.progress[..n + 1];
    FirstReceiptStands(a.progress, EndingOf(a.verdict, transport), b.progress, EndingOf(b.verdict, transport'), n);
  }

  /** Without a receipt nothing is returned, and the error says nothing ran only on proof: the app's
      own mark, or a code that is refused before anything resolves. A lost stream is never that. */
  lemma NoReceiptNoClaim(frames: seq<Frame<AppData>>, ending: Ending)
    requires forall k :: 0 <= k < |frames| ==> !IsReceipt(frames[k])
    ensures var reply := ReplyOf(HearAll(frames), ending);
      && reply.Thrown? && HearAll(frames).receiptCalls == [] && HearAll(frames).progressCalls == []
      && (reply.error.nothingRan ==>
        && ending.Ended? && ending.terminal.isError
        && (ending.terminal.data.error.notSent || reply.error.code in NOT_RUN_CODES))
      && (ending.Lost? && (ending.code.None? || ending.code.value in LOSS_CODES) ==> reply.error == UNKNOWN)
  {
    NothingHeardBefore(frames);
  }
}
