/**
 The life of one pooled connection (nisshi-client/src/lib.rs:241-373, 1024-1064): the client's steps,
 byte by byte, with a timeout, an error or a cancellation possible at each of them, beside the
 steps of the broker and of the network. The broker answers complete requests in order, each at
 most once, with well-formed frames.
 */
module ConnectionPool {
  import opened Prelude
  import opened Client

  datatype Request = Request(correlationId: i32, frame: Bytes)

  datatype Exchange = Exchange(request: Request, response: Bytes)

  /** Where the connection is: in the pool, with a caller, or closed. */
  datatype Phase =
    | Pooled
    | Held
    | Writing(request: Request, sent: nat)
    | ReadingSize(request: Request, got: Bytes)
    | ReadingBody(request: Request, got: Bytes, length: nat)
    | Discarded

  /**
   `written` are the requests that the broker has in full, `answers` are its responses so far, of which
   the first `arrived` bytes have reached the socket and the first `consumed` are read. `completed`
   are the calls of `serve` that returned a response.
   */
  datatype State = State(
    phase: Phase,
    correlationId: i32,
    inFlight: bool,
    written: seq<Request>,
    answers: seq<Bytes>,
    arrived: nat,
    consumed: nat,
    completed: seq<Exchange>)

  datatype Event =
    | Recycle(idle: bool, closed: bool)
    | Release
    | Begin(frame: Bytes)
    | Write(n: nat)
    | Read(bytes: Bytes)
    | Abort
    | Answer(frame: Bytes)
    | Arrive(n: nat)

  function Initial(): State {
    State(Pooled, 0, false, [], [], 0, 0, [])
  }

  /** All that the broker sends for `answers`. */
  function Stream(answers: seq<Bytes>): Bytes {
    if answers == [] then [] else Stream(answers[..|answers| - 1]) + answers[|answers| - 1]
  }

  /** The probe of `reusable` reads one byte, unless there is nothing to read. */
  function ProbeOf(s: State, closed: bool): Probe {
    if s.consumed < s.arrived then UnreadByte else if closed then Closed else WouldBlock
  }

  /** `bytes` are the next bytes in the socket. */
  predicate Readable(s: State, bytes: Bytes) {
    && s.consumed + |bytes| <= s.arrived <= |Stream(s.answers)|
    && Stream(s.answers)[s.consumed..s.consumed + |bytes|] == bytes
  }

  /** The read that is under way asks for `n` bytes or more. */
  predicate Fits(phase: Phase, n: nat) {
    || (phase.ReadingSize? && |phase.got| + n <= SIZE_BYTES)
    || (phase.ReadingBody? && |phase.got| + n <= phase.length)
  }

  predicate Enabled(s: State, e: Event) {
    match e
    case Recycle(_, _) => s.phase.Pooled?
    case Release => s.phase.Held?
    case Begin(_) => s.phase.Held?
    case Write(n) => s.phase.Writing? && s.phase.sent + n <= |s.phase.request.frame|
    case Read(bytes) => Readable(s, bytes) && Fits(s.phase, |bytes|)
    case Abort => s.phase.Writing? || s.phase.ReadingSize? || s.phase.ReadingBody?
    case Answer(frame) => |s.answers| < |s.written| && WellFormed(frame)
    case Arrive(n) => s.arrived + n <= |Stream(s.answers)|
  }

  /** `recycle`. */
  function Recycled(s: State, idle: bool, closed: bool): State {
    if Reusable(s.inFlight, idle, ProbeOf(s, closed)) then s.(phase := Held) else s.(phase := Discarded)
  }

  /** Some more of the request is written, and perhaps all of it. */
  function Wrote(s: State, n: nat): State
    requires s.phase.Writing?
  {
    var request, sent := s.phase.request, s.phase.sent + n;
    if sent < |request.frame| then s.(phase := Writing(request, sent))
    else
      s.(phase := ReadingSize(request, []),
         written := s.written + [request],
         correlationId := Wrap32(s.correlationId + 1))
  }

  /** The response is read in full: `serve` returns it, and the connection goes back to the pool. */
  function Complete(s: State, request: Request, response: Bytes): State {
    s.(phase := Pooled, inFlight := false, completed := s.completed + [Exchange(request, response)])
  }

  /** `got` of the size prefix is read. */
  function GotSize(s: State, request: Request, got: Bytes): State
    requires |got| <= SIZE_BYTES
  {
    if |got| < SIZE_BYTES then s.(phase := ReadingSize(request, got))
    else
      match FrameLength(got)
      case Err(_) => s.(phase := Pooled)
      case Ok(length) => GotBody(s, request, got, length)
  }

  /** `got` of the `length` bytes of the frame is read, and perhaps all of it. */
  function GotBody(s: State, request: Request, got: Bytes, length: nat): State {
    if |got| < length then s.(phase := ReadingBody(request, got, length)) else Complete(s, request, got)
  }

  /** Some more of the response is read. */
  function Reading(s: State, bytes: Bytes): State
    requires Fits(s.phase, |bytes|)
  {
    var read := s.(consumed := s.consumed + |bytes|);
    if s.phase.ReadingBody? then GotBody(read, s.phase.request, s.phase.got + bytes, s.phase.length)
    else GotSize(read, s.phase.request, s.phase.got + bytes)
  }

  function Next(s: State, e: Event): State
    requires Enabled(s, e)
  {
    match e
    case Recycle(idle, closed) => Recycled(s, idle, closed)
    case Release => s.(phase := Pooled)
    case Begin(frame) => s.(phase := Writing(Request(s.correlationId, frame), 0), inFlight := true)
    case Write(n) => Wrote(s, n)
    case Read(bytes) => Reading(s, bytes)
    case Abort => s.(phase := Pooled)
    case Answer(frame) => s.(answers := s.answers + [frame])
    case Arrive(n) => s.(arrived := s.arrived + n)
  }

  ghost predicate IsPath(events: seq<Event>, states: seq<State>) {
    && |states| == |events| + 1
    && forall i :: 0 <= i < |events| ==> Enabled(states[i], events[i]) && states[i + 1] == Next(states[i], events[i])
  }

  ghost predicate IsRun(events: seq<Event>, states: seq<State>) {
    IsPath(events, states) && states[0] == Initial()
  }

  // ------------------------------------------------------------------ the invariant

  /** Every request is answered, and every answer is read. */
  ghost predicate Quiet(s: State) {
    && |s.completed| == |s.written| == |s.answers|
    && s.consumed == s.arrived == |Stream(s.answers)|
  }

  /** The first `done` answers are read, and of the next one, if it is there, `got` is read. */
  ghost predicate Awaiting(done: nat, answers: seq<Bytes>, consumed: nat, got: Bytes) {
    if |answers| == done then got == [] && consumed == |Stream(answers)|
    else
      && |answers| == done + 1
      && got <= answers[done]
      && consumed == |Stream(answers[..done])| + |got|
  }

  ghost predicate AwaitingOf(s: State, request: Request, got: Bytes) {
    && |s.written| == |s.completed| + 1 && s.written[|s.completed|] == request
    && Awaiting(|s.completed|, s.answers, s.consumed, got)
  }

  ghost predicate PhaseInv(s: State) {
    match s.phase
    case Pooled => s.inFlight || Quiet(s)
    case Held => !s.inFlight && Quiet(s)
    case Writing(request, sent) =>
      s.inFlight && Quiet(s) && request.correlationId == s.correlationId && sent <= |request.frame|
    case ReadingSize(request, got) => s.inFlight && AwaitingOf(s, request, got) && |got| < SIZE_BYTES
    case ReadingBody(request, got, length) =>
      && s.inFlight && AwaitingOf(s, request, got)
      && |s.answers| == |s.written| && SIZE_BYTES <= |got| < length == |s.answers[|s.completed|]|
    case Discarded => true
  }

  /** Responses pair up with requests in order. */
  ghost predicate PairInv(written: seq<Request>, answers: seq<Bytes>, completed: seq<Exchange>) {
    && |completed| <= |answers| <= |written|
    && (forall k :: 0 <= k < |completed| ==> completed[k] == Exchange(written[k], answers[k]))
  }

  /** The k-th request has correlation id k. */
  ghost predicate IdInv(written: seq<Request>, correlationId: i32) {
    && (forall k :: 0 <= k < |written| ==> written[k].correlationId == Wrap32(k))
    && correlationId == Wrap32(|written|)
  }

  ghost predicate AllWellFormed(answers: seq<Bytes>) {
    forall k :: 0 <= k < |answers| ==> WellFormed(answers[k])
  }

  ghost predicate HistoryInv(s: State) {
    && PairInv(s.written, s.answers, s.completed)
    && IdInv(s.written, s.correlationId)
    && AllWellFormed(s.answers)
    && s.consumed <= s.arrived <= |Stream(s.answers)|
  }

  ghost predicate Inv(s: State) {
    HistoryInv(s) && PhaseInv(s)
  }

  // ------------------------------------------------------------------ streams

  lemma StreamSnoc(answers: seq<Bytes>, frame: Bytes)
    ensures Stream(answers + [frame]) == Stream(answers) + frame
  {
    assert (answers + [frame])[..|answers|] == answers;
  }

  lemma WrapNext(n: nat)
    ensures Wrap32(Wrap32(n) + 1) == Wrap32(n + 1)
  {
    var m := n % TWO_32;
    assert (n + 1) % TWO_32 == (m + 1) % TWO_32;
    assert (m - TWO_32 + 1) % TWO_32 == (m + 1) % TWO_32;
  }

  lemma StreamAt(answers: seq<Bytes>, at: nat, n: nat)
    requires answers != [] && at + n <= |answers[|answers| - 1]|
    ensures
      var k := |answers| - 1;
      var before := |Stream(answers[..k])|;
      && |Stream(answers)| == before + |answers[k]|
      && Stream(answers)[before + at..before + at + n] == answers[k][at..at + n]
  {
  }

  /** Reading more bytes extends what is read of the answer. */
  lemma ReadMore(done: nat, answers: seq<Bytes>, consumed: nat, got: Bytes, bytes: Bytes)
    requires Awaiting(done, answers, consumed, got)
    requires consumed + |bytes| <= |Stream(answers)| && Stream(answers)[consumed..consumed + |bytes|] == bytes
    ensures Awaiting(done, answers, consumed + |bytes|, got + bytes)
  {
    if |answers| > done {
      StreamAt(answers, 0, 0);
      StreamAt(answers, |got|, |bytes|);
      assert answers[done][..|got|] == got;
      assert got + bytes == answers[done][..|got + bytes|];
    }
  }

  /** Reading the whole answer leaves nothing unread. */
  lemma ReadAll(done: nat, answers: seq<Bytes>, consumed: nat, got: Bytes)
    requires Awaiting(done, answers, consumed, got)
    requires |answers| == done + 1 && |got| == |answers[done]|
    ensures got == answers[done] && consumed == |Stream(answers)|
  {
    StreamAt(answers, 0, 0);
  }

  /** With four bytes of a well-formed answer, the declared length is that of the answer. */
  lemma SizeRead(done: nat, answers: seq<Bytes>, consumed: nat, got: Bytes)
    requires Awaiting(done, answers, consumed, got) && |got| == SIZE_BYTES
    requires AllWellFormed(answers)
    ensures |answers| == done + 1 && FrameLength(got) == Ok(|answers[done]|)
  {
    assert WellFormed(answers[done]);
    assert answers[done][..SIZE_BYTES] == got;
  }

  lemma NextId(written: seq<Request>, correlationId: i32, request: Request)
    requires IdInv(written, correlationId) && request.correlationId == correlationId
    ensures IdInv(written + [request], Wrap32(correlationId + 1))
  {
    WrapNext(|written|);
  }

  lemma NextPair(written: seq<Request>, answers: seq<Bytes>, completed: seq<Exchange>)
    requires PairInv(written, answers, completed) && |completed| < |answers|
    ensures PairInv(written, answers, completed + [Exchange(written[|completed|], answers[|completed|])])
  {
  }

  // ------------------------------------------------------------------ every step keeps it

  lemma WroteKeeps(s: State, n: nat)
    requires Inv(s) && Enabled(s, Write(n))
    ensures Inv(Wrote(s, n))
  {
    if s.phase.sent + n == |s.phase.request.frame| {
      NextId(s.written, s.correlationId, s.phase.request);
    }
  }

  lemma AnsweredKeeps(s: State, frame: Bytes)
    requires Inv(s) && Enabled(s, Answer(frame))
    ensures Inv(s.(answers := s.answers + [frame]))
  {
    StreamSnoc(s.answers, frame);
    assert (s.answers + [frame])[..|s.answers|] == s.answers;
  }

  lemma CompleteKeeps(s: State, request: Request, got: Bytes)
    requires HistoryInv(s) && AwaitingOf(s, request, got)
    requires |s.answers| == |s.written| && |got| == |s.answers[|s.completed|]|
    ensures Inv(Complete(s, request, got))
  {
    ReadAll(|s.completed|, s.answers, s.consumed, got);
    NextPair(s.written, s.answers, s.completed);
  }

  lemma GotBodyKeeps(s: State, request: Request, got: Bytes, length: nat)
    requires HistoryInv(s) && s.inFlight && AwaitingOf(s, request, got)
    requires |s.answers| == |s.written| && SIZE_BYTES <= |got| <= length == |s.answers[|s.completed|]|
    ensures Inv(GotBody(s, request, got, length))
  {
    if |got| == length {
      CompleteKeeps(s, request, got);
    }
  }

  lemma GotSizeKeeps(s: State, request: Request, got: Bytes)
    requires HistoryInv(s) && s.inFlight && AwaitingOf(s, request, got) && |got| <= SIZE_BYTES
    ensures Inv(GotSize(s, request, got))
  {
    if |got| == SIZE_BYTES {
      SizeRead(|s.completed|, s.answers, s.consumed, got);
      GotBodyKeeps(s, request, got, |s.answers[|s.completed|]|);
    }
  }

  lemma ReadingKeeps(s: State, bytes: Bytes)
    requires Inv(s) && Enabled(s, Read(bytes))
    ensures Inv(Reading(s, bytes))
  {
    ReadMore(|s.completed|, s.answers, s.consumed, s.phase.got, bytes);
    var read := s.(consumed := s.consumed + |bytes|);
    assert AwaitingOf(read, s.phase.request, s.phase.got + bytes);
    ReadingOn(s, bytes);
  }

  lemma ReadingOn(s: State, bytes: Bytes)
    requires PhaseInv(s) && Fits(s.phase, |bytes|) && HistoryInv(s.(consumed := s.consumed + |bytes|))
    requires AwaitingOf(s.(consumed := s.consumed + |bytes|), s.phase.request, s.phase.got + bytes)
    ensures Inv(Reading(s, bytes))
  {
    var read := s.(consumed := s.consumed + |bytes|);
    if s.phase.ReadingBody? {
      GotBodyKeeps(read, s.phase.request, s.phase.got + bytes, s.phase.length);
    } else {
      GotSizeKeeps(read, s.phase.request, s.phase.got + bytes);
    }
  }

  lemma NextKeeps(s: State, e: Event)
    requires Inv(s) && Enabled(s, e)
    ensures Inv(Next(s, e))
  {
    match e
    case Write(n) => WroteKeeps(s, n);
    case Read(bytes) => ReadingKeeps(s, bytes);
    case Answer(frame) => AnsweredKeeps(s, frame);
    case _ =>
  }

  lemma {:induction false} RunKeeps(events: seq<Event>, states: seq<State>, i: nat)
    requires IsRun(events, states) && i < |states|
    ensures Inv(states[i])
  {
    if i > 0 {
      RunKeeps(events, states, i - 1);
      NextKeeps(states[i - 1], events[i - 1]);
    }
  }

  // ------------------------------------------------------------------ main results

  ghost predicate Reachable(s: State) {
    exists events, states :: IsRun(events, states) && states[|events|] == s
  }

  lemma ReachableInv(s: State)
    requires Reachable(s)
    ensures Inv(s)
  {
    var events, states :| IsRun(events, states) && states[|events|] == s;
    RunKeeps(events, states, |events|);
  }

  lemma ReachableNext(s: State, e: Event)
    requires Reachable(s) && Enabled(s, e)
    ensures Reachable(Next(s, e))
  {
    var events, states :| IsRun(events, states) && states[|events|] == s;
    var es, ss := events + [e], states + [Next(s, e)];
    forall i | 0 <= i < |es| ensures Enabled(ss[i], es[i]) && ss[i + 1] == Next(ss[i], es[i]) {
      assert i < |events| ==> ss[i] == states[i] && ss[i + 1] == states[i + 1] && es[i] == events[i];
    }
    assert IsRun(es, ss) && ss[|es|] == Next(s, e);
  }

  /**
   In every run, the pool hands a connection out if and only if no call was left unfinished on it, it was not
   idle for too long, the broker did not close it, and nothing is there to read. It discards it otherwise.
   */
  lemma RecycledIff(s: State, idle: bool, closed: bool)
    requires Reachable(s) && Enabled(s, Recycle(idle, closed))
    ensures
      var next := Next(s, Recycle(idle, closed));
      && (next.phase.Held? <==> !s.inFlight && !idle && !closed && s.consumed == s.arrived)
      && (next.phase.Discarded? <==> !next.phase.Held?)
      && next == s.(phase := next.phase)
  {
    ReachableInv(s);
  }

  /** A connection that the pool hands out has no unanswered request and no unread byte. */
  lemma HandedOutQuiet(s: State, idle: bool, closed: bool)
    requires Reachable(s) && s.phase.Pooled?
    requires Recycled(s, idle, closed).phase.Held?
    ensures Quiet(s)
  {
    ReachableInv(s);
  }

  /** Each completed call of `serve` returns the broker's answer to the request that it wrote. */
  lemma ResponsesMatch(s: State, k: nat)
    requires Reachable(s) && k < |s.completed|
    ensures k < |s.written| && k < |s.answers|
    ensures s.completed[k] == Exchange(s.written[k], s.answers[k])
  {
    ReachableInv(s);
  }

  lemma ReadingFrame(s: State, bytes: Bytes)
    requires Fits(s.phase, |bytes|)
    ensures Reading(s, bytes).written == s.written && Reading(s, bytes).answers == s.answers
    ensures |Reading(s, bytes).completed| > |s.completed| ==>
              Reading(s, bytes).completed == s.completed + [Exchange(s.phase.request, s.phase.got + bytes)]
  {
  }

  /** The read that completes a call returns the answer to the request just written. */
  lemma ReadReturnsOwn(s: State, bytes: Bytes)
    requires Reachable(s) && Enabled(s, Read(bytes)) && |Reading(s, bytes).completed| > |s.completed|
    ensures |s.answers| == |s.written| > 0
    ensures
      var last := |s.written| - 1;
      && s.phase.request == s.written[last]
      && Reading(s, bytes).completed == s.completed + [Exchange(s.written[last], s.answers[last])]
  {
    ReachableInv(s);
    ReadingKeeps(s, bytes);
    ReadingFrame(s, bytes);
    var next, last := Reading(s, bytes), |s.written| - 1;
    PairedLast(s.written, s.answers, next.completed, last);
  }

  lemma PairedLast(written: seq<Request>, answers: seq<Bytes>, completed: seq<Exchange>, last: nat)
    requires PairInv(written, answers, completed) && last < |completed|
    ensures last < |answers| && last < |written| && completed[last] == Exchange(written[last], answers[last])
  {
  }

  /** The requests of a connection have the correlation ids 0, 1, 2, ... as 32-bit integers. */
  lemma CorrelationIds(s: State, k: nat)
    requires Reachable(s) && k < |s.written|
    ensures s.written[k].correlationId == Wrap32(k)
    ensures k <= I32_MAX ==> s.written[k].correlationId == k
    ensures (s.written[k].correlationId - k) % TWO_32 == 0
    ensures s.phase.Writing? ==> s.phase.request.correlationId == Wrap32(|s.written|)
  {
    Wrap32Is(k);
    ReachableInv(s);
  }

  /** The size prefix that is read declares the length of the answer to the request just written, so it never fails. */
  lemma FrameLengthOk(s: State, bytes: Bytes)
    requires Reachable(s) && Enabled(s, Read(bytes)) && s.phase.ReadingSize? && |s.phase.got + bytes| == SIZE_BYTES
    ensures |s.answers| == |s.written| > 0
    ensures FrameLength(s.phase.got + bytes) == Ok(|s.answers[|s.written| - 1]|)
  {
    ReachableInv(s);
    ReadMore(|s.completed|, s.answers, s.consumed, s.phase.got, bytes);
    SizeRead(|s.completed|, s.answers, s.consumed + |bytes|, s.phase.got + bytes);
  }

  /**
   The probe for unread bytes is not enough. After a timeout, a connection can be in the pool with
   nothing to read while the answer to its last request is still to come, and only `inFlight` keeps
   it from the next caller.
   */
  lemma ProbeNotEnough(frame: Bytes, answer: Bytes) returns (s: State)
    requires WellFormed(answer)
    ensures Reachable(s) && s.phase.Pooled? && ProbeOf(s, false) == WouldBlock
    ensures s.inFlight && !Quiet(s) && Enabled(s, Answer(answer))
  {
    var s1 := Next(Initial(), Recycle(false, false));
    var s2 := Next(s1, Begin(frame));
    var s3 := Next(s2, Write(|frame|));
    s := Next(s3, Abort);
    var events := [Recycle(false, false), Begin(frame), Write(|frame|), Abort];
    assert IsRun(events, [Initial(), s1, s2, s3, s]);
    assert [Initial(), s1, s2, s3, s][|events|] == s;
  }
}
