/**
 The two models of a connection agree: however the steps of the client, the broker and the network
 interleave, a call of `serve` ends in the steps of `ConnectionPool` as it does in the method of `Client`
 (nisshi-client/src/lib.rs:1024-1064).
 */
module ConnectionServe {
  import opened Prelude
  import opened Client
  import opened ConnectionPool

  datatype Path = Path(events: seq<Event>, states: seq<State>)

  function Last(p: Path): State
    requires p.states != []
  {
    p.states[|p.states| - 1]
  }

  /** A path from `s`, which begins to serve `frame` and goes on no longer than until the call ends. */
  ghost predicate IsCall(s: State, frame: Bytes, p: Path) {
    && IsPath(p.events, p.states)
    && p.events != [] && p.events[0] == Begin(frame)
    && p.states[0] == s
    && forall i :: 0 < i < |p.events| ==> !p.states[i].phase.Pooled?
  }

  /** What is read from `s` to `last`. */
  function ReadSince(s: State, last: State): Bytes
    requires s.consumed <= last.consumed <= |Stream(last.answers)|
  {
    Stream(last.answers)[s.consumed..last.consumed]
  }

  /**
   `last` is as `Connection.Serve` leaves the connection, if the socket takes `room` bytes and then
   delivers what is read from `s` to `last`.
   */
  predicate EndsAsServe(s: State, frame: Bytes, last: State, room: nat) {
    var request := Request(s.correlationId, frame);
    && s.consumed <= last.consumed <= |Stream(last.answers)|
    && var result := ServeResult(frame, room, ReadSince(s, last));
    && (last.inFlight <==> result.Err?)
    && last.correlationId == (if |frame| <= room then Wrap32(s.correlationId + 1) else s.correlationId)
    && last.written == s.written + (if |frame| <= room then [request] else [])
    && last.completed == s.completed + (if result.Ok? then [Exchange(request, result.value)] else [])
  }

  // ------------------------------------------------------------------ every call ends as `Serve` does

  /** The request is written, and `got` is read since. */
  predicate Asking(s: State, frame: Bytes, x: State, request: Request, got: Bytes) {
    && x.inFlight && x.completed == s.completed
    && request == Request(s.correlationId, frame)
    && x.written == s.written + [request]
    && x.correlationId == Wrap32(s.correlationId + 1)
    && s.consumed <= x.consumed <= |Stream(x.answers)|
    && got == ReadSince(s, x)
  }

  /** What holds during the call that begins in `s`. */
  predicate Progress(s: State, frame: Bytes, x: State) {
    match x.phase
    case Writing(request, _) =>
      && x.inFlight && x.completed == s.completed
      && request == Request(s.correlationId, frame)
      && x.written == s.written && x.correlationId == s.correlationId
      && s.consumed == x.consumed <= |Stream(x.answers)|
    case ReadingSize(request, got) => Asking(s, frame, x, request, got) && |got| < SIZE_BYTES
    case ReadingBody(request, got, length) =>
      && Asking(s, frame, x, request, got)
      && SIZE_BYTES <= |got| < length && FrameLength(got[..SIZE_BYTES]) == Ok(length)
    case _ => false
  }

  /** The call goes on, or it ends as `Serve` does. */
  ghost predicate OnOrEnded(s: State, frame: Bytes, x: State) {
    if x.phase.Pooled? then
      forall room :: (|frame| <= room <==> |x.written| > |s.written|) ==> EndsAsServe(s, frame, x, room)
    else Progress(s, frame, x)
  }

  lemma AbortEnds(s: State, frame: Bytes, x: State)
    requires Progress(s, frame, x)
    ensures OnOrEnded(s, frame, x.(phase := Pooled))
  {
    var next := x.(phase := Pooled);
    if !x.phase.Writing? {
      assert ReadSince(s, next) == x.phase.got;
      assert ReadFrame(x.phase.got).Err?;
    }
  }

  lemma WroteOn(s: State, frame: Bytes, x: State, n: nat)
    requires Progress(s, frame, x) && x.phase.Writing?
    ensures OnOrEnded(s, frame, Wrote(x, n))
  {
    assert ReadSince(s, x) == [];
    var next := Wrote(x, n);
    assert next.answers == x.answers && next.consumed == x.consumed;
  }

  lemma AnsweredOn(s: State, frame: Bytes, x: State, answer: Bytes)
    requires Progress(s, frame, x)
    ensures OnOrEnded(s, frame, x.(answers := x.answers + [answer]))
  {
    StreamSnoc(x.answers, answer);
    assert ReadSince(s, x.(answers := x.answers + [answer])) == ReadSince(s, x);
  }

  /** `got`, the whole frame or a part of it with its size prefix, is read. */
  lemma GotBodyOn(s: State, frame: Bytes, read: State, request: Request, got: Bytes, length: nat)
    requires Asking(s, frame, read, request, got)
    requires SIZE_BYTES <= |got| <= length && FrameLength(got[..SIZE_BYTES]) == Ok(length)
    ensures OnOrEnded(s, frame, GotBody(read, request, got, length))
  {
    var next := GotBody(read, request, got, length);
    assert ReadSince(s, next) == got;
    if |got| == length {
      assert got[..length] == got;
      assert ReadFrame(got) == Ok(got);
    }
  }

  lemma GotSizeOn(s: State, frame: Bytes, read: State, request: Request, got: Bytes)
    requires Asking(s, frame, read, request, got) && |got| <= SIZE_BYTES
    ensures OnOrEnded(s, frame, GotSize(read, request, got))
  {
    assert |got| == SIZE_BYTES ==> got[..SIZE_BYTES] == got;
    if |got| == SIZE_BYTES && FrameLength(got).Ok? {
      GotBodyOn(s, frame, read, request, got, FrameLength(got).value);
    } else {
      assert ReadSince(s, GotSize(read, request, got)) == got;
    }
  }

  lemma AskingMore(s: State, frame: Bytes, x: State, bytes: Bytes)
    requires x.phase.ReadingSize? || x.phase.ReadingBody?
    requires Asking(s, frame, x, x.phase.request, x.phase.got) && Readable(x, bytes)
    ensures Asking(s, frame, x.(consumed := x.consumed + |bytes|), x.phase.request, x.phase.got + bytes)
  {
    assert ReadSince(s, x.(consumed := x.consumed + |bytes|)) == ReadSince(s, x) + bytes;
  }

  lemma ReadOn(s: State, frame: Bytes, x: State, bytes: Bytes)
    requires Progress(s, frame, x) && Readable(x, bytes) && Fits(x.phase, |bytes|)
    ensures OnOrEnded(s, frame, Reading(x, bytes))
  {
    AskingMore(s, frame, x, bytes);
    var read, got := x.(consumed := x.consumed + |bytes|), x.phase.got + bytes;
    if x.phase.ReadingBody? {
      assert got[..SIZE_BYTES] == x.phase.got[..SIZE_BYTES];
      GotBodyOn(s, frame, read, x.phase.request, got, x.phase.length);
    } else {
      GotSizeOn(s, frame, read, x.phase.request, got);
    }
  }

  lemma StepOn(s: State, frame: Bytes, x: State, e: Event)
    requires Progress(s, frame, x) && Enabled(x, e)
    ensures OnOrEnded(s, frame, Next(x, e))
  {
    match e
    case Write(n) => WroteOn(s, frame, x, n);
    case Read(bytes) => ReadOn(s, frame, x, bytes);
    case Answer(answer) => AnsweredOn(s, frame, x, answer);
    case Abort => AbortEnds(s, frame, x);
    case Arrive(n) => assert ReadSince(s, x.(arrived := x.arrived + n)) == ReadSince(s, x);
  }

  lemma {:induction false} CallOn(s: State, frame: Bytes, p: Path, i: nat)
    requires IsCall(s, frame, p) && 0 < i < |p.states| && s.consumed <= |Stream(s.answers)|
    ensures OnOrEnded(s, frame, p.states[i])
  {
    if i == 1 {
      assert p.states[1] == Next(p.states[0], p.events[0]);
    } else {
      CallOn(s, frame, p, i - 1);
      StepOn(s, frame, p.states[i - 1], p.events[i - 1]);
    }
  }

  /**
   Every call, from any reachable state, ends as `Connection.Serve` does: in the flag, the correlation id, the
   requests that the broker has in full, and the result. This holds of every sequence of partial writes,
   partial reads, answers and arrivals, and for a timeout, an error or a cancellation at any of them. A
   request always has its size prefix, so its frame is not empty.
   */
  lemma CallEndsAsServe(s: State, frame: Bytes, p: Path) returns (room: nat)
    requires Reachable(s) && frame != []
    requires IsCall(s, frame, p) && Last(p).phase.Pooled?
    ensures EndsAsServe(s, frame, Last(p), room)
  {
    ReachableInv(s);
    CallOn(s, frame, p, |p.events|);
    room := if |Last(p).written| > |s.written| then |frame| else 0;
  }

  // ------------------------------------------------------------------ every end of `Serve` is reached

  function Extended(p: Path, e: Event): Path
    requires p.states != [] && Enabled(Last(p), e)
  {
    Path(p.events + [e], p.states + [Next(Last(p), e)])
  }

  lemma Extend(s: State, frame: Bytes, p: Path, e: Event)
    requires IsCall(s, frame, p) && !Last(p).phase.Pooled? && Enabled(Last(p), e)
    ensures IsCall(s, frame, Extended(p, e)) && Last(Extended(p, e)) == Next(Last(p), e)
  {
    var q := Extended(p, e);
    forall i | 0 <= i < |q.events|
      ensures Enabled(q.states[i], q.events[i]) && q.states[i + 1] == Next(q.states[i], q.events[i])
    {
      assert i < |p.events| ==> q.states[i] == p.states[i] && q.states[i + 1] == p.states[i + 1] && q.events[i] == p.events[i];
    }
  }

  function Begun(s: State, frame: Bytes): Path
    requires s.phase.Held?
  {
    Path([Begin(frame)], [s, Next(s, Begin(frame))])
  }

  function Written(s: State, frame: Bytes): State {
    var request := Request(s.correlationId, frame);
    s.(phase := ReadingSize(request, []),
       inFlight := true,
       written := s.written + [request],
       correlationId := Wrap32(s.correlationId + 1))
  }

  /** The request is written in full, and `m` bytes of its answer have reached the socket. */
  function Asked(s: State, frame: Bytes, answer: Bytes, m: nat): State {
    Written(s, frame).(answers := s.answers + [answer], arrived := s.arrived + m)
  }

  lemma HeldQuiet(s: State)
    requires Reachable(s) && s.phase.Held?
    ensures Quiet(s)
  {
    ReachableInv(s);
  }

  lemma WrittenCall(s: State, frame: Bytes) returns (p: Path)
    requires s.phase.Held?
    ensures IsCall(s, frame, p) && Last(p) == Written(s, frame)
  {
    Extend(s, frame, Begun(s, frame), Write(|frame|));
    p := Extended(Begun(s, frame), Write(|frame|));
  }

  lemma AskedCall(s: State, frame: Bytes, answer: Bytes, m: nat) returns (p: Path)
    requires s.phase.Held? && Quiet(s) && WellFormed(answer) && m <= |answer|
    ensures IsCall(s, frame, p) && Last(p) == Asked(s, frame, answer, m)
    ensures Stream(s.answers + [answer]) == Stream(s.answers) + answer
  {
    StreamSnoc(s.answers, answer);
    p := WrittenCall(s, frame);
    Extend(s, frame, p, Answer(answer));
    p := Extended(p, Answer(answer));
    Extend(s, frame, p, Arrive(m));
    p := Extended(p, Arrive(m));
  }

  /** The first `n` bytes of what has arrived are read, at once or after the size prefix. */
  function ReadOf(s: State, frame: Bytes, answer: Bytes, m: nat, n: nat): State
    requires n <= m <= |answer|
  {
    var asked := Asked(s, frame, answer, m);
    var read := asked.(consumed := s.consumed + n);
    if n < SIZE_BYTES then read.(phase := ReadingSize(asked.phase.request, answer[..n]))
    else GotBody(read, asked.phase.request, answer[..n], |answer|)
  }

  lemma SizeCall(s: State, frame: Bytes, answer: Bytes, m: nat, n: nat) returns (p: Path)
    requires s.phase.Held? && Quiet(s) && WellFormed(answer) && n <= m <= |answer| && n <= SIZE_BYTES
    ensures IsCall(s, frame, p) && Last(p) == ReadOf(s, frame, answer, m, n)
  {
    p := AskedCall(s, frame, answer, m);
    assert Readable(Last(p), answer[..n]);
    assert [] + answer[..n] == answer[..n];
    Extend(s, frame, p, Read(answer[..n]));
    p := Extended(p, Read(answer[..n]));
  }

  lemma RestReadable(s: State, frame: Bytes, answer: Bytes, m: nat)
    requires Quiet(s) && SIZE_BYTES <= m <= |answer| && SIZE_BYTES < |answer|
    ensures
      var x := ReadOf(s, frame, answer, m, SIZE_BYTES);
      && Enabled(x, Read(answer[SIZE_BYTES..m]))
      && Next(x, Read(answer[SIZE_BYTES..m])) == ReadOf(s, frame, answer, m, m)
  {
    StreamSnoc(s.answers, answer);
    var x := ReadOf(s, frame, answer, m, SIZE_BYTES);
    assert Readable(x, answer[SIZE_BYTES..m]);
    assert answer[..SIZE_BYTES] + answer[SIZE_BYTES..m] == answer[..m];
  }

  lemma ReadCall(s: State, frame: Bytes, answer: Bytes, m: nat) returns (p: Path)
    requires s.phase.Held? && Quiet(s) && WellFormed(answer) && m <= |answer|
    ensures IsCall(s, frame, p) && Last(p) == ReadOf(s, frame, answer, m, m)
  {
    if m <= SIZE_BYTES {
      p := SizeCall(s, frame, answer, m, m);
    } else {
      p := SizeCall(s, frame, answer, m, SIZE_BYTES);
      RestReadable(s, frame, answer, m);
      Extend(s, frame, p, Read(answer[SIZE_BYTES..m]));
      p := Extended(p, Read(answer[SIZE_BYTES..m]));
    }
  }

  /** The steps of a call in which the socket takes `room` bytes and `m` bytes of the answer arrive. */
  lemma CallOf(s: State, frame: Bytes, room: nat, answer: Bytes, m: nat) returns (p: Path)
    requires s.phase.Held? && Quiet(s) && WellFormed(answer) && m <= |answer|
    ensures IsCall(s, frame, p) && Last(p).phase.Pooled?
    ensures |Last(p).written| == |s.written| + if |frame| <= room then 1 else 0
    ensures Last(p).answers == if |frame| <= room then s.answers + [answer] else s.answers
    ensures Last(p).consumed == s.consumed + if |frame| <= room then m else 0
  {
    if room < |frame| {
      Extend(s, frame, Begun(s, frame), Write(room));
      p := Extended(Begun(s, frame), Write(room));
    } else {
      p := ReadCall(s, frame, answer, m);
    }
    if !Last(p).phase.Pooled? {
      Extend(s, frame, p, Abort);
      p := Extended(p, Abort);
    }
  }

  /**
   The converse: from any reachable state in which a caller holds the connection, every way for `Serve` to end is
   reached. If the socket takes `room` bytes, and `m` bytes of the answer arrive, then there is a call
   that reads them and ends as `Connection.Serve` does.
   */
  lemma StepsEndAsServe(s: State, frame: Bytes, room: nat, answer: Bytes, m: nat) returns (p: Path)
    requires Reachable(s) && s.phase.Held? && WellFormed(answer) && m <= |answer|
    ensures IsCall(s, frame, p) && Last(p).phase.Pooled?
    ensures EndsAsServe(s, frame, Last(p), room)
    ensures ReadSince(s, Last(p)) == if |frame| <= room then answer[..m] else []
  {
    HeldQuiet(s);
    p := CallOf(s, frame, room, answer, m);
    CallOn(s, frame, p, |p.events|);
    assert EndsAsServe(s, frame, Last(p), room);
    if |frame| <= room {
      StreamSnoc(s.answers, answer);
    }
  }
}
