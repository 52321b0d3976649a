/**
 A pooled connection to a broker (nisshi-client/src/lib.rs, `Connection`, `ConnectionManager::recycle`
 and `BytesConnectionService::serve`). The client does not look at the correlation id of a response,
 so that which request a response answers rests on `in_flight` and the recycle check alone.
 */
module Client {
  import opened Prelude

  datatype ReadError = UnexpectedEof | InvalidFrameLength(size: i32)

  const SIZE_BYTES := 4

  /** The number that `bytes` spell, most significant byte first. */
  function BigEndian(bytes: Bytes): nat {
    if bytes == [] then 0
    else
      var last: int := bytes[|bytes| - 1];
      0x100 * BigEndian(bytes[..|bytes| - 1]) + last
  }

  /** `frame_length`: the size prefix and the payload that it declares. */
  function FrameLength(size: Bytes): (r: Result<nat, ReadError>)
    requires |size| == SIZE_BYTES
    ensures r.Ok? ==> r.value >= SIZE_BYTES
  {
    var declared := Wrap32(BigEndian(size));
    if declared < 0 then Err(InvalidFrameLength(declared)) else Ok(declared + SIZE_BYTES)
  }

  lemma BigEndianOfFour(size: Bytes)
    requires |size| == SIZE_BYTES
    ensures
      var b: seq<int> := size;
      BigEndian(size) == 0x100_0000 * b[0] + 0x1_0000 * b[1] + 0x100 * b[2] + b[3]
  {
    var b: seq<int> := size;
    assert size[..3][..2] == size[..2] && size[..2][..1] == size[..1] && size[..1][..0] == [];
    assert BigEndian(size[..1]) == b[0];
    assert BigEndian(size[..2]) == 0x100 * b[0] + b[1];
    assert BigEndian(size[..3]) == 0x1_0000 * b[0] + 0x100 * b[1] + b[2];
  }

  /** A size with its top bit set is negative, and an error. Any other is the number of bytes after the prefix. */
  lemma FrameLengthIs(size: Bytes)
    requires |size| == SIZE_BYTES
    ensures FrameLength(size).Err? <==> size[0] >= 0x80
    ensures FrameLength(size).Ok? ==> FrameLength(size).value == SIZE_BYTES + BigEndian(size)
    ensures FrameLength(size).Err? ==>
              FrameLength(size).error.InvalidFrameLength? && FrameLength(size).error.size == BigEndian(size) - TWO_32
  {
    BigEndianOfFour(size);
  }

  predicate WellFormed(frame: Bytes) {
    |frame| >= SIZE_BYTES && FrameLength(frame[..SIZE_BYTES]) == Ok(|frame|)
  }

  // ------------------------------------------------------------------ one request on a connection

  function Flatten(chunks: seq<Bytes>): Bytes {
    if chunks == [] then [] else chunks[0] + Flatten(chunks[1..])
  }

  /**
   A socket: `sent` is what it took, and `chunks` is what it delivers, chunk by chunk, before the
   deadline or the end of the stream.
   */
  class TcpStream {
    var sent: Bytes
    var chunks: seq<Bytes>

    constructor (chunks: seq<Bytes>)
      ensures this.chunks == chunks && sent == []
    {
      this.chunks, sent := chunks, [];
    }

    /** `write_all`, of which the socket takes no more than `room` bytes before the deadline. */
    method WriteAll(frame: Bytes, room: nat) returns (ok: bool)
      modifies this`sent
      ensures ok <==> |frame| <= room
      ensures sent == old(sent) + if ok then frame else frame[..room]
    {
      ok := |frame| <= room;
      sent := sent + if ok then frame else frame[..room];
    }

    /** One read of the socket into `buffer[at..]`. */
    method ReadSome(buffer: array<byte>, at: nat) returns (n: nat)
      requires at < buffer.Length && chunks != []
      modifies this`chunks, buffer
      ensures at + n <= buffer.Length && n <= |Flatten(old(chunks))|
      ensures buffer[..at + n] == old(buffer[..at]) + Flatten(old(chunks))[..n]
      ensures Flatten(chunks) == Flatten(old(chunks))[n..]
      ensures |chunks| < old(|chunks|) || (|chunks| == old(|chunks|) && n > 0)
    {
      var chunk := chunks[0];
      n := if |chunk| <= buffer.Length - at then |chunk| else buffer.Length - at;
      forall i | 0 <= i < n {
        buffer[at + i] := chunk[i];
      }
      assert buffer[..at + n] == old(buffer[..at]) + chunk[..n];
      chunks := if n == |chunk| then chunks[1..] else [chunk[n..]] + chunks[1..];
    }

    /** `read_exact` into `buffer[from..]`. */
    method ReadExact(buffer: array<byte>, from: nat) returns (ok: bool)
      requires from <= buffer.Length
      modifies this`chunks, buffer
      ensures ok <==> |Flatten(old(chunks))| >= buffer.Length - from
      ensures ok ==>
                && buffer[..] == old(buffer[..from]) + Flatten(old(chunks))[..buffer.Length - from]
                && Flatten(chunks) == Flatten(old(chunks))[buffer.Length - from..]
    {
      var at := from;
      ghost var all := Flatten(chunks);
      while at < buffer.Length && chunks != []
        invariant from <= at <= buffer.Length && at - from <= |all|
        invariant buffer[..at] == old(buffer[..from]) + all[..at - from]
        invariant Flatten(chunks) == all[at - from..]
        decreases |chunks|, buffer.Length - at
      {
        var n := ReadSome(buffer, at);
        NextSlice(old(buffer[..from]), all, at - from, n);
        at := at + n;
      }
      ok := at == buffer.Length;
      assert ok ==> buffer[..] == buffer[..at];
    }
  }

  lemma NextSlice(before: Bytes, all: Bytes, k: nat, n: nat)
    requires k + n <= |all|
    ensures before + all[..k] + all[k..][..n] == before + all[..k + n]
    ensures all[k..][n..] == all[k + n..]
  {
  }

  /** What reading one frame from `bytes` gives. */
  function ReadFrame(bytes: Bytes): (r: Result<Bytes, ReadError>)
    ensures r.Ok? ==> WellFormed(r.value) && r.value <= bytes
    ensures (exists n :: SIZE_BYTES <= n <= |bytes| && WellFormed(bytes[..n])) ==> r.Ok?
  {
    if |bytes| < SIZE_BYTES then Err(UnexpectedEof)
    else
      assert forall n :: SIZE_BYTES <= n <= |bytes| ==> bytes[..n][..SIZE_BYTES] == bytes[..SIZE_BYTES];
      match FrameLength(bytes[..SIZE_BYTES])
      case Err(e) => Err(e)
      case Ok(length) =>
        if |bytes| < length then Err(UnexpectedEof) else Ok(bytes[..length])
  }

  /**
   No frame is read exactly because the size is negative, which is reported with the size, or because the bytes
   end before the size prefix or before the frame.
   */
  lemma ReadFrameFails(bytes: Bytes)
    ensures ReadFrame(bytes).Err? && ReadFrame(bytes).error.InvalidFrameLength? <==> |bytes| >= SIZE_BYTES && bytes[0] >= 0x80
    ensures ReadFrame(bytes) == Err(UnexpectedEof) <==>
            || |bytes| < SIZE_BYTES
            || (bytes[0] < 0x80 && |bytes| < SIZE_BYTES + BigEndian(bytes[..SIZE_BYTES]))
    ensures ReadFrame(bytes).Err? && ReadFrame(bytes).error.InvalidFrameLength? ==>
              ReadFrame(bytes).error.size == BigEndian(bytes[..SIZE_BYTES]) - TWO_32
  {
    if |bytes| >= SIZE_BYTES {
      FrameLengthIs(bytes[..SIZE_BYTES]);
    }
  }

  /** What `serve` returns if the socket takes `room` bytes and delivers `bytes`. */
  function ServeResult(frame: Bytes, room: nat, bytes: Bytes): Result<Bytes, ReadError> {
    if |frame| <= room then ReadFrame(bytes) else Err(UnexpectedEof)
  }

  datatype Probe = WouldBlock | Closed | UnreadByte | ProbeError

  /** The pool may hand the connection out again. */
  predicate Reusable(inFlight: bool, idle: bool, probe: Probe) {
    !inFlight && !idle && probe == WouldBlock
  }

  class Connection {
    var correlationId: i32
    var inFlight: bool
    const stream: TcpStream

    constructor (stream: TcpStream)
      ensures this.stream == stream && correlationId == 0 && !inFlight
    {
      this.stream := stream;
      correlationId, inFlight := 0, false;
    }

    /** `BytesConnectionService::read`. */
    method Read() returns (r: Result<Bytes, ReadError>)
      modifies stream`chunks
      ensures r == ReadFrame(Flatten(old(stream.chunks)))
      ensures r.Ok? ==> Flatten(stream.chunks) == Flatten(old(stream.chunks))[|r.value|..]
    {
      ghost var all := Flatten(stream.chunks);
      var size := new byte[SIZE_BYTES];
      var ok := stream.ReadExact(size, 0);
      if !ok {
        return Err(UnexpectedEof);
      }
      assert size[..] == all[..SIZE_BYTES];
      var length := FrameLength(size[..]);
      if length.Err? {
        return Err(length.error);
      }
      var buffer := new byte[length.value];
      forall i | 0 <= i < SIZE_BYTES {
        buffer[i] := size[i];
      }
      assert buffer[..SIZE_BYTES] == all[..SIZE_BYTES];
      ok := stream.ReadExact(buffer, SIZE_BYTES);
      if !ok {
        return Err(UnexpectedEof);
      }
      NextSlice([], all, SIZE_BYTES, length.value - SIZE_BYTES);
      assert buffer[..] == all[..length.value];
      r := Ok(buffer[..]);
    }

    /** `BytesConnectionService::serve`. The write ends early on an error or at the deadline. */
    method Serve(frame: Bytes, room: nat) returns (r: Result<Bytes, ReadError>)
      modifies this, stream
      ensures inFlight <==> r.Err?
      ensures correlationId == if |frame| <= room then Wrap32(old(correlationId) + 1) else old(correlationId)
      ensures r.Ok? ==> stream.sent == old(stream.sent) + frame
      ensures r == ServeResult(frame, room, Flatten(old(stream.chunks)))
      ensures r.Ok? ==> Flatten(stream.chunks) == Flatten(old(stream.chunks))[|r.value|..]
    {
      inFlight := true;
      var written := stream.WriteAll(frame, room);
      if !written {
        return Err(UnexpectedEof);
      }
      correlationId := Wrap32(correlationId + 1);
      r := Read();
      if r.Ok? {
        inFlight := false;
      }
    }

    /** `reusable`. `idle` is whether the connection was unused for too long, `probe` is what reading one byte gives. */
    method IsReusable(idle: bool, probe: Probe) returns (ok: bool)
      ensures ok <==> Reusable(inFlight, idle, probe)
      ensures inFlight || idle ==> !ok
      ensures probe == Closed || probe == UnreadByte || probe == ProbeError ==> !ok
      ensures !inFlight && !idle && probe == WouldBlock ==> ok
    {
      if inFlight {
        return false;
      }
      if idle {
        return false;
      }
      match probe
      case WouldBlock => ok := true;
      case _ => ok := false;
    }
  }
}
