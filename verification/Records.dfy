/**
 Record batches as the proxy decodes, merges and encodes them
 (nisshi-sans-io/src/record/inflated.rs and deflated.rs).

 The bytes of a record are not modelled. `RecordCodec` holds the three byte-level functions
 the batch code calls, and `Lawful` says what is assumed of them.
 */
module Records {
  import opened Prelude

  datatype Header = Header(key: Option<Bytes>, value: Option<Bytes>)

  datatype Record = Record(
    attributes: byte,
    timestampDelta: i64,
    offsetDelta: i32,
    key: Option<Bytes>,
    value: Option<Bytes>,
    headers: seq<Header>)

  datatype BatchHeader = BatchHeader(
    baseOffset: i64,
    batchLength: i32,
    partitionLeaderEpoch: i32,
    magic: int,
    crc: u32,
    attributes: Attributes,
    lastOffsetDelta: i32,
    baseTimestamp: i64,
    maxTimestamp: i64,
    producerId: i64,
    producerEpoch: i16,
    baseSequence: i32)

  /** A batch as a client sends it: the records are still encoded, perhaps compressed. */
  datatype Deflated = Deflated(header: BatchHeader, recordCount: u32, recordData: Bytes)

  /** A decoded batch. */
  datatype Inflated = Inflated(header: BatchHeader, records: seq<Record>)

  datatype CodecError =
    | MessageMaxSizeExceeded
    | OffsetDeltaOverflow
    | UnknownCompressionType
    | Overflow
    | Other(code: int)

  datatype Compression = Uncompressed | Gzip | Snappy | Lz4 | Zstd

  datatype TimestampType = CreateTime | LogAppendTime

  const MAX_DECODED_BATCH_BYTES: nat := 100 * 1024 * 1024
  const MIN_ENCODED_RECORD_SIZE: nat := 7
  const FIXED_BATCH_LENGTH: nat := 49

  /**
   The sixteen attribute bits by name: bits 0-2, 3, 4, 5 and 6, and the bits above, which have no
   meaning.
   */
  datatype Attributes = Attributes(
    compression: bits3,
    logAppendTime: bool,
    transactional: bool,
    control: bool,
    deleteHorizon: bool,
    unused: bits9)

  type bits3 = x: int | 0 <= x < 8
  type bits9 = x: int | 0 <= x < 512

  function CompressionOf(attributes: Attributes): Result<Compression, CodecError> {
    match attributes.compression
    case 0 => Ok(Uncompressed)
    case 1 => Ok(Gzip)
    case 2 => Ok(Snappy)
    case 3 => Ok(Lz4)
    case 4 => Ok(Zstd)
    case _ => Err(UnknownCompressionType)
  }

  function TimestampTypeOf(attributes: Attributes): TimestampType {
    if attributes.logAppendTime then LogAppendTime else CreateTime
  }

  /** The attributes of a decoded batch: what `BatchAttribute` keeps, with the compression cleared. */
  function DecodedAttributes(attributes: Attributes): Attributes {
    attributes.(compression := 0, unused := 0)
  }

  // ------------------------------------------------------------------ the byte level

  /** What the checksum of a batch covers. */
  datatype CrcData = CrcData(
    attributes: Attributes,
    lastOffsetDelta: i32,
    baseTimestamp: i64,
    maxTimestamp: i64,
    producerId: i64,
    producerEpoch: i16,
    baseSequence: i32,
    recordCount: u32,
    recordData: Bytes)

  /**
   The functions below the batch: read `count` records from bytes, write records to bytes, and
   the checksum. `recordSize` and `headerSize` are the sizes of the two decoded structures.
   */
  datatype RecordCodec = RecordCodec(
    read: (Compression, nat, Bytes) -> Result<seq<Record>, CodecError>,
    write: (Compression, seq<Record>) -> Result<Bytes, CodecError>,
    crc: CrcData -> u32,
    recordSize: nat,
    headerSize: nat)
  {
    /** What decoding `records` charges to the decode budget of an uncompressed batch. */
    ghost function DecodedSize(records: seq<Record>): nat {
      if records == [] then 0
      else DecodedSize(records[..|records| - 1])
           + recordSize + |records[|records| - 1].headers| * headerSize
    }

    /**
     What is assumed of the byte level: a read gives exactly `count` records; a written record
     takes at least `MIN_ENCODED_RECORD_SIZE` bytes; and what was written uncompressed reads
     back as written, unless it is over the decode budget.
     */
    ghost predicate Lawful() {
      && recordSize >= 1
      && (forall c, n, d :: read(c, n, d).Ok? ==> |read(c, n, d).value| == n)
      && (forall rs :: write(Uncompressed, rs).Ok? ==>
            && |write(Uncompressed, rs).value| >= MIN_ENCODED_RECORD_SIZE * |rs|
            && read(Uncompressed, |rs|, write(Uncompressed, rs).value)
               == if DecodedSize(rs) > MAX_DECODED_BATCH_BYTES then Err(MessageMaxSizeExceeded) else Ok(rs))
    }

    lemma {:induction false} DecodedSizeAtLeastCount(records: seq<Record>)
      ensures DecodedSize(records) >= |records| * recordSize
    {
      if records != [] {
        var n := |records| - 1;
        DecodedSizeAtLeastCount(records[..n]);
        assert |records| * recordSize == n * recordSize + recordSize;
      }
    }

    lemma {:induction false} DecodedSizeConcat(a: seq<Record>, b: seq<Record>)
      ensures DecodedSize(a + b) == DecodedSize(a) + DecodedSize(b)
    {
      if b == [] {
        assert a + b == a;
      } else {
        var n := |b| - 1;
        assert (a + b)[..|a + b| - 1] == a + b[..n];
        DecodedSizeConcat(a, b[..n]);
      }
    }
  }

  /** `inflated::Batch::try_from`: the checks before a byte is read, then the records. */
  function Inflate(codec: RecordCodec, d: Deflated): Result<Inflated, CodecError> {
    match CompressionOf(d.header.attributes)
    case Err(e) => Err(e)
    case Ok(compression) =>
      if compression.Uncompressed? && d.recordCount > |d.recordData| / MIN_ENCODED_RECORD_SIZE then
        Err(Overflow)
      else if d.recordCount * codec.recordSize > MAX_DECODED_BATCH_BYTES then
        Err(MessageMaxSizeExceeded)
      else
        match codec.read(compression, d.recordCount, d.recordData)
        case Err(e) => Err(e)
        case Ok(records) =>
          Ok(Inflated(d.header.(attributes := DecodedAttributes(d.header.attributes)), records))
  }

  function CrcDataOf(h: BatchHeader, recordCount: u32, recordData: Bytes): CrcData {
    CrcData(h.attributes, h.lastOffsetDelta, h.baseTimestamp, h.maxTimestamp, h.producerId, h.producerEpoch, h.baseSequence,
            recordCount, recordData)
  }

  /** `deflated::Batch::try_from`: the length and checksum are computed afresh. */
  function Deflate(codec: RecordCodec, b: Inflated): Result<Deflated, CodecError> {
    if |b.records| >= TWO_32 then Err(Overflow)
    else
      match CompressionOf(b.header.attributes)
      case Err(e) => Err(e)
      case Ok(compression) =>
        match codec.write(compression, b.records)
        case Err(e) => Err(e)
        case Ok(data) =>
          if FIXED_BATCH_LENGTH + |data| > I32_MAX then Err(Overflow)
          else
            Ok(Deflated(
                 b.header.(batchLength := FIXED_BATCH_LENGTH + |data|,
                           crc := codec.crc(CrcDataOf(b.header, |b.records|, data))),
                 |b.records|, data))
  }

  /** The compressions by their attribute bits. */
  const COMPRESSIONS := [Uncompressed, Gzip, Snappy, Lz4, Zstd]

  /**
   A batch decodes exactly if its compression is known, its record count is plausible and within the decode
   budget, and its bytes read. It then has the records that were read, and its header but for the
   attribute bits that are of no more use.
   */
  lemma InflateIff(codec: RecordCodec, d: Deflated)
    ensures Inflate(codec, d).Ok? <==>
            && d.header.attributes.compression < |COMPRESSIONS|
            && (d.header.attributes.compression == 0 ==> d.recordCount * MIN_ENCODED_RECORD_SIZE <= |d.recordData|)
            && d.recordCount * codec.recordSize <= MAX_DECODED_BATCH_BYTES
            && codec.read(COMPRESSIONS[d.header.attributes.compression], d.recordCount, d.recordData).Ok?
    ensures Inflate(codec, d).Ok? ==>
              var Inflated(header, records) := Inflate(codec, d).value;
              var before, after := d.header.attributes, header.attributes;
              && Ok(records) == codec.read(COMPRESSIONS[before.compression], d.recordCount, d.recordData)
              && header == d.header.(attributes := after)
              && after == Attributes(0, before.logAppendTime, before.transactional, before.control, before.deleteHorizon, 0)
  {
    assert d.recordCount * MIN_ENCODED_RECORD_SIZE <= |d.recordData| <==> d.recordCount <= |d.recordData| / MIN_ENCODED_RECORD_SIZE;
  }

  /** The length and the checksum of a batch are those of its own header and bytes. */
  ghost predicate Sealed(codec: RecordCodec, d: Deflated) {
    && d.header.batchLength == FIXED_BATCH_LENGTH + |d.recordData|
    && var h := d.header;
       h.crc == codec.crc(CrcData(h.attributes, h.lastOffsetDelta, h.baseTimestamp, h.maxTimestamp, h.producerId,
                                  h.producerEpoch, h.baseSequence, d.recordCount, d.recordData))
  }

  /**
   A batch encodes exactly if its compression is known, its records write, and the counts fit. It is then
   sealed, with the records that were written, and the rest of its header is kept.
   */
  lemma DeflateIff(codec: RecordCodec, b: Inflated)
    ensures Deflate(codec, b).Ok? <==>
            && |b.records| < TWO_32
            && b.header.attributes.compression < |COMPRESSIONS|
            && codec.write(COMPRESSIONS[b.header.attributes.compression], b.records).Ok?
            && FIXED_BATCH_LENGTH + |codec.write(COMPRESSIONS[b.header.attributes.compression], b.records).value| <= I32_MAX
    ensures Deflate(codec, b).Ok? ==>
              var d := Deflate(codec, b).value;
              && Sealed(codec, d)
              && d.recordCount == |b.records|
              && Ok(d.recordData) == codec.write(COMPRESSIONS[b.header.attributes.compression], b.records)
              && d.header == b.header.(batchLength := d.header.batchLength, crc := d.header.crc)
  {
  }

  /**
   An encoded batch decodes to the records it was encoded from exactly when they are within the
   decode budget, and is over the size limit otherwise. Only the length, the checksum and
   attribute bits without a meaning can differ.
   */
  lemma InflateDeflate(codec: RecordCodec, b: Inflated)
    requires codec.Lawful()
    requires CompressionOf(b.header.attributes) == Ok(Uncompressed)
    requires Deflate(codec, b).Ok?
    ensures
      var d := Deflate(codec, b).value;
      Inflate(codec, d) ==
        if codec.DecodedSize(b.records) > MAX_DECODED_BATCH_BYTES then Err(MessageMaxSizeExceeded)
        else Ok(Inflated(d.header.(attributes := DecodedAttributes(b.header.attributes)), b.records))
  {
    var d := Deflate(codec, b).value;
    codec.DecodedSizeAtLeastCount(b.records);
    assert |d.recordData| >= MIN_ENCODED_RECORD_SIZE * |b.records|;
    assert |b.records| <= |d.recordData| / MIN_ENCODED_RECORD_SIZE;
  }

  // ------------------------------------------------------------------ what a consumer reads

  /** A record as a consumer of the log sees it: everything but where it sits in its batch. */
  datatype Consumed = Consumed(
    timestamp: i64,
    attributes: byte,
    key: Option<Bytes>,
    value: Option<Bytes>,
    headers: seq<Header>)

  /** The timestamp a consumer reads for a record of a batch with header `h`. */
  function RecordTimestamp(h: BatchHeader, r: Record): i64 {
    match TimestampTypeOf(h.attributes)
    case LogAppendTime => h.maxTimestamp
    case CreateTime => Wrap64(h.baseTimestamp + r.timestampDelta)
  }

  function Consume(h: BatchHeader, r: Record): Consumed {
    Consumed(RecordTimestamp(h, r), r.attributes, r.key, r.value, r.headers)
  }

  /** The meaning of a decoded batch: its records as consumed, in offset order. */
  function View(b: Inflated): (v: seq<Consumed>)
    ensures |v| == |b.records|
  {
    seq(|b.records|, i requires 0 <= i < |b.records| => Consume(b.header, b.records[i]))
  }

  /** The offset deltas are 0, 1, 2, ... */
  ghost predicate Contiguous(b: Inflated) {
    forall i :: 0 <= i < |b.records| ==> b.records[i].offsetDelta == i
  }

  lemma SameView(a: Inflated, b: Inflated)
    requires a.records == b.records && a.header.baseTimestamp == b.header.baseTimestamp
    requires a.header.maxTimestamp == b.header.maxTimestamp
    requires a.header.attributes.logAppendTime == b.header.attributes.logAppendTime
    ensures View(a) == View(b)
  {
    assert forall i :: 0 <= i < |b.records| ==> Consume(a.header, a.records[i]) == Consume(b.header, b.records[i]);
  }

  /** Encoding keeps the offset range and the record count, and a batch that decodes reads as before. */
  lemma InflateDeflateView(codec: RecordCodec, b: Inflated)
    requires codec.Lawful()
    requires CompressionOf(b.header.attributes) == Ok(Uncompressed)
    requires Deflate(codec, b).Ok?
    ensures
      var d := Deflate(codec, b).value;
      && d.header.lastOffsetDelta == b.header.lastOffsetDelta
      && d.recordCount == |b.records|
      && (Inflate(codec, d).Ok? <==> codec.DecodedSize(b.records) <= MAX_DECODED_BATCH_BYTES)
      && (Inflate(codec, d).Ok? ==>
            && View(Inflate(codec, d).value) == View(b)
            && (Contiguous(b) ==> Contiguous(Inflate(codec, d).value)))
      && (Inflate(codec, d).Err? ==> Inflate(codec, d).error == MessageMaxSizeExceeded)
  {
    InflateDeflate(codec, b);
    var d := Deflate(codec, b).value;
    if Inflate(codec, d).Ok? {
      var read := Inflate(codec, d).value;
      SameView(read, b);
    }
  }

  // ------------------------------------------------------------------ append_rebased

  datatype Rebase = Rebase(firstOffsetDelta: i32, lastOffsetDelta: i32, timestampShift: i64)

  /** `Rebase::onto`: how the records of `other` move onto the end of `sink`. */
  function Onto(sink: BatchHeader, other: BatchHeader): Result<Rebase, CodecError> {
    match CheckedAdd32(sink.lastOffsetDelta, 1)
    case None => Err(OffsetDeltaOverflow)
    case Some(first) =>
      match CheckedAdd32(other.lastOffsetDelta, 1)
      case None => Err(OffsetDeltaOverflow)
      case Some(appended) =>
        match CheckedAdd32(sink.lastOffsetDelta, appended)
        case None => Err(OffsetDeltaOverflow)
        case Some(last) => Ok(Rebase(first, last, Wrap64(other.baseTimestamp - sink.baseTimestamp)))
  }

  /** `Rebase::deltas` over a sequence of records, which stops at the first that overflows. */
  function RebaseRecords(rebase: Rebase, records: seq<Record>): Result<seq<Record>, CodecError> {
    if records == [] then Ok([])
    else
      var n := |records| - 1;
      match RebaseRecords(rebase, records[..n])
      case Err(e) => Err(e)
      case Ok(before) =>
        match CheckedAdd32(records[n].offsetDelta, rebase.firstOffsetDelta)
        case None => Err(OffsetDeltaOverflow)
        case Some(offsetDelta) =>
          Ok(before + [records[n].(offsetDelta := offsetDelta,
                                   timestampDelta := Wrap64(records[n].timestampDelta + rebase.timestampShift))])
  }

  /** `append_rebased`: the batch `sink` becomes, or the error that leaves it as it is. */
  function AppendRebased(sink: Inflated, other: Inflated): Result<Inflated, CodecError> {
    match Onto(sink.header, other.header)
    case Err(e) => Err(e)
    case Ok(rebase) =>
      match RebaseRecords(rebase, other.records)
      case Err(e) => Err(e)
      case Ok(rebased) =>
        Ok(Inflated(
             sink.header.(lastOffsetDelta := rebase.lastOffsetDelta,
                          maxTimestamp := if sink.header.maxTimestamp >= other.header.maxTimestamp
                                          then sink.header.maxTimestamp else other.header.maxTimestamp),
             sink.records + rebased))
  }

  /** Rebasing succeeds exactly when no offset delta overflows, and then moves each record in step. */
  lemma {:induction false} RebaseRecordsAt(rebase: Rebase, records: seq<Record>)
    ensures RebaseRecords(rebase, records).Ok? <==>
            forall i :: 0 <= i < |records| ==>
              I32_MIN <= records[i].offsetDelta + rebase.firstOffsetDelta <= I32_MAX
    ensures RebaseRecords(rebase, records).Err? ==> RebaseRecords(rebase, records).error == OffsetDeltaOverflow
    ensures RebaseRecords(rebase, records).Ok? ==>
              var rebased := RebaseRecords(rebase, records).value;
              && |rebased| == |records|
              && (forall i :: 0 <= i < |records| ==>
                    rebased[i] == records[i].(
                      offsetDelta := records[i].offsetDelta + rebase.firstOffsetDelta,
                      timestampDelta := Wrap64(records[i].timestampDelta + rebase.timestampShift)))
  {
    if records != [] {
      var n := |records| - 1;
      RebaseRecordsAt(rebase, records[..n]);
      assert forall i :: 0 <= i < n ==> records[..n][i] == records[i];
    }
  }

  /** A rebased record has the timestamp it had: the wrapping sums agree whatever the two bases. */
  lemma RebasedTimestamp(sinkBase: i64, otherBase: i64, delta: i64)
    ensures Wrap64(sinkBase + Wrap64(delta + Wrap64(otherBase - sinkBase))) == Wrap64(otherBase + delta)
  {
    var k := WrapMoves(otherBase - sinkBase);
    var shift := Wrap64(otherBase - sinkBase);
    var l := WrapMoves(delta + shift);
    WrapCongruent(sinkBase + Wrap64(delta + shift), otherBase + delta, k + l);
  }

  /**
   Appending fails exactly when the merged last offset delta, or an offset delta of an appended
   record, leaves the `i32` range.
   */
  lemma AppendRebasedFails(sink: Inflated, other: Inflated)
    ensures AppendRebased(sink, other).Ok? <==>
            && sink.header.lastOffsetDelta < I32_MAX
            && other.header.lastOffsetDelta < I32_MAX
            && I32_MIN <= sink.header.lastOffsetDelta + other.header.lastOffsetDelta + 1 <= I32_MAX
            && (forall i :: 0 <= i < |other.records| ==>
                  I32_MIN <= other.records[i].offsetDelta + sink.header.lastOffsetDelta + 1 <= I32_MAX)
    ensures AppendRebased(sink, other).Err? ==> AppendRebased(sink, other).error == OffsetDeltaOverflow
  {
    match Onto(sink.header, other.header)
    case Err(_) =>
    case Ok(rebase) => RebaseRecordsAt(rebase, other.records);
  }

  /** An append adds up the offset ranges and keeps the sink's own header. */
  lemma AppendRebasedHeader(sink: Inflated, other: Inflated)
    requires AppendRebased(sink, other).Ok?
    ensures
      var m := AppendRebased(sink, other).value;
      && m.header.lastOffsetDelta + 1
         == (sink.header.lastOffsetDelta + 1) + (other.header.lastOffsetDelta + 1)
      && |m.records| == |sink.records| + |other.records|
      && m.header == sink.header.(lastOffsetDelta := m.header.lastOffsetDelta, maxTimestamp := m.header.maxTimestamp)
      && m.header.maxTimestamp >= sink.header.maxTimestamp
      && m.header.maxTimestamp >= other.header.maxTimestamp
      && m.header.maxTimestamp in {sink.header.maxTimestamp, other.header.maxTimestamp}
  {
    RebaseRecordsAt(Onto(sink.header, other.header).value, other.records);
  }

  /** A rebased record reads as before. */
  lemma RebasedConsume(sink: BatchHeader, other: BatchHeader, m: BatchHeader, r: Record, rebased: Record)
    requires sink.attributes == m.attributes && sink.baseTimestamp == m.baseTimestamp
    requires TimestampTypeOf(sink.attributes) == CreateTime && TimestampTypeOf(other.attributes) == CreateTime
    requires rebased == r.(
                 offsetDelta := rebased.offsetDelta,
                 timestampDelta := Wrap64(r.timestampDelta + Wrap64(other.baseTimestamp - sink.baseTimestamp)))
    ensures Consume(m, rebased) == Consume(other, r)
  {
    RebasedTimestamp(sink.baseTimestamp, other.baseTimestamp, r.timestampDelta);
  }

  /**
   The meaning of an append: a consumer reads the sink's records and then the appended ones,
   each as it was.
   */
  lemma AppendRebasedView(sink: Inflated, other: Inflated)
    requires AppendRebased(sink, other).Ok?
    requires TimestampTypeOf(sink.header.attributes) == CreateTime
    requires TimestampTypeOf(other.header.attributes) == CreateTime
    ensures View(AppendRebased(sink, other).value) == View(sink) + View(other)
  {
    var m := AppendRebased(sink, other).value;
    var rebase := Onto(sink.header, other.header).value;
    RebaseRecordsAt(rebase, other.records);
    var n := |sink.records|;
    forall i | 0 <= i < |m.records|
      ensures Consume(m.header, m.records[i]) == if i < n then Consume(sink.header, sink.records[i])
                                                 else Consume(other.header, other.records[i - n])
    {
      if i >= n {
        RebasedConsume(sink.header, other.header, m.header, other.records[i - n], m.records[i]);
      }
    }
  }

  /** Contiguous offsets stay contiguous across an append. */
  lemma AppendRebasedContiguous(sink: Inflated, other: Inflated)
    requires AppendRebased(sink, other).Ok?
    requires Contiguous(sink) && Contiguous(other)
    requires sink.header.lastOffsetDelta + 1 == |sink.records|
    ensures Contiguous(AppendRebased(sink, other).value)
  {
    RebaseRecordsAt(Onto(sink.header, other.header).value, other.records);
  }

  /** Rebasing does not change what decoding the records costs. */
  lemma {:induction false} RebasedDecodedSize(codec: RecordCodec, rebase: Rebase, records: seq<Record>)
    requires RebaseRecords(rebase, records).Ok?
    ensures codec.DecodedSize(RebaseRecords(rebase, records).value) == codec.DecodedSize(records)
  {
    if records != [] {
      var n := |records| - 1;
      RebasedDecodedSize(codec, rebase, records[..n]);
      var rebased := RebaseRecords(rebase, records).value;
      assert rebased[..|rebased| - 1] == RebaseRecords(rebase, records[..n]).value;
    }
  }

  lemma AppendRebasedDecodedSize(codec: RecordCodec, sink: Inflated, other: Inflated)
    requires AppendRebased(sink, other).Ok?
    ensures codec.DecodedSize(AppendRebased(sink, other).value.records)
            == codec.DecodedSize(sink.records) + codec.DecodedSize(other.records)
  {
    var rebase := Onto(sink.header, other.header).value;
    RebasedDecodedSize(codec, rebase, other.records);
    codec.DecodedSizeConcat(sink.records, RebaseRecords(rebase, other.records).value);
  }
}
