/**
 Batches that show the limits of merging (nisshi-proxy/src/produce.rs:888-995). Two of them each decode, nobody
 is rejected, and the merged batch does not decode: each has one record with a million headers, so
 that it decodes to 64 MB, and both together are over the limit of 100 MiB. Another passes the check
 of its offset range though the range does not match.
 */
module CombinerWitness {
  import opened Prelude
  import opened Records
  import opened Combiner
  import opened CombinerProofs
  import opened CombinerReasons

  const RECORD_SIZE: nat := 136
  const HEADER_SIZE: nat := 64
  const HEADERS: nat := 1_000_000
  const ENCODED_BYTES: nat := 2_000_010

  function Wide(offsetDelta: i32): Record {
    Record(0, 0, offsetDelta, None, None, seq(HEADERS, i => Header(None, None)))
  }

  function Encoded(count: nat): Bytes {
    seq(count * ENCODED_BYTES, i => 0)
  }

  /** Reads and writes just the records of the example, uncompressed. */
  function ExampleCodec(): RecordCodec {
    RecordCodec(
      (c: Compression, n: nat, data: Bytes) =>
        if n == 1 && data == Encoded(1) then Ok([Wide(0)]) else Err(MessageMaxSizeExceeded),
      (c: Compression, records: seq<Record>) =>
        if records == [Wide(0)] then Ok(Encoded(1))
        else if records == [Wide(0), Wide(1)] then Ok(Encoded(2))
        else Err(Overflow),
      (data: CrcData) => 0,
      RECORD_SIZE,
      HEADER_SIZE)
  }

  function ExampleBatch(): Deflated {
    Deflated(
      BatchHeader(0, FIXED_BATCH_LENGTH + ENCODED_BYTES, -1, 2, 0, Attributes(0, false, false, false, false, 0),
                  0, 0, 0, -1, -1, -1),
      1,
      Encoded(1))
  }

  function ExampleBatches(): seq<OwnedBatch> {
    [OwnedBatch(0, ExampleBatch()), OwnedBatch(1, ExampleBatch())]
  }

  lemma ExampleSizes()
    ensures ExampleCodec().DecodedSize([Wide(0)]) == RECORD_SIZE + HEADERS * HEADER_SIZE
    ensures ExampleCodec().DecodedSize([Wide(0), Wide(1)]) == 2 * (RECORD_SIZE + HEADERS * HEADER_SIZE)
  {
    var codec, both := ExampleCodec(), [Wide(0), Wide(1)];
    assert [Wide(0)][..0] == [] && both[..1] == [Wide(0)];
    assert codec.DecodedSize([Wide(0)][..0]) == 0;
  }

  lemma ExampleLawful()
    ensures ExampleCodec().Lawful()
  {
    ExampleSizes();
    assert |Encoded(1)| == ENCODED_BYTES && |Encoded(2)| == 2 * ENCODED_BYTES;
    assert Encoded(1) != Encoded(2);
  }

  lemma ExampleDecodes()
    ensures Inflate(ExampleCodec(), ExampleBatch()) == Ok(Inflated(ExampleBatch().header, [Wide(0)]))
    ensures Decode(ExampleCodec(), ExampleBatch()) == Ok(Inflated(ExampleBatch().header, [Wide(0)]))
  {
    assert |Encoded(1)| == ENCODED_BYTES;
  }

  lemma ExampleAppends()
    ensures
      var decoded := Inflated(ExampleBatch().header, [Wide(0)]);
      AppendRebased(decoded, decoded) == Ok(Inflated(decoded.header.(lastOffsetDelta := 1), [Wide(0), Wide(1)]))
  {
    var records := [Wide(0)];
    var decoded := Inflated(ExampleBatch().header, records);
    var rebase := Onto(decoded.header, decoded.header).value;
    assert rebase == Rebase(1, 1, 0);
    assert records[..|records| - 1] == [];
    assert RebaseRecords(rebase, []).value == [];
    assert records[0].(offsetDelta := 1, timestampDelta := 0) == Wide(1);
    assert RebaseRecords(rebase, records).value == [Wide(1)];
    assert records + [Wide(1)] == [Wide(0), Wide(1)];
  }

  lemma ExampleCounts(o: Uuid)
    ensures Count(ExampleBatches(), o) <= 1
  {
    var batches := ExampleBatches();
    assert batches[..1] == [batches[0]] && batches[..1][..0] == [];
    assert Count(batches[..1][..0], o) == 0;
    assert Count(batches, o) == Count(batches[..1], o) + if batches[1].owner == o then 1 else 0;
  }

  lemma ExampleDecodesAll()
    ensures
      var decoded := Inflated(ExampleBatch().header, [Wide(0)]);
      DecodeAll(ExampleCodec(), ExampleBatches(), Repeated(ExampleBatches()))
      == DecodePass([OwnerBatch(0, ExampleBatch(), decoded), OwnerBatch(1, ExampleBatch(), decoded)], map[])
  {
    var codec, batches := ExampleCodec(), ExampleBatches();
    forall o ensures Count(batches, o) <= 1 {
      ExampleCounts(o);
    }
    assert Repeated(batches) == map[];
    ExampleDecodes();
    assert batches[..1] == [batches[0]] && batches[..1][..0] == [];
    assert DecodeAll(codec, batches[..1][..0], map[]) == DecodePass([], map[]);
    var decoded := Inflated(ExampleBatch().header, [Wide(0)]);
    assert DecodeAll(codec, batches[..1], map[]) == DecodePass([OwnerBatch(0, ExampleBatch(), decoded)], map[]);
  }

  lemma ExampleMerges()
    ensures
      var decoded := Inflated(ExampleBatch().header, [Wide(0)]);
      var owners := [OwnerBatch(0, ExampleBatch(), decoded), OwnerBatch(1, ExampleBatch(), decoded)];
      Merging(ExampleCodec(), owners, map[]).rejected == map[]
  {
    var decoded := Inflated(ExampleBatch().header, [Wide(0)]);
    var owners := [OwnerBatch(0, ExampleBatch(), decoded), OwnerBatch(1, ExampleBatch(), decoded)];
    assert owners[..1] == [owners[0]];
    ExampleAppends();
    var sink := Inflated(decoded.header.(lastOffsetDelta := 1), [Wide(0), Wide(1)]);
    assert MergeAll(owners, map[]) == MergePass(sink, [0, 1], map[]);
    assert |Encoded(2)| == 2 * ENCODED_BYTES;
    assert Deflate(ExampleCodec(), sink).Ok?;
  }

  /** A codec and two batches of two owners that each decode, and that merge into a batch that does not. */
  lemma SomeMergedTooLarge() returns (codec: RecordCodec, batches: seq<OwnedBatch>)
    ensures codec.Lawful() && !OneOwner(batches)
    ensures forall i :: 0 <= i < |batches| ==> Decode(codec, batches[i].batch).Ok?
    ensures Combining(codec, batches).rejected == map[] && |Combining(codec, batches).forwarded| == 1
    ensures Inflate(codec, Combining(codec, batches).forwarded[0]) == Err(MessageMaxSizeExceeded)
  {
    codec, batches := ExampleCodec(), ExampleBatches();
    ExampleLawful();
    ExampleDecodes();
    assert batches[0].owner != batches[1].owner;
    ExampleDecodesAll();
    ExampleMerges();
    ExampleTotal();
    MergedTooLarge(codec, batches, 0);
    CombinePartitionsOwners(codec, batches);
  }

  lemma ExampleTotal()
    ensures DecodedSizeAll(ExampleCodec(), ExampleBatches()) > MAX_DECODED_BATCH_BYTES
  {
    var codec, batches := ExampleCodec(), ExampleBatches();
    ExampleDecodes();
    ExampleSizes();
    assert batches[..1] == [batches[0]] && batches[..1][..0] == [];
    assert DecodedSizeAll(codec, batches[..1][..0]) == 0;
    assert DecodedSizeAll(codec, batches[..1]) == RECORD_SIZE + HEADERS * HEADER_SIZE;
  }

  // ------------------------------------------------------------------ a range that is not checked

  function Oversized(): Deflated {
    ExampleBatch().(header := ExampleBatch().header.(lastOffsetDelta := I32_MAX), recordCount := I32_MAX + 2)
  }

  /** A batch whose offset range does not match its record count, and whose owner is not rejected for that. */
  lemma SomeRangeUnchecked() returns (codec: RecordCodec, batches: seq<OwnedBatch>)
    ensures codec.Lawful() && |batches| == 2 && batches[0].owner != batches[1].owner
    ensures !RangeMatches(batches[0].batch)
    ensures
      var rejected, owner := Combining(codec, batches).rejected, batches[0].owner;
      owner in rejected && !rejected[owner].OffsetRange?
  {
    codec, batches := ExampleCodec(), [OwnedBatch(0, Oversized()), OwnedBatch(1, ExampleBatch())];
    ExampleLawful();
    MismatchRejected(codec, batches, 0, 1);
  }
}
