/**
 Merging the batches of one partition (nisshi-proxy/src/produce.rs, `combine`, `decode`, `merge`).

 `Combine` and `Merge` are the loops of the source, proved equal to `Combining` and `Merging`.
 What the proxy promises its clients is proved of those functions in `CombinerProofs`.
 */
module Combiner {
  import opened Prelude
  import opened Records

  type Uuid = nat

  /** One batch in the queue for a partition. Its owner is the request it came with. */
  datatype OwnedBatch = OwnedBatch(owner: Uuid, batch: Deflated)

  /** An owner whose single batch passed `Decode`, in both forms. */
  datatype OwnerBatch = OwnerBatch(owner: Uuid, asSent: Deflated, decoded: Inflated)

  /** The checks that can exclude an owner from a merge, in the order in which they are made. */
  datatype BatchRejection =
    | MultipleBatches(count: nat)
    | OffsetRange(lastOffsetDelta: i32, recordCount: u32)
    | Undecodable(error: CodecError)
    | Unappendable(error: CodecError)
    | Unencodable(error: CodecError)

  datatype Combined = Combined(forwarded: seq<Deflated>, rejected: map<Uuid, BatchRejection>)

  const UNKNOWN_SERVER_ERROR: i16 := -1
  const MESSAGE_TOO_LARGE: i16 := 10
  const INVALID_RECORD: i16 := 87

  /** `BatchRejection::error_code`. */
  function ErrorCode(r: BatchRejection): i16 {
    match r
    case Undecodable(MessageMaxSizeExceeded) => MESSAGE_TOO_LARGE
    case Unencodable(_) => UNKNOWN_SERVER_ERROR
    case _ => INVALID_RECORD
  }

  /** `decode`: the offset range check that a Kafka broker makes, then the records. */
  function Decode(codec: RecordCodec, batch: Deflated): Result<Inflated, BatchRejection> {
    if ToI32(batch.recordCount) != CheckedAdd32(batch.header.lastOffsetDelta, 1) then
      Err(OffsetRange(batch.header.lastOffsetDelta, batch.recordCount))
    else
      match Inflate(codec, batch)
      case Err(e) => Err(Undecodable(e))
      case Ok(decoded) => Ok(decoded)
  }

  // ------------------------------------------------------------------ specification

  function Owners(batches: seq<OwnedBatch>): set<Uuid> {
    set i | 0 <= i < |batches| :: batches[i].owner
  }

  function Count(batches: seq<OwnedBatch>, owner: Uuid): nat {
    if batches == [] then 0
    else
      var n := |batches| - 1;
      Count(batches[..n], owner) + if batches[n].owner == owner then 1 else 0
  }

  /** No two neighbours differ: the batches have one owner, or there is none. */
  predicate OneOwner(batches: seq<OwnedBatch>) {
    forall i :: 0 <= i < |batches| - 1 ==> batches[i].owner == batches[i + 1].owner
  }

  function AsSent(batches: seq<OwnedBatch>): seq<Deflated> {
    seq(|batches|, i requires 0 <= i < |batches| => batches[i].batch)
  }

  /** The owners with more than one batch. */
  function Repeated(batches: seq<OwnedBatch>): map<Uuid, BatchRejection> {
    map o | o in Owners(batches) && Count(batches, o) > 1 :: MultipleBatches(Count(batches, o))
  }

  datatype DecodePass = DecodePass(owners: seq<OwnerBatch>, rejected: map<Uuid, BatchRejection>)

  /** Decodes each batch in queue order, skipping the owners rejected so far. */
  function DecodeAll(codec: RecordCodec, batches: seq<OwnedBatch>, rejected: map<Uuid, BatchRejection>): DecodePass {
    if batches == [] then DecodePass([], rejected)
    else
      var n := |batches| - 1;
      var pass := DecodeAll(codec, batches[..n], rejected);
      var OwnedBatch(owner, batch) := batches[n];
      if owner in pass.rejected then pass
      else
        match Decode(codec, batch)
        case Ok(decoded) => pass.(owners := pass.owners + [OwnerBatch(owner, batch, decoded)])
        case Err(rejection) => pass.(rejected := pass.rejected[owner := rejection])
  }

  datatype MergePass = MergePass(sink: Inflated, merged: seq<Uuid>, rejected: map<Uuid, BatchRejection>)

  /** Appends each owner's records to the first owner's, leaving the sink alone on an overflow. */
  function MergeAll(owners: seq<OwnerBatch>, rejected: map<Uuid, BatchRejection>): MergePass
    requires owners != []
  {
    if |owners| == 1 then MergePass(owners[0].decoded, [owners[0].owner], rejected)
    else
      var n := |owners| - 1;
      var pass := MergeAll(owners[..n], rejected);
      match AppendRebased(pass.sink, owners[n].decoded)
      case Ok(sink) => pass.(sink := sink, merged := pass.merged + [owners[n].owner])
      case Err(e) => pass.(rejected := pass.rejected[owners[n].owner := Unappendable(e)])
  }

  function Merging(codec: RecordCodec, owners: seq<OwnerBatch>, rejected: map<Uuid, BatchRejection>): Combined {
    if owners == [] then Combined([], rejected)
    else
      var pass := MergeAll(owners, rejected);
      if |pass.merged| == 1 then Combined([owners[0].asSent], pass.rejected)
      else
        match Deflate(codec, pass.sink)
        case Ok(d) => Combined([d], pass.rejected)
        case Err(e) => Combined([], pass.rejected + map o | o in pass.merged :: Unencodable(e))
  }

  function Combining(codec: RecordCodec, batches: seq<OwnedBatch>): Combined {
    if OneOwner(batches) then Combined(AsSent(batches), map[])
    else
      var pass := DecodeAll(codec, batches, Repeated(batches));
      Merging(codec, pass.owners, pass.rejected)
  }

  // ------------------------------------------------------------------ the loops

  /** The append loop of `merge`. */
  method AppendOwners(owners: seq<OwnerBatch>, alreadyRejected: map<Uuid, BatchRejection>)
    returns (sink: Inflated, merged: seq<Uuid>, rejected: map<Uuid, BatchRejection>)
    requires owners != []
    ensures MergePass(sink, merged, rejected) == MergeAll(owners, alreadyRejected)
  {
    sink, merged, rejected := owners[0].decoded, [owners[0].owner], alreadyRejected;
    var i := 1;
    while i < |owners|
      invariant 1 <= i <= |owners|
      invariant MergePass(sink, merged, rejected) == MergeAll(owners[..i], alreadyRejected)
    {
      assert owners[..i + 1][..i] == owners[..i];
      match AppendRebased(sink, owners[i].decoded) {
        case Ok(appended) =>
          sink, merged := appended, merged + [owners[i].owner];
        case Err(e) =>
          rejected := rejected[owners[i].owner := Unappendable(e)];
      }
      i := i + 1;
    }
    assert owners[..i] == owners;
  }

  /** The loop of `merge` that rejects every merged owner when the merged batch does not encode. */
  method RejectMerged(merged: seq<Uuid>, e: CodecError, before: map<Uuid, BatchRejection>)
    returns (rejected: map<Uuid, BatchRejection>)
    ensures rejected == before + map o | o in merged :: Unencodable(e)
  {
    rejected := before;
    var j := 0;
    while j < |merged|
      invariant 0 <= j <= |merged|
      invariant rejected.Keys == before.Keys + set k | 0 <= k < j :: merged[k]
      invariant forall o :: o in rejected ==>
                  rejected[o] == if exists k :: 0 <= k < j && merged[k] == o then Unencodable(e) else before[o]
    {
      rejected := rejected[merged[j] := Unencodable(e)];
      j := j + 1;
    }
  }

  /** `merge`: `rejected` is passed in and handed back, where the source updates it in place. */
  method Merge(codec: RecordCodec, owners: seq<OwnerBatch>, alreadyRejected: map<Uuid, BatchRejection>)
    returns (forwarded: seq<Deflated>, rejected: map<Uuid, BatchRejection>)
    ensures Combined(forwarded, rejected) == Merging(codec, owners, alreadyRejected)
  {
    if owners == [] {
      return [], alreadyRejected;
    }
    var sink, merged;
    sink, merged, rejected := AppendOwners(owners, alreadyRejected);
    if |merged| == 1 {
      return [owners[0].asSent], rejected;
    }
    match Deflate(codec, sink) {
      case Ok(d) =>
        forwarded := [d];
      case Err(e) =>
        rejected := RejectMerged(merged, e, rejected);
        forwarded := [];
    }
  }

  /** The number of batches of each owner, one pass over the queue. */
  method CountByOwner(batches: seq<OwnedBatch>) returns (counts: map<Uuid, nat>)
    ensures counts.Keys == Owners(batches)
    ensures forall o :: o in counts ==> counts[o] == Count(batches, o)
  {
    counts := map[];
    var i := 0;
    while i < |batches|
      invariant 0 <= i <= |batches|
      invariant counts.Keys == Owners(batches[..i])
      invariant forall o :: (if o in counts then counts[o] else 0) == Count(batches[..i], o)
    {
      var owner := batches[i].owner;
      assert batches[..i + 1][..i] == batches[..i];
      assert Owners(batches[..i + 1]) == Owners(batches[..i]) + {owner};
      counts := counts[owner := (if owner in counts then counts[owner] else 0) + 1];
      i := i + 1;
    }
    assert batches[..i] == batches;
  }

  /** `combine`, first check: whether neighbouring batches always have the same owner. */
  method HasOneOwner(batches: seq<OwnedBatch>) returns (oneOwner: bool)
    ensures oneOwner == OneOwner(batches)
  {
    oneOwner := true;
    var i := 0;
    while i + 1 < |batches|
      invariant 0 <= i
      invariant i <= |batches|
      invariant oneOwner <==> forall k :: 0 <= k < i && k < |batches| - 1 ==> batches[k].owner == batches[k + 1].owner
    {
      oneOwner := oneOwner && batches[i].owner == batches[i + 1].owner;
      i := i + 1;
    }
  }

  /** `combine`, second step: an owner with more than one batch is rejected before any is decoded. */
  method RejectRepeated(batches: seq<OwnedBatch>) returns (rejected: map<Uuid, BatchRejection>)
    ensures rejected == Repeated(batches)
  {
    var counts := CountByOwner(batches);
    rejected := map[];
    var pending := counts.Keys;
    while pending != {}
      invariant pending <= counts.Keys
      invariant rejected == map o | o in counts.Keys - pending && counts[o] > 1 :: MultipleBatches(counts[o])
      decreases pending
    {
      var owner :| owner in pending;
      if counts[owner] > 1 {
        rejected := rejected[owner := MultipleBatches(counts[owner])];
      }
      pending := pending - {owner};
    }
  }

  /** `combine`, third step: the decode loop. */
  method DecodeOwners(codec: RecordCodec, batches: seq<OwnedBatch>, alreadyRejected: map<Uuid, BatchRejection>)
    returns (owners: seq<OwnerBatch>, rejected: map<Uuid, BatchRejection>)
    ensures DecodePass(owners, rejected) == DecodeAll(codec, batches, alreadyRejected)
  {
    owners, rejected := [], alreadyRejected;
    var i := 0;
    while i < |batches|
      invariant 0 <= i <= |batches|
      invariant DecodePass(owners, rejected) == DecodeAll(codec, batches[..i], alreadyRejected)
    {
      assert batches[..i + 1][..i] == batches[..i];
      var OwnedBatch(owner, batch) := batches[i];
      if owner !in rejected {
        match Decode(codec, batch) {
          case Ok(decoded) => owners := owners + [OwnerBatch(owner, batch, decoded)];
          case Err(rejection) => rejected := rejected[owner := rejection];
        }
      }
      i := i + 1;
    }
    assert batches[..i] == batches;
  }

  /** `combine`. */
  method Combine(codec: RecordCodec, batches: seq<OwnedBatch>) returns (combined: Combined)
    ensures combined == Combining(codec, batches)
  {
    var oneOwner := HasOneOwner(batches);
    if oneOwner {
      return Combined(AsSent(batches), map[]);
    }
    var rejected := RejectRepeated(batches);
    var owners;
    owners, rejected := DecodeOwners(codec, batches, rejected);
    var forwarded;
    forwarded, rejected := Merge(codec, owners, rejected);
    combined := Combined(forwarded, rejected);
  }
}
