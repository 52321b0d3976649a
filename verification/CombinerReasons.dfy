/**
 Exactly which owners a merge excludes, and why (nisshi-proxy/src/produce.rs:829-995), told from the batches:
 a batch joins if its offsets still fit behind those that joined before it.
 */
module CombinerReasons {
  import opened Prelude
  import opened Records
  import opened Combiner
  import opened CombinerProofs

  /** The offsets of `b` fit into an `i32` behind `total` records. */
  ghost predicate Joins(total: nat, b: Inflated) {
    && total <= I32_MAX
    && total + |b.records| <= I32_MAX + 1
    && (forall i :: 0 <= i < |b.records| ==> I32_MIN <= b.records[i].offsetDelta + total <= I32_MAX)
  }

  /** As many records as the last offset delta says, and no more than an `i32` counts. */
  ghost predicate Counted(b: Inflated) {
    InStep(b) && |b.records| <= I32_MAX
  }

  lemma DecodedCounted(codec: RecordCodec, batch: Deflated)
    requires codec.Lawful() && Decode(codec, batch).Ok?
    ensures Counted(Decode(codec, batch).value)
  {
    DecodedInStep(codec, batch);
    CountWithinBudget(batch.recordCount, codec.recordSize);
  }

  lemma JoinsIff(sink: Inflated, other: Inflated)
    requires InStep(sink) && Counted(other)
    ensures AppendRebased(sink, other).Ok? <==> Joins(|sink.records|, other)
    ensures AppendRebased(sink, other).Ok? ==>
              InStep(AppendRebased(sink, other).value)
              && |AppendRebased(sink, other).value.records| == |sink.records| + |other.records|
  {
    AppendRebasedFails(sink, other);
    if AppendRebased(sink, other).Ok? {
      AppendRebasedHeader(sink, other);
    }
  }

  // ------------------------------------------------------------------ the merge pass

  /** The number of records with `b`, if it joins. */
  ghost function JoinedBy(total: nat, b: Inflated): nat {
    if Joins(total, b) then total + |b.records| else total
  }

  /** The number of records that joined, of owners in order. */
  ghost function Joined(os: seq<OwnerBatch>): nat {
    if os == [] then 0 else JoinedBy(Joined(os[..|os| - 1]), os[|os| - 1].decoded)
  }

  lemma JoinedSnoc(os: seq<OwnerBatch>, x: OwnerBatch)
    ensures Joined(os + [x]) == JoinedBy(Joined(os), x.decoded)
  {
    assert (os + [x])[..|os|] == os;
  }

  lemma {:induction false} MergeJoined(os: seq<OwnerBatch>, rejected: map<Uuid, BatchRejection>)
    requires os != [] && forall k :: 0 <= k < |os| ==> Counted(os[k].decoded)
    ensures InStep(MergeAll(os, rejected).sink) && |MergeAll(os, rejected).sink.records| == Joined(os)
  {
    var n := |os| - 1;
    if n == 0 {
      assert os[..n] == [] && Joined(os[..n]) == 0;
    } else {
      MergeJoined(os[..n], rejected);
      JoinsIff(MergeAll(os[..n], rejected).sink, os[n].decoded);
    }
  }

  lemma VerdictOfLast(os: seq<OwnerBatch>, rejected: map<Uuid, BatchRejection>)
    requires |os| > 1 && os[|os| - 1].owner !in MergeAll(os[..|os| - 1], rejected).rejected
    ensures os[|os| - 1].owner in MergeAll(os, rejected).rejected <==>
            AppendRebased(MergeAll(os[..|os| - 1], rejected).sink, os[|os| - 1].decoded).Err?
  {
  }

  lemma VerdictOfOther(os: seq<OwnerBatch>, rejected: map<Uuid, BatchRejection>, o: Uuid)
    requires |os| > 1 && o != os[|os| - 1].owner
    ensures o in MergeAll(os, rejected).rejected <==> o in MergeAll(os[..|os| - 1], rejected).rejected
  {
  }

  lemma LastUndecided(os: seq<OwnerBatch>, rejected: map<Uuid, BatchRejection>)
    requires |os| > 1 && Distinct(os) && Ids(os) !! rejected.Keys
    ensures os[|os| - 1].owner !in MergeAll(os[..|os| - 1], rejected).rejected
  {
    SplitLast(os);
    MergeAllSorts(os[..|os| - 1], rejected);
  }

  /** The merge pass rejects the last owner exactly if its batch does not join. */
  lemma MergeVerdictLast(os: seq<OwnerBatch>, rejected: map<Uuid, BatchRejection>)
    requires |os| > 1 && Distinct(os) && Ids(os) !! rejected.Keys
    requires forall k :: 0 <= k < |os| ==> Counted(os[k].decoded)
    ensures os[|os| - 1].owner in MergeAll(os, rejected).rejected <==>
            !Joins(Joined(os[..|os| - 1]), os[|os| - 1].decoded)
  {
    var n := |os| - 1;
    LastUndecided(os, rejected);
    VerdictOfLast(os, rejected);
    MergeJoined(os[..n], rejected);
    JoinsIff(MergeAll(os[..n], rejected).sink, os[n].decoded);
  }

  lemma MergeVerdictOne(os: seq<OwnerBatch>, rejected: map<Uuid, BatchRejection>)
    requires |os| == 1 && Ids(os) !! rejected.Keys && Counted(os[0].decoded)
    ensures os[0].owner !in MergeAll(os, rejected).rejected && Joins(Joined(os[..0]), os[0].decoded)
  {
    assert os[0].owner in Ids(os);
    assert os[..0] == [] && Joined(os[..0]) == 0;
  }

  lemma ButLast(os: seq<OwnerBatch>, rejected: map<Uuid, BatchRejection>, j: nat)
    requires j < |os| - 1 && Distinct(os) && Ids(os) !! rejected.Keys
    ensures Distinct(os[..|os| - 1]) && Ids(os[..|os| - 1]) !! rejected.Keys
    ensures os[..|os| - 1][j] == os[j] && os[..|os| - 1][..j] == os[..j] && os[j].owner != os[|os| - 1].owner
  {
    SplitLast(os);
    assert os[..|os| - 1][..j] == os[..j];
  }

  /** The merge pass rejects exactly the owners whose batches do not join. */
  lemma {:induction false} MergeVerdict(os: seq<OwnerBatch>, rejected: map<Uuid, BatchRejection>, j: nat)
    requires j < |os| && Distinct(os) && Ids(os) !! rejected.Keys
    requires forall k :: 0 <= k < |os| ==> Counted(os[k].decoded)
    ensures os[j].owner in MergeAll(os, rejected).rejected <==> !Joins(Joined(os[..j]), os[j].decoded)
  {
    var n := |os| - 1;
    if n == 0 {
      MergeVerdictOne(os, rejected);
    } else if j == n {
      MergeVerdictLast(os, rejected);
    } else {
      ButLast(os, rejected, j);
      MergeVerdict(os[..n], rejected, j);
      VerdictOfOther(os, rejected, os[j].owner);
    }
  }

  // ------------------------------------------------------------------ from the batches

  /** The number of records that joined, of the first `n` batches. */
  ghost function Running(codec: RecordCodec, batches: seq<OwnedBatch>, n: nat): nat
    requires n <= |batches|
  {
    if n == 0 then 0
    else
      var before := Running(codec, batches, n - 1);
      var OwnedBatch(owner, batch) := batches[n - 1];
      if Count(batches, owner) > 1 then before
      else
        match Decode(codec, batch)
        case Err(_) => before
        case Ok(decoded) => JoinedBy(before, decoded)
  }

  lemma {:induction false} CountAtLeast(batches: seq<OwnedBatch>, n: nat, o: Uuid)
    requires n <= |batches|
    ensures Count(batches[..n], o) <= Count(batches, o)
  {
    if n < |batches| {
      var m := |batches| - 1;
      assert batches[..m][..n] == batches[..n];
      CountAtLeast(batches[..m], n, o);
    } else {
      assert batches[..n] == batches;
    }
  }

  /** The decode pass over one more batch: it is skipped, rejected, or decoded. */
  lemma DecodeStep(codec: RecordCodec, batches: seq<OwnedBatch>, n: nat)
    requires n < |batches|
    ensures
      var repeated := Repeated(batches);
      var p, q := DecodeAll(codec, batches[..n + 1], repeated), DecodeAll(codec, batches[..n], repeated);
      var OwnedBatch(owner, batch) := batches[n];
      p.owners == if Count(batches, owner) == 1 && Decode(codec, batch).Ok?
                  then q.owners + [OwnerBatch(owner, batch, Decode(codec, batch).value)] else q.owners
  {
    var repeated, before := Repeated(batches), batches[..n];
    var owner := batches[n].owner;
    assert batches[..n + 1][..n] == before;
    forall o | o !in repeated ensures Count(before, o) <= 1 {
      RepeatedCounts(batches);
      CountAtLeast(batches, n, o);
    }
    DecodeAllSorts(codec, before, repeated);
    CountAtLeast(batches, n + 1, owner);
    assert Count(batches[..n + 1], owner) == Count(before, owner) + 1;
    CountZero(before, owner);
    CountZero(batches, owner);
  }

  lemma CountSelf(batches: seq<OwnedBatch>, n: nat)
    requires n < |batches|
    ensures Count(batches, batches[n].owner) >= 1
  {
    CountAtLeast(batches, n + 1, batches[n].owner);
    assert batches[..n + 1][..n] == batches[..n];
  }

  lemma RunningStep(codec: RecordCodec, batches: seq<OwnedBatch>, n: nat)
    requires n < |batches|
    ensures
      var before, OwnedBatch(owner, batch) := Running(codec, batches, n), batches[n];
      Running(codec, batches, n + 1)
      == if Count(batches, owner) == 1 && Decode(codec, batch).Ok? then JoinedBy(before, Decode(codec, batch).value) else before
  {
    CountSelf(batches, n);
  }

  lemma {:induction false} RunningJoined(codec: RecordCodec, batches: seq<OwnedBatch>, n: nat)
    requires n <= |batches|
    ensures Running(codec, batches, n) == Joined(DecodeAll(codec, batches[..n], Repeated(batches)).owners)
  {
    if n > 0 {
      var m := n - 1;
      RunningJoined(codec, batches, m);
      RunningStep(codec, batches, m);
      DecodeStep(codec, batches, m);
      var OwnedBatch(owner, batch) := batches[m];
      if Count(batches, owner) == 1 && Decode(codec, batch).Ok? {
        JoinedSnoc(DecodeAll(codec, batches[..m], Repeated(batches)).owners,
                   OwnerBatch(owner, batch, Decode(codec, batch).value));
      }
    }
  }

  /** The owners decoded so far stay in front. */
  lemma {:induction false} DecodePrefix(codec: RecordCodec, batches: seq<OwnedBatch>,
                                        repeated: map<Uuid, BatchRejection>, n: nat)
    requires n <= |batches|
    ensures DecodeAll(codec, batches[..n], repeated).owners <= DecodeAll(codec, batches, repeated).owners
  {
    if n < |batches| {
      var m := |batches| - 1;
      assert batches[..m][..n] == batches[..n];
      DecodePrefix(codec, batches[..m], repeated, n);
    } else {
      assert batches[..n] == batches;
    }
  }

  ghost function SinkOf(codec: RecordCodec, batches: seq<OwnedBatch>): MergePass
    requires Decoded(codec, batches).owners != []
  {
    MergeAll(Decoded(codec, batches).owners, Decoded(codec, batches).rejected)
  }

  /** The place of a batch that decodes among the decoded owners. */
  lemma DecodedAt(codec: RecordCodec, batches: seq<OwnedBatch>, i: nat) returns (j: nat)
    requires codec.Lawful() && i < |batches|
    requires Count(batches, batches[i].owner) == 1 && Decode(codec, batches[i].batch).Ok?
    ensures
      var os := Decoded(codec, batches).owners;
      && j < |os| && os[j] == OwnerBatch(batches[i].owner, batches[i].batch, Decode(codec, batches[i].batch).value)
      && Joined(os[..j]) == Running(codec, batches, i)
  {
    var q := DecodeAll(codec, batches[..i], Repeated(batches)).owners;
    DecodeStep(codec, batches, i);
    DecodePrefix(codec, batches, Repeated(batches), i + 1);
    RunningJoined(codec, batches, i);
    j := |q|;
    assert Decoded(codec, batches).owners[..j] == q;
  }

  lemma OwnersCounted(codec: RecordCodec, os: seq<OwnerBatch>)
    requires codec.Lawful() && Faithful(codec, os)
    ensures forall k :: 0 <= k < |os| ==> Counted(os[k].decoded)
  {
    forall k | 0 <= k < |os| ensures Counted(os[k].decoded) {
      DecodedCounted(codec, os[k].asSent);
    }
  }

  /** The only error of the merge pass is the overflow of an offset delta. */
  lemma {:induction false} MergeErrors(os: seq<OwnerBatch>, rejected: map<Uuid, BatchRejection>, o: Uuid)
    requires os != [] && o !in rejected && o in MergeAll(os, rejected).rejected
    ensures MergeAll(os, rejected).rejected[o] == Unappendable(OffsetDeltaOverflow)
  {
    if |os| > 1 {
      var n := |os| - 1;
      if o in MergeAll(os[..n], rejected).rejected {
        MergeErrors(os[..n], rejected, o);
      }
      AppendRebasedFails(MergeAll(os[..n], rejected).sink, os[n].decoded);
    }
  }

  lemma MergingVerdict(codec: RecordCodec, os: seq<OwnerBatch>, rejected: map<Uuid, BatchRejection>, o: Uuid)
    requires os != [] && Distinct(os) && Ids(os) !! rejected.Keys && o in Ids(os)
    ensures
      var pass, c := MergeAll(os, rejected), Merging(codec, os, rejected);
      var fails := |pass.merged| >= 2 && Deflate(codec, pass.sink).Err?;
      if o in pass.rejected then o in c.rejected && c.rejected[o] == Unappendable(OffsetDeltaOverflow)
      else if fails then o in c.rejected && c.rejected[o] == Unencodable(Deflate(codec, pass.sink).error) && c.forwarded == []
      else o !in c.rejected && c.forwarded != []
  {
    MergeAllSorts(os, rejected);
    var pass := MergeAll(os, rejected);
    if o in pass.rejected {
      MergeErrors(os, rejected, o);
    }
    assert forall x :: x in Elements(pass.merged) <==> x in pass.merged;
  }

  /**
   Several owners: what becomes of an owner whose only batch decodes. It is rejected because its batch does
   not append if and only if the batch does not join behind those before it. If it joins, it is
   rejected if and only if two or more joined and the merged batch does not encode, with that error.
   */
  lemma CombineReasonsExactly(codec: RecordCodec, batches: seq<OwnedBatch>, i: nat)
    requires codec.Lawful() && !OneOwner(batches) && i < |batches|
    requires Count(batches, batches[i].owner) == 1 && Decode(codec, batches[i].batch).Ok?
    ensures Decoded(codec, batches).owners != []
    ensures
      var c, owner := Combining(codec, batches), batches[i].owner;
      var pass := SinkOf(codec, batches);
      var fails := |pass.merged| >= 2 && Deflate(codec, pass.sink).Err?;
      if !Joins(Running(codec, batches, i), Decode(codec, batches[i].batch).value) then
        owner in c.rejected && c.rejected[owner] == Unappendable(OffsetDeltaOverflow)
      else if fails then
        owner in c.rejected && c.rejected[owner] == Unencodable(Deflate(codec, pass.sink).error) && c.forwarded == []
      else owner !in c.rejected && c.forwarded != []
  {
    var p := Decoded(codec, batches);
    RepeatedCounts(batches);
    DecodeAllSorts(codec, batches, Repeated(batches));
    var j := DecodedAt(codec, batches, i);
    OwnersCounted(codec, p.owners);
    assert p.owners[j].owner in Ids(p.owners);
    MergeVerdict(p.owners, p.rejected, j);
    MergingVerdict(codec, p.owners, p.rejected, batches[i].owner);
  }

  // ------------------------------------------------------------------ every reason, from the batch itself

  /** No other batch has the owner of batch `i`. */
  ghost predicate Only(batches: seq<OwnedBatch>, i: nat)
    requires i < |batches|
  {
    forall j :: 0 <= j < |batches| && batches[j].owner == batches[i].owner ==> j == i
  }

  lemma CountOnly(batches: seq<OwnedBatch>, i: nat)
    requires i < |batches|
    ensures Count(batches, batches[i].owner) == 1 <==> Only(batches, i)
  {
    var o := batches[i].owner;
    var all := OwnPlaces(batches, o);
    CountIs(batches, o);
    assert i in all;
    if Only(batches, i) {
      assert all == {i};
    } else {
      var j :| 0 <= j < |batches| && batches[j].owner == o && j != i;
      assert {i, j} <= all;
      SubsetSize({i, j}, all);
    }
  }

  lemma SubsetSize<T>(a: set<T>, b: set<T>)
    requires a <= b
    ensures |a| <= |b|
  {
    assert b == a + (b - a);
  }

  /** The offset range of a batch has as many offsets as it has records. */
  predicate RangeMatches(batch: Deflated) {
    batch.header.lastOffsetDelta + 1 == batch.recordCount
  }

  /** Neither side of the range check fits into an `i32`, so that it compares nothing with nothing. */
  predicate RangeUnchecked(batch: Deflated) {
    batch.header.lastOffsetDelta == I32_MAX && batch.recordCount > I32_MAX
  }

  lemma DecodeRange(codec: RecordCodec, batch: Deflated)
    ensures Decode(codec, batch) ==
            if !RangeMatches(batch) && !RangeUnchecked(batch)
            then Err(OffsetRange(batch.header.lastOffsetDelta, batch.recordCount))
            else match Inflate(codec, batch)
                 case Err(e) => Err(Undecodable(e))
                 case Ok(decoded) => Ok(decoded)
  {
  }

  /**
   Several owners: what becomes of the owner of batch `i`. It is rejected for its number of batches if and only
   if it has another one. Otherwise it is rejected for its offset range if and only if the range
   neither matches the record count nor escapes the check; because it does not decode, with that error, if and
   only if it passes the check and does not inflate; and it gets as far as the merge if and only if it
   passes and inflates.
   */
  lemma CombineVerdicts(codec: RecordCodec, batches: seq<OwnedBatch>, i: nat, other: nat)
    requires i < |batches| && other < |batches| && batches[i].owner != batches[other].owner
    ensures
      var rejected, OwnedBatch(owner, batch) := Combining(codec, batches).rejected, batches[i];
      var verdict := if owner in rejected then Some(rejected[owner]) else None;
      var passes := RangeMatches(batch) || RangeUnchecked(batch);
      && (verdict.Some? && verdict.value.MultipleBatches? <==> !Only(batches, i))
      && (!Only(batches, i) ==> verdict.value.count == |OwnPlaces(batches, owner)|)
      && (Only(batches, i) ==>
            && (verdict == Some(OffsetRange(batch.header.lastOffsetDelta, batch.recordCount)) <==> !passes)
            && (verdict.Some? && verdict.value.OffsetRange? ==> !passes)
            && (forall e :: verdict == Some(Undecodable(e)) <==> passes && Inflate(codec, batch) == Err(e))
            && (verdict.None? || verdict.value.Unappendable? || verdict.value.Unencodable? <==>
                passes && Inflate(codec, batch).Ok?))
  {
    OneOwnerIff(batches);
    CountOnly(batches, i);
    CountSelf(batches, i);
    CombineReasons(codec, batches, i);
    CountIs(batches, batches[i].owner);
    DecodeRange(codec, batches[i].batch);
  }

  lemma UncheckedFails(codec: RecordCodec, batch: Deflated)
    requires codec.Lawful()
    ensures RangeUnchecked(batch) ==> Inflate(codec, batch).Err?
  {
    InflateIff(codec, batch);
    CountWithinBudget(batch.recordCount, codec.recordSize);
  }

  /**
   The range check is not what it says: a batch whose last offset delta is the largest `i32` passes it with
   any record count that is no `i32`. It is rejected all the same, because no such batch decodes.
   */
  lemma MismatchRejected(codec: RecordCodec, batches: seq<OwnedBatch>, i: nat, other: nat)
    requires codec.Lawful()
    requires i < |batches| && other < |batches| && batches[i].owner != batches[other].owner
    requires Only(batches, i) && !RangeMatches(batches[i].batch)
    ensures
      var rejected, owner := Combining(codec, batches).rejected, batches[i].owner;
      && owner in rejected
      && (rejected[owner].OffsetRange? <==> !RangeUnchecked(batches[i].batch))
      && (rejected[owner].Undecodable? <==> RangeUnchecked(batches[i].batch))
  {
    CombineVerdicts(codec, batches, i, other);
    UncheckedFails(codec, batches[i].batch);
  }

  /**
   The error code of a rejected owner: 10 if its batch decodes to too much, -1 if the merged batch does not
   encode, and 87 for all else.
   */
  lemma RejectionCode(codec: RecordCodec, batches: seq<OwnedBatch>, i: nat, other: nat)
    requires codec.Lawful()
    requires i < |batches| && other < |batches| && batches[i].owner != batches[other].owner
    requires batches[i].owner in Combining(codec, batches).rejected
    ensures
      var code, batch := ErrorCode(Combining(codec, batches).rejected[batches[i].owner]), batches[i].batch;
      && code in {10, -1, 87}
      && (code == 10 <==>
          && Only(batches, i) && (RangeMatches(batch) || RangeUnchecked(batch))
          && Inflate(codec, batch) == Err(MessageMaxSizeExceeded))
      && (code == -1 <==>
          && Only(batches, i) && RangeMatches(batch) && Inflate(codec, batch).Ok?
          && Joins(Running(codec, batches, i), Inflate(codec, batch).value))
  {
    var batch := batches[i].batch;
    CombineVerdicts(codec, batches, i, other);
    if Only(batches, i) && !RangeMatches(batch) {
      MismatchRejected(codec, batches, i, other);
    }
    if Only(batches, i) && RangeMatches(batch) && Inflate(codec, batch).Ok? {
      OneOwnerIff(batches);
      CountOnly(batches, i);
      DecodeRange(codec, batch);
      CombineReasonsExactly(codec, batches, i);
    }
  }
}
