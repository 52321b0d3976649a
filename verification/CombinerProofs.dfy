/**
 What merging the batches of one partition promises the clients that sent them
 (nisshi-proxy/src/produce.rs:870-995).
 */
module CombinerProofs {
  import opened Prelude
  import opened Records
  import opened Combiner

  // ------------------------------------------------------------------ accepted owners

  /** The batches whose owner is in `ids`, in queue order. */
  function Keep(batches: seq<OwnedBatch>, ids: set<Uuid>): seq<OwnedBatch> {
    if batches == [] then []
    else
      var n := |batches| - 1;
      if batches[n].owner in ids then Keep(batches[..n], ids) + [batches[n]] else Keep(batches[..n], ids)
  }

  /** The batches of the owners that are not rejected. */
  function Accepted(codec: RecordCodec, batches: seq<OwnedBatch>): seq<OwnedBatch> {
    Keep(batches, Owners(batches) - Combining(codec, batches).rejected.Keys)
  }

  /** What a consumer would read, had each of the batches been stored on its own. */
  function ReadAll(codec: RecordCodec, batches: seq<OwnedBatch>): seq<Consumed> {
    if batches == [] then []
    else
      var n := |batches| - 1;
      ReadAll(codec, batches[..n])
      + match Inflate(codec, batches[n].batch) { case Ok(b) => View(b) case Err(_) => [] }
  }

  lemma {:induction false} ReadAllConcat(codec: RecordCodec, a: seq<OwnedBatch>, b: seq<OwnedBatch>)
    ensures ReadAll(codec, a + b) == ReadAll(codec, a) + ReadAll(codec, b)
  {
    if b == [] {
      assert a + b == a;
    } else {
      var n := |b| - 1;
      assert (a + b)[..|a| + n] == a + b[..n];
      ReadAllConcat(codec, a, b[..n]);
    }
  }

  /** What decoding the batches costs together. */
  ghost function DecodedSizeAll(codec: RecordCodec, batches: seq<OwnedBatch>): nat {
    if batches == [] then 0
    else
      var n := |batches| - 1;
      DecodedSizeAll(codec, batches[..n])
      + match Inflate(codec, batches[n].batch) { case Ok(b) => codec.DecodedSize(b.records) case Err(_) => 0 }
  }

  ghost predicate AllCreateTime(batches: seq<OwnedBatch>) {
    forall i :: 0 <= i < |batches| ==> TimestampTypeOf(batches[i].batch.header.attributes) == CreateTime
  }

  ghost predicate AllContiguous(codec: RecordCodec, batches: seq<OwnedBatch>) {
    forall i :: 0 <= i < |batches| ==>
                  forall b :: Inflate(codec, batches[i].batch) == Ok(b) ==> Contiguous(b)
  }

  lemma {:induction false} CountZero(batches: seq<OwnedBatch>, o: Uuid)
    ensures Count(batches, o) == 0 <==> o !in Owners(batches)
  {
    if batches != [] {
      var n := |batches| - 1;
      CountZero(batches[..n], o);
      OwnersPrefix(batches);
    }
  }

  lemma OwnersPrefix(batches: seq<OwnedBatch>)
    requires batches != []
    ensures Owners(batches) == Owners(batches[..|batches| - 1]) + {batches[|batches| - 1].owner}
  {
    var n := |batches| - 1;
    forall i | 0 <= i < n ensures batches[i].owner in Owners(batches[..n]) {
      assert batches[..n][i] == batches[i];
    }
  }

  lemma {:induction false} KeepAll(batches: seq<OwnedBatch>, ids: set<Uuid>)
    requires Owners(batches) <= ids
    ensures Keep(batches, ids) == batches
  {
    if batches != [] {
      OwnersPrefix(batches);
      KeepAll(batches[..|batches| - 1], ids);
    }
  }

  /** The places of an owner's batches. */
  ghost function OwnPlaces(batches: seq<OwnedBatch>, o: Uuid): set<nat> {
    set i: nat | i < |batches| && batches[i].owner == o
  }

  lemma OwnPlacesSnoc(batches: seq<OwnedBatch>, o: Uuid)
    requires batches != []
    ensures
      var n := |batches| - 1;
      && n !in OwnPlaces(batches[..n], o)
      && OwnPlaces(batches, o) == OwnPlaces(batches[..n], o) + if batches[n].owner == o then {n} else {}
  {
  }

  /** `Count` is the number of places with that owner. */
  lemma {:induction false} CountIs(batches: seq<OwnedBatch>, o: Uuid)
    ensures Count(batches, o) == |OwnPlaces(batches, o)|
  {
    if batches == [] {
      assert OwnPlaces(batches, o) == {};
    } else {
      CountIs(batches[..|batches| - 1], o);
      OwnPlacesSnoc(batches, o);
    }
  }

  /** The window test finds out whether there is at most one owner. */
  lemma {:induction false} OneOwnerIff(batches: seq<OwnedBatch>)
    ensures OneOwner(batches) <==> forall i, j :: 0 <= i < j < |batches| ==> batches[i].owner == batches[j].owner
  {
    if |batches| > 1 && OneOwner(batches) {
      var n := |batches| - 1;
      OneOwnerIff(batches[..n]);
      forall i, j | 0 <= i < j < |batches| ensures batches[i].owner == batches[j].owner {
        assert batches[n - 1].owner == batches[n].owner;
        assert j < n ==> batches[..n][i].owner == batches[..n][j].owner;
        assert i < n - 1 ==> batches[..n][i].owner == batches[..n][n - 1].owner;
      }
    }
  }

  /** One owner: its batches go as sent, in order, and nobody is rejected. */
  lemma OneOwnerForwarded(codec: RecordCodec, batches: seq<OwnedBatch>)
    requires forall i, j :: 0 <= i < j < |batches| ==> batches[i].owner == batches[j].owner
    ensures
      var c := Combining(codec, batches);
      && c.rejected == map[]
      && |c.forwarded| == |batches|
      && forall i :: 0 <= i < |batches| ==> c.forwarded[i] == batches[i].batch
  {
    OneOwnerIff(batches);
  }

  // ------------------------------------------------------------------ the decode pass

  ghost predicate Distinct(os: seq<OwnerBatch>) {
    forall i, j :: 0 <= i < j < |os| ==> os[i].owner != os[j].owner
  }

  ghost predicate Faithful(codec: RecordCodec, os: seq<OwnerBatch>) {
    forall k :: 0 <= k < |os| ==> Decode(codec, os[k].asSent) == Ok(os[k].decoded)
  }

  ghost function Ids(os: seq<OwnerBatch>): set<Uuid> {
    set k | 0 <= k < |os| :: os[k].owner
  }

  ghost function KeepOwners(os: seq<OwnerBatch>, ids: set<Uuid>): seq<OwnerBatch> {
    if os == [] then []
    else
      var n := |os| - 1;
      if os[n].owner in ids then KeepOwners(os[..n], ids) + [os[n]] else KeepOwners(os[..n], ids)
  }

  ghost function Sent(os: seq<OwnerBatch>): seq<OwnedBatch> {
    seq(|os|, k requires 0 <= k < |os| => OwnedBatch(os[k].owner, os[k].asSent))
  }

  /** One more owner, not seen before, keeps owners distinct. */
  lemma Snoc(os: seq<OwnerBatch>, x: OwnerBatch)
    ensures Ids(os + [x]) == Ids(os) + {x.owner}
    ensures Distinct(os) && x.owner !in Ids(os) ==> Distinct(os + [x])
  {
    var all := os + [x];
    assert all[|os|] == x;
    assert forall k :: 0 <= k < |os| ==> all[k] == os[k] && os[k].owner in Ids(os);
  }

  lemma SplitLast(os: seq<OwnerBatch>)
    requires os != []
    ensures
      var n := |os| - 1;
      && os == os[..n] + [os[n]]
      && Ids(os) == Ids(os[..n]) + {os[n].owner}
      && (Distinct(os) ==> Distinct(os[..n]) && os[n].owner !in Ids(os[..n]))
  {
    var n := |os| - 1;
    assert os == os[..n] + [os[n]];
    Snoc(os[..n], os[n]);
    if Distinct(os) {
      forall k | 0 <= k < n ensures os[..n][k].owner != os[n].owner { assert os[..n][k] == os[k]; }
    }
  }

  /**
   The decode pass sorts every owner into the decoded ones, each with the one batch it sent, and
   the rejected ones, each with the reason of its own batches.
   */
  lemma {:induction false} DecodeAllSorts(codec: RecordCodec, batches: seq<OwnedBatch>,
                                          repeated: map<Uuid, BatchRejection>)
    requires forall o :: o !in repeated ==> Count(batches, o) <= 1
    ensures
      var p := DecodeAll(codec, batches, repeated);
      && Faithful(codec, p.owners)
      && Distinct(p.owners)
      && Ids(p.owners) !! p.rejected.Keys
      && Ids(p.owners) + p.rejected.Keys == Owners(batches) + repeated.Keys
      && (forall o :: o in repeated ==> o in p.rejected && p.rejected[o] == repeated[o])
  {
    if batches != [] {
      var n := |batches| - 1;
      var q := DecodeAll(codec, batches[..n], repeated);
      var OwnedBatch(owner, batch) := batches[n];
      DecodeAllSorts(codec, batches[..n], repeated);
      OwnersPrefix(batches);
      if owner !in q.rejected {
        CountZero(batches[..n], owner);
        assert owner !in Ids(q.owners);
        match Decode(codec, batch)
        case Ok(decoded) => Snoc(q.owners, OwnerBatch(owner, batch, decoded));
        case Err(_) =>
      }
    }
  }

  /** Keeping only owners that were decoded leaves exactly the batches they sent. */
  lemma {:induction false} KeepDecoded(codec: RecordCodec, batches: seq<OwnedBatch>,
                                       repeated: map<Uuid, BatchRejection>, ids: set<Uuid>)
    requires ids !! DecodeAll(codec, batches, repeated).rejected.Keys
    ensures Keep(batches, ids) == Sent(KeepOwners(DecodeAll(codec, batches, repeated).owners, ids))
  {
    if batches != [] {
      var n := |batches| - 1;
      var q := DecodeAll(codec, batches[..n], repeated);
      KeepDecoded(codec, batches[..n], repeated, ids);
      var p := DecodeAll(codec, batches, repeated);
      if p.owners != q.owners {
        assert p.owners[..|p.owners| - 1] == q.owners;
      }
    }
  }

  /** Decoding the batches of decoded owners again decodes the same and rejects nobody. */
  lemma {:induction false} DecodeSent(codec: RecordCodec, os: seq<OwnerBatch>)
    requires Faithful(codec, os)
    ensures DecodeAll(codec, Sent(os), map[]) == DecodePass(os, map[])
  {
    if os != [] {
      var n := |os| - 1;
      DecodeSent(codec, os[..n]);
      assert Sent(os)[..n] == Sent(os[..n]);
      assert os == os[..n] + [os[n]];
    }
  }

  lemma {:induction false} SentCounts(os: seq<OwnerBatch>, o: Uuid)
    requires Distinct(os)
    ensures Count(Sent(os), o) == if o in Ids(os) then 1 else 0
  {
    if os != [] {
      var n := |os| - 1;
      SentCounts(os[..n], o);
      assert Sent(os)[..n] == Sent(os[..n]);
      SplitLast(os);
    }
  }

  lemma {:induction false} KeepOwnersKeeps(codec: RecordCodec, os: seq<OwnerBatch>, ids: set<Uuid>)
    requires Distinct(os) && Faithful(codec, os)
    ensures Distinct(KeepOwners(os, ids)) && Faithful(codec, KeepOwners(os, ids))
    ensures Ids(KeepOwners(os, ids)) == Ids(os) * ids
  {
    if os != [] {
      var n := |os| - 1;
      SplitLast(os);
      KeepOwnersKeeps(codec, os[..n], ids);
      if os[n].owner in ids {
        Snoc(KeepOwners(os[..n], ids), os[n]);
      }
    }
  }

  // ------------------------------------------------------------------ the merge pass

  ghost function Elements(ids: seq<Uuid>): set<Uuid> {
    set k | 0 <= k < |ids| :: ids[k]
  }

  lemma ElementsSnoc(ids: seq<Uuid>, o: Uuid)
    ensures Elements(ids + [o]) == Elements(ids) + {o}
  {
    var all := ids + [o];
    assert all[|ids|] == o;
    assert forall k :: 0 <= k < |ids| ==> all[k] == ids[k];
  }

  /** The merge pass sorts the decoded owners into merged and overflowing ones. */
  lemma {:induction false} MergeAllSorts(os: seq<OwnerBatch>, rejected: map<Uuid, BatchRejection>)
    requires os != [] && Distinct(os)
    requires Ids(os) !! rejected.Keys
    ensures
      var m := MergeAll(os, rejected);
      && 1 <= |m.merged| <= |os|
      && Elements(m.merged) <= Ids(os)
      && m.rejected.Keys == rejected.Keys + (Ids(os) - Elements(m.merged))
      && (forall o :: o in rejected ==> m.rejected[o] == rejected[o])
      && (forall o :: o in m.rejected && o !in rejected ==> m.rejected[o].Unappendable?)
  {
    var n := |os| - 1;
    SplitLast(os);
    if n == 0 {
      assert Ids(os[..0]) == {};
      ElementsSnoc([], os[0].owner);
      assert [] + [os[0].owner] == [os[0].owner];
    } else {
      var q := MergeAll(os[..n], rejected);
      MergeAllSorts(os[..n], rejected);
      ElementsSnoc(q.merged, os[n].owner);
    }
  }

  /** An owner that does not append leaves no trace: merging the merged ones alone gives the same sink. */
  lemma {:induction false} MergeAllStable(os: seq<OwnerBatch>, rejected: map<Uuid, BatchRejection>, ids: set<Uuid>)
    requires os != [] && Distinct(os)
    requires Ids(os) !! rejected.Keys
    requires Ids(os) * ids == Elements(MergeAll(os, rejected).merged)
    ensures KeepOwners(os, ids) != [] && KeepOwners(os, ids)[0] == os[0]
    ensures |KeepOwners(os, ids)| == |MergeAll(os, rejected).merged|
    ensures MergeAll(KeepOwners(os, ids), map[]) == MergeAll(os, rejected).(rejected := map[])
  {
    var n := |os| - 1;
    var m := MergeAll(os, rejected);
    SplitLast(os);
    if n == 0 {
      assert m.merged[0] == os[0].owner;
      assert os[0].owner in Elements(m.merged);
      assert os[..n] == [];
    } else {
      var q := MergeAll(os[..n], rejected);
      MergeAllSorts(os[..n], rejected);
      match AppendRebased(q.sink, os[n].decoded)
      case Err(_) =>
        MergeAllStable(os[..n], rejected, ids);
      case Ok(_) =>
        ElementsSnoc(q.merged, os[n].owner);
        MergeAllStable(os[..n], rejected, ids);
        var kept := KeepOwners(os, ids);
        assert kept[..|kept| - 1] == KeepOwners(os[..n], ids);
    }
  }

  // ------------------------------------------------------------------ the merged batch

  ghost function Views(os: seq<OwnerBatch>): seq<Consumed> {
    if os == [] then [] else Views(os[..|os| - 1]) + View(os[|os| - 1].decoded)
  }

  ghost function Sizes(codec: RecordCodec, os: seq<OwnerBatch>): nat {
    if os == [] then 0
    else Sizes(codec, os[..|os| - 1]) + codec.DecodedSize(os[|os| - 1].decoded.records)
  }

  ghost predicate InStep(b: Inflated) {
    b.header.lastOffsetDelta + 1 == |b.records|
  }

  lemma CountWithinBudget(count: nat, size: nat)
    requires size >= 1
    ensures count * size >= count
  {
  }

  /** A decoded batch has as many records as its last offset delta says. */
  lemma DecodedInStep(codec: RecordCodec, batch: Deflated)
    requires codec.Lawful()
    requires Decode(codec, batch).Ok?
    ensures InStep(Decode(codec, batch).value)
    ensures Inflate(codec, batch) == Ok(Decode(codec, batch).value)
    ensures Decode(codec, batch).value.header.attributes == DecodedAttributes(batch.header.attributes)
  {
    var b := Decode(codec, batch).value;
    assert |b.records| == batch.recordCount;
    CountWithinBudget(batch.recordCount, codec.recordSize);
  }

  ghost predicate AllMerge(os: seq<OwnerBatch>) {
    os != [] ==> |MergeAll(os, map[]).merged| >= |os|
  }

  /** Owners that all merge: so do all but the last, and the last one appends. */
  lemma AllMergeButLast(os: seq<OwnerBatch>)
    requires |os| >= 2 && AllMerge(os)
    ensures
      var n := |os| - 1;
      var sink := MergeAll(os[..n], map[]).sink;
      && AllMerge(os[..n])
      && AppendRebased(sink, os[n].decoded) == Ok(MergeAll(os, map[]).sink)
  {
    MergedAtMost(os[..|os| - 1], map[]);
  }

  /** Merging owners that all append adds up their sizes and offset ranges. */
  lemma {:induction false} MergeAllAddsUp(codec: RecordCodec, os: seq<OwnerBatch>)
    requires os != [] && AllMerge(os)
    requires forall k :: 0 <= k < |os| ==> InStep(os[k].decoded)
    ensures
      var sink := MergeAll(os, map[]).sink;
      && InStep(sink)
      && sink.header.attributes == os[0].decoded.header.attributes
      && codec.DecodedSize(sink.records) == Sizes(codec, os)
  {
    var n := |os| - 1;
    if n == 0 {
      assert os[..n] == [];
    } else {
      AllMergeButLast(os);
      var sink := MergeAll(os[..n], map[]).sink;
      MergeAllAddsUp(codec, os[..n]);
      AppendRebasedHeader(sink, os[n].decoded);
      AppendRebasedDecodedSize(codec, sink, os[n].decoded);
    }
  }

  /** The merged batch carries the first owner's attributes. */
  lemma {:induction false} MergeAllAttributes(os: seq<OwnerBatch>)
    requires os != [] && AllMerge(os)
    ensures MergeAll(os, map[]).sink.header.attributes == os[0].decoded.header.attributes
  {
    if |os| > 1 {
      AllMergeButLast(os);
      MergeAllAttributes(os[..|os| - 1]);
    }
  }

  /** ... and reads as their records one after another. */
  lemma {:induction false} MergeAllView(os: seq<OwnerBatch>)
    requires os != [] && AllMerge(os)
    requires forall k :: 0 <= k < |os| ==> TimestampTypeOf(os[k].decoded.header.attributes) == CreateTime
    ensures View(MergeAll(os, map[]).sink) == Views(os)
  {
    var n := |os| - 1;
    if n == 0 {
      assert os[..n] == [];
    } else {
      AllMergeButLast(os);
      MergeAllAttributes(os[..n]);
      MergeAllView(os[..n]);
      var before := MergeAll(os[..n], map[]).sink;
      AppendRebasedView(before, os[n].decoded);
      assert MergeAll(os, map[]).sink == AppendRebased(before, os[n].decoded).value;
    }
  }

  /** ... at offsets without a gap, when each batch had none. */
  lemma {:induction false} MergeAllContiguous(codec: RecordCodec, os: seq<OwnerBatch>)
    requires os != [] && AllMerge(os)
    requires forall k :: 0 <= k < |os| ==> Contiguous(os[k].decoded)
    requires forall k :: 0 <= k < |os| ==> InStep(os[k].decoded)
    ensures Contiguous(MergeAll(os, map[]).sink)
  {
    var n := |os| - 1;
    if n != 0 {
      AllMergeButLast(os);
      MergeAllContiguous(codec, os[..n]);
      MergeAllAddsUp(codec, os[..n]);
      AppendRebasedContiguous(MergeAll(os[..n], map[]).sink, os[n].decoded);
    }
  }

  lemma {:induction false} MergedAtMost(os: seq<OwnerBatch>, rejected: map<Uuid, BatchRejection>)
    requires os != []
    ensures |MergeAll(os, rejected).merged| <= |os|
  {
    if |os| > 1 {
      MergedAtMost(os[..|os| - 1], rejected);
    }
  }

  lemma {:induction false} ReadSent(codec: RecordCodec, os: seq<OwnerBatch>)
    requires codec.Lawful() && Faithful(codec, os)
    ensures ReadAll(codec, Sent(os)) == Views(os)
    ensures DecodedSizeAll(codec, Sent(os)) == Sizes(codec, os)
  {
    if os != [] {
      var n := |os| - 1;
      ReadSent(codec, os[..n]);
      assert Sent(os)[..n] == Sent(os[..n]);
      DecodedInStep(codec, os[n].asSent);
    }
  }

  // ------------------------------------------------------------------ main results

  ghost function Decoded(codec: RecordCodec, batches: seq<OwnedBatch>): DecodePass {
    DecodeAll(codec, batches, Repeated(batches))
  }

  ghost function AcceptedIds(codec: RecordCodec, batches: seq<OwnedBatch>): set<Uuid> {
    Owners(batches) - Combining(codec, batches).rejected.Keys
  }

  /** The decoded batches of the accepted owners. */
  ghost function Merged(codec: RecordCodec, batches: seq<OwnedBatch>): seq<OwnerBatch> {
    KeepOwners(Decoded(codec, batches).owners, AcceptedIds(codec, batches))
  }

  lemma RepeatedCounts(batches: seq<OwnedBatch>)
    ensures forall o :: o !in Repeated(batches) ==> Count(batches, o) <= 1
    ensures Repeated(batches).Keys <= Owners(batches)
  {
    forall o | o !in Repeated(batches) ensures Count(batches, o) <= 1 {
      CountZero(batches, o);
    }
  }

  /** What is forwarded for owners `kept` whose batches all merge. */
  ghost predicate Forwards(codec: RecordCodec, kept: seq<OwnerBatch>, forwarded: seq<Deflated>) {
    && (kept == [] ==> forwarded == [])
    && (kept != [] ==> |MergeAll(kept, map[]).merged| == |kept| && MergeAll(kept, map[]).rejected == map[])
    && (|kept| == 1 ==> forwarded == [kept[0].asSent])
    && (|kept| >= 2 ==>
          && Deflate(codec, MergeAll(kept, map[]).sink).Ok?
          && forwarded == [Deflate(codec, MergeAll(kept, map[]).sink).value])
  }

  ghost predicate HasShape(codec: RecordCodec, os: seq<OwnerBatch>, rejected: map<Uuid, BatchRejection>, c: Combined) {
    && rejected.Keys <= c.rejected.Keys <= rejected.Keys + Ids(os)
    && Forwards(codec, KeepOwners(os, Ids(os) - c.rejected.Keys), c.forwarded)
  }

  /** A merged batch that does not encode rejects every owner in it. */
  lemma MergingFails(codec: RecordCodec, os: seq<OwnerBatch>, rejected: map<Uuid, BatchRejection>)
    requires os != [] && Distinct(os)
    requires Ids(os) !! rejected.Keys
    requires |MergeAll(os, rejected).merged| >= 2 && Deflate(codec, MergeAll(os, rejected).sink).Err?
    ensures HasShape(codec, os, rejected, Merging(codec, os, rejected))
  {
    MergeAllSorts(os, rejected);
    var m := MergeAll(os, rejected);
    assert forall o :: o in Elements(m.merged) <==> o in m.merged;
    assert Merging(codec, os, rejected).rejected.Keys == rejected.Keys + Ids(os);
    assert Ids(os) - (rejected.Keys + Ids(os)) == {};
    KeepNoOwner(os);
  }

  lemma MergingSucceeds(codec: RecordCodec, os: seq<OwnerBatch>, rejected: map<Uuid, BatchRejection>)
    requires os != [] && Distinct(os)
    requires Ids(os) !! rejected.Keys
    requires |MergeAll(os, rejected).merged| < 2 || Deflate(codec, MergeAll(os, rejected).sink).Ok?
    ensures HasShape(codec, os, rejected, Merging(codec, os, rejected))
  {
    MergeAllSorts(os, rejected);
    var m := MergeAll(os, rejected);
    assert Merging(codec, os, rejected).rejected == m.rejected;
    assert Ids(os) - m.rejected.Keys == Elements(m.merged);
    MergeAllStable(os, rejected, Elements(m.merged));
  }

  /** Merging forwards exactly what merging the owners that are not rejected forwards. */
  lemma MergingShape(codec: RecordCodec, os: seq<OwnerBatch>, rejected: map<Uuid, BatchRejection>)
    requires Distinct(os)
    requires Ids(os) !! rejected.Keys
    ensures HasShape(codec, os, rejected, Merging(codec, os, rejected))
  {
    if os != [] {
      if |MergeAll(os, rejected).merged| >= 2 && Deflate(codec, MergeAll(os, rejected).sink).Err? {
        MergingFails(codec, os, rejected);
      } else {
        MergingSucceeds(codec, os, rejected);
      }
    }
  }

  lemma {:induction false} KeepNoOwner(os: seq<OwnerBatch>)
    ensures KeepOwners(os, {}) == []
  {
    if os != [] {
      KeepNoOwner(os[..|os| - 1]);
    }
  }

  /**
   Several owners: the accepted batches are those of the owners whose batches all merge, and what
   is forwarded is what merging them alone forwards.
   */
  lemma CombiningShape(codec: RecordCodec, batches: seq<OwnedBatch>)
    requires !OneOwner(batches)
    ensures
      var c := Combining(codec, batches);
      var os := Merged(codec, batches);
      && c.rejected.Keys <= Owners(batches)
      && Accepted(codec, batches) == Sent(os)
      && Distinct(os) && Faithful(codec, os)
      && Forwards(codec, os, c.forwarded)
  {
    var c := Combining(codec, batches);
    var p := Decoded(codec, batches);
    var ids := AcceptedIds(codec, batches);
    RepeatedCounts(batches);
    DecodeAllSorts(codec, batches, Repeated(batches));
    MergingShape(codec, p.owners, p.rejected);
    assert ids == Ids(p.owners) - c.rejected.Keys;
    KeepDecoded(codec, batches, Repeated(batches), ids);
    KeepOwnersKeeps(codec, p.owners, ids);
  }

  /** Every owner is either rejected or accepted, and something is forwarded exactly when one is accepted. */
  lemma CombinePartitionsOwners(codec: RecordCodec, batches: seq<OwnedBatch>)
    ensures
      var c := Combining(codec, batches);
      && Owners(Accepted(codec, batches)) + c.rejected.Keys == Owners(batches)
      && Owners(Accepted(codec, batches)) !! c.rejected.Keys
      && (c.forwarded == [] <==> Accepted(codec, batches) == [])
      && (!OneOwner(batches) ==> |c.forwarded| <= 1)
  {
    var c := Combining(codec, batches);
    KeptOwners(batches, AcceptedIds(codec, batches));
    if OneOwner(batches) {
      KeepAll(batches, AcceptedIds(codec, batches));
    } else {
      CombiningShape(codec, batches);
    }
  }

  lemma {:induction false} KeptOwners(batches: seq<OwnedBatch>, ids: set<Uuid>)
    ensures Owners(Keep(batches, ids)) == Owners(batches) * ids
  {
    if batches != [] {
      var n := |batches| - 1;
      KeptOwners(batches[..n], ids);
      OwnersPrefix(batches);
      if batches[n].owner in ids {
        var kept := Keep(batches, ids);
        OwnersPrefix(kept);
        assert kept[..|kept| - 1] == Keep(batches[..n], ids);
      }
    }
  }

  /**
   A rejected owner never alters what is forwarded for the others: combining the accepted owners'
   batches alone forwards the identical batches and rejects nobody.
   */
  lemma CombineStable(codec: RecordCodec, batches: seq<OwnedBatch>)
    ensures Combining(codec, Accepted(codec, batches)) == Combined(Combining(codec, batches).forwarded, map[])
  {
    if OneOwner(batches) {
      KeepAll(batches, AcceptedIds(codec, batches));
    } else {
      CombiningShape(codec, batches);
      var os := Merged(codec, batches);
      var sent := Sent(os);
      if |os| <= 1 {
        assert AsSent(sent) == Combining(codec, batches).forwarded;
      } else {
        assert sent[0].owner != sent[1].owner;
        assert Repeated(sent) == map[] by {
          forall o ensures Count(sent, o) <= 1 { SentCounts(os, o); }
        }
        DecodeSent(codec, os);
      }
    }
  }

  /** The decoded batches of accepted owners are in step, and keep the timestamp type they were sent with. */
  lemma FaithfulInStep(codec: RecordCodec, os: seq<OwnerBatch>)
    requires codec.Lawful() && Faithful(codec, os)
    ensures forall k :: 0 <= k < |os| ==>
              && InStep(os[k].decoded)
              && TimestampTypeOf(os[k].decoded.header.attributes) == TimestampTypeOf(os[k].asSent.header.attributes)
              && Inflate(codec, os[k].asSent) == Ok(os[k].decoded)
              && os[k].decoded.header.attributes == DecodedAttributes(os[k].asSent.header.attributes)
  {
    forall k | 0 <= k < |os|
      ensures InStep(os[k].decoded)
      ensures TimestampTypeOf(os[k].decoded.header.attributes) == TimestampTypeOf(os[k].asSent.header.attributes)
      ensures Inflate(codec, os[k].asSent) == Ok(os[k].decoded)
      ensures os[k].decoded.header.attributes == DecodedAttributes(os[k].asSent.header.attributes)
    {
      DecodedInStep(codec, os[k].asSent);
    }
  }

  /** What forwarding the owners `os` means, in terms of what they sent. */
  ghost predicate Means(codec: RecordCodec, d: Deflated, accepted: seq<OwnedBatch>) {
    var read := Inflate(codec, d);
    && d.header.lastOffsetDelta + 1 == d.recordCount
    && (read.Ok? <==> |accepted| == 1 || DecodedSizeAll(codec, accepted) <= MAX_DECODED_BATCH_BYTES)
    && (read.Err? ==> read.error == MessageMaxSizeExceeded)
    && (read.Ok? && AllCreateTime(accepted) ==> View(read.value) == ReadAll(codec, accepted))
    && (read.Ok? && AllContiguous(codec, accepted) ==> Contiguous(read.value))
  }

  /** The merge of all of `os`, in terms of what they sent. */
  lemma SinkMeans(codec: RecordCodec, os: seq<OwnerBatch>)
    requires codec.Lawful() && Faithful(codec, os)
    requires os != [] && |MergeAll(os, map[]).merged| == |os|
    ensures
      var sink := MergeAll(os, map[]).sink;
      && InStep(sink)
      && CompressionOf(sink.header.attributes) == Ok(Uncompressed)
      && codec.DecodedSize(sink.records) == DecodedSizeAll(codec, Sent(os))
      && (AllCreateTime(Sent(os)) ==> View(sink) == ReadAll(codec, Sent(os)))
      && (AllContiguous(codec, Sent(os)) ==> Contiguous(sink))
  {
    ReadSent(codec, os);
    FaithfulInStep(codec, os);
    MergeAllAddsUp(codec, os);
    if AllCreateTime(Sent(os)) {
      SentCreateTime(codec, os);
      MergeAllView(os);
    }
    if AllContiguous(codec, Sent(os)) {
      SentContiguous(codec, os);
      MergeAllContiguous(codec, os);
    }
  }

  lemma SentCreateTime(codec: RecordCodec, os: seq<OwnerBatch>)
    requires codec.Lawful() && Faithful(codec, os)
    requires AllCreateTime(Sent(os))
    ensures forall k :: 0 <= k < |os| ==> TimestampTypeOf(os[k].decoded.header.attributes) == CreateTime
  {
    FaithfulInStep(codec, os);
    forall k | 0 <= k < |os| ensures TimestampTypeOf(os[k].decoded.header.attributes) == CreateTime {
      assert Sent(os)[k].batch == os[k].asSent;
    }
  }

  lemma SentContiguous(codec: RecordCodec, os: seq<OwnerBatch>)
    requires codec.Lawful() && Faithful(codec, os)
    requires AllContiguous(codec, Sent(os))
    ensures forall k :: 0 <= k < |os| ==> Contiguous(os[k].decoded)
  {
    FaithfulInStep(codec, os);
    forall k | 0 <= k < |os| ensures Contiguous(os[k].decoded) {
      assert Inflate(codec, Sent(os)[k].batch) == Ok(os[k].decoded);
    }
  }

  lemma ForwardsOne(codec: RecordCodec, o: OwnerBatch)
    requires codec.Lawful() && Faithful(codec, [o])
    ensures Means(codec, o.asSent, Sent([o]))
  {
    SinkMeans(codec, [o]);
    FaithfulInStep(codec, [o]);
    assert Inflate(codec, o.asSent) == Ok(o.decoded) && InStep(o.decoded);
    assert |o.decoded.records| == o.asSent.recordCount;
  }

  lemma ForwardsMeans(codec: RecordCodec, os: seq<OwnerBatch>, forwarded: seq<Deflated>)
    requires codec.Lawful() && Faithful(codec, os)
    requires os != [] && Forwards(codec, os, forwarded)
    ensures |forwarded| == 1 && Means(codec, forwarded[0], Sent(os))
  {
    if |os| == 1 {
      assert os == [os[0]];
      ForwardsOne(codec, os[0]);
    } else {
      SinkMeans(codec, os);
      InflateDeflateView(codec, MergeAll(os, map[]).sink);
    }
  }

  /**
   Several owners: the one forwarded batch has an offset range that matches its record count, and
   it decodes exactly when it is one owner's own batch or the accepted owners' records are
   together within the decode budget. A consumer then reads the accepted owners' records, in
   queue order, each with the payload and the timestamp it was sent with.
   */
  lemma CombineMeaning(codec: RecordCodec, batches: seq<OwnedBatch>)
    requires codec.Lawful()
    requires !OneOwner(batches)
    requires Combining(codec, batches).forwarded != []
    ensures Means(codec, Combining(codec, batches).forwarded[0], Accepted(codec, batches))
  {
    CombiningShape(codec, batches);
    ForwardsMeans(codec, Merged(codec, batches), Combining(codec, batches).forwarded);
  }

  // ------------------------------------------------------------------ the merged header

  /** Merging keeps the first owner's header but for the offset range and the maximum timestamp, which covers everyone's. */
  lemma {:induction false} MergeAllHeader(os: seq<OwnerBatch>)
    requires os != [] && AllMerge(os)
    ensures
      var sink, first := MergeAll(os, map[]).sink.header, os[0].decoded.header;
      && sink == first.(lastOffsetDelta := sink.lastOffsetDelta, maxTimestamp := sink.maxTimestamp)
      && (forall k :: 0 <= k < |os| ==> os[k].decoded.header.maxTimestamp <= sink.maxTimestamp)
      && (exists k :: 0 <= k < |os| && os[k].decoded.header.maxTimestamp == sink.maxTimestamp)
  {
    var n := |os| - 1;
    if n > 0 {
      AllMergeButLast(os);
      MergeAllHeader(os[..n]);
      var before := MergeAll(os[..n], map[]).sink;
      AppendRebasedHeader(before, os[n].decoded);
      var k :| 0 <= k < n && os[..n][k].decoded.header.maxTimestamp == before.header.maxTimestamp;
      assert os[k].decoded.header.maxTimestamp == before.header.maxTimestamp;
      assert forall j :: 0 <= j < n ==> os[..n][j] == os[j];
    }
  }

  /**
   The header of what is forwarded for `accepted`. Of a merge it is the first one's, with the compression
   and the unused attribute bits cleared, the largest maximum timestamp, and its own offset range,
   length and checksum.
   */
  ghost predicate Headed(codec: RecordCodec, d: Deflated, accepted: seq<OwnedBatch>) {
    && accepted != []
    && if |accepted| == 1 then d == accepted[0].batch
       else
         var first := accepted[0].batch.header;
         && d.header == first.(attributes := first.attributes.(compression := 0, unused := 0),
                               lastOffsetDelta := d.header.lastOffsetDelta,
                               maxTimestamp := d.header.maxTimestamp,
                               batchLength := d.header.batchLength,
                               crc := d.header.crc)
         && Sealed(codec, d)
         && (forall k :: 0 <= k < |accepted| ==> accepted[k].batch.header.maxTimestamp <= d.header.maxTimestamp)
         && (exists k :: 0 <= k < |accepted| && accepted[k].batch.header.maxTimestamp == d.header.maxTimestamp)
  }

  predicate DecodedHeader(o: OwnerBatch) {
    o.decoded.header == o.asSent.header.(attributes := DecodedAttributes(o.asSent.header.attributes))
  }

  lemma DecodeHeader(codec: RecordCodec, o: OwnerBatch)
    requires Decode(codec, o.asSent) == Ok(o.decoded)
    ensures DecodedHeader(o)
  {
  }

  lemma ForwardsHeaded(codec: RecordCodec, os: seq<OwnerBatch>, forwarded: seq<Deflated>)
    requires Faithful(codec, os) && os != [] && Forwards(codec, os, forwarded)
    ensures |forwarded| == 1 && Headed(codec, forwarded[0], Sent(os))
  {
    var sent := Sent(os);
    assert forall k :: 0 <= k < |os| ==> sent[k].batch == os[k].asSent;
    if |os| > 1 {
      forall k | 0 <= k < |os| ensures DecodedHeader(os[k]) {
        DecodeHeader(codec, os[k]);
      }
      MergeAllHeader(os);
      DeflateIff(codec, MergeAll(os, map[]).sink);
      var sink := MergeAll(os, map[]).sink.header;
      var k :| 0 <= k < |os| && os[k].decoded.header.maxTimestamp == sink.maxTimestamp;
      assert sent[k].batch.header.maxTimestamp == sink.maxTimestamp;
    }
  }

  /** Several owners: the header of the one forwarded batch. */
  lemma CombineHeader(codec: RecordCodec, batches: seq<OwnedBatch>)
    requires !OneOwner(batches)
    requires Combining(codec, batches).forwarded != []
    ensures Headed(codec, Combining(codec, batches).forwarded[0], Accepted(codec, batches))
  {
    CombiningShape(codec, batches);
    ForwardsHeaded(codec, Merged(codec, batches), Combining(codec, batches).forwarded);
  }

  // ------------------------------------------------------------------ who is rejected, and why

  /** The decode pass gives each owner with one batch the verdict of that batch. */
  lemma {:induction false} DecodeAllVerdicts(codec: RecordCodec, batches: seq<OwnedBatch>,
                                             repeated: map<Uuid, BatchRejection>, i: nat)
    requires i < |batches|
    requires forall o :: o !in repeated ==> Count(batches, o) <= 1
    requires batches[i].owner !in repeated
    ensures
      var p := DecodeAll(codec, batches, repeated);
      match Decode(codec, batches[i].batch)
      case Ok(_) => batches[i].owner in Ids(p.owners)
      case Err(r) => batches[i].owner in p.rejected && p.rejected[batches[i].owner] == r
  {
    var n := |batches| - 1;
    var q := DecodeAll(codec, batches[..n], repeated);
    var OwnedBatch(owner, batch) := batches[n];
    DecodeAllSorts(codec, batches[..n], repeated);
    CountZero(batches[..n], owner);
    if i < n {
      DecodeAllVerdicts(codec, batches[..n], repeated, i);
      assert batches[..n][i].owner in Owners(batches[..n]);
    }
    if owner !in q.rejected && Decode(codec, batch).Ok? {
      Snoc(q.owners, OwnerBatch(owner, batch, Decode(codec, batch).value));
    }
  }

  /**
   Several owners: an owner with several batches is rejected for that; an owner whose only batch
   does not decode is rejected with the reason of that batch; any other owner is rejected only
   because its batch does not append, or because the merged batch does not encode.
   */
  lemma CombineReasons(codec: RecordCodec, batches: seq<OwnedBatch>, i: nat)
    requires !OneOwner(batches)
    requires i < |batches|
    ensures
      var rejected := Combining(codec, batches).rejected;
      var OwnedBatch(owner, batch) := batches[i];
      if Count(batches, owner) > 1 then
        owner in rejected && rejected[owner] == MultipleBatches(Count(batches, owner))
      else
        match Decode(codec, batch)
        case Err(r) => owner in rejected && rejected[owner] == r
        case Ok(_) => owner in rejected ==> rejected[owner].Unappendable? || rejected[owner].Unencodable?
  {
    var owner := batches[i].owner;
    var p := Decoded(codec, batches);
    RepeatedCounts(batches);
    DecodeAllSorts(codec, batches, Repeated(batches));
    if owner !in Repeated(batches) {
      DecodeAllVerdicts(codec, batches, Repeated(batches), i);
    }
    MergingReasons(codec, p.owners, p.rejected, owner);
  }

  lemma MergingReasons(codec: RecordCodec, os: seq<OwnerBatch>, rejected: map<Uuid, BatchRejection>, o: Uuid)
    requires Distinct(os)
    requires Ids(os) !! rejected.Keys
    ensures
      var after := Merging(codec, os, rejected).rejected;
      && (o in rejected ==> o in after && after[o] == rejected[o])
      && (o in after && o !in rejected ==> after[o].Unappendable? || after[o].Unencodable?)
  {
    if os != [] {
      MergeAllSorts(os, rejected);
      var m := MergeAll(os, rejected);
      assert forall x :: x in m.merged ==> x in Elements(m.merged);
    }
  }

  /** The number of records the batches claim together. */
  function RecordTotal(batches: seq<OwnedBatch>): nat {
    if batches == [] then 0
    else RecordTotal(batches[..|batches| - 1]) + batches[|batches| - 1].batch.recordCount
  }

  ghost function MergedTotal(os: seq<OwnerBatch>): nat {
    if os == [] then 0 else MergedTotal(os[..|os| - 1]) + |os[|os| - 1].decoded.records|
  }

  /**
   Batches that each decode, with nobody rejected, merge into one that does not if their decoded sizes
   add up to too much.
   */
  lemma MergedTooLarge(codec: RecordCodec, batches: seq<OwnedBatch>, i: nat)
    requires codec.Lawful() && !OneOwner(batches) && i < |batches|
    requires Combining(codec, batches).rejected == map[]
    requires DecodedSizeAll(codec, batches) > MAX_DECODED_BATCH_BYTES
    ensures Decode(codec, batches[i].batch).Ok?
    ensures Combining(codec, batches).forwarded != []
    ensures Inflate(codec, Combining(codec, batches).forwarded[0]) == Err(MessageMaxSizeExceeded)
  {
    CombineReasons(codec, batches, i);
    NobodyRejected(codec, batches);
    CombinePartitionsOwners(codec, batches);
    CombineMeaning(codec, batches);
  }

  lemma NobodyRejected(codec: RecordCodec, batches: seq<OwnedBatch>)
    requires Combining(codec, batches).rejected == map[]
    ensures Accepted(codec, batches) == batches
  {
    KeepAll(batches, AcceptedIds(codec, batches));
  }

  /** Contiguous batches append as long as the records fit in an `i32`. */
  lemma {:induction false} FittingOwnersMerge(os: seq<OwnerBatch>, rejected: map<Uuid, BatchRejection>)
    requires os != [] && MergedTotal(os) <= I32_MAX
    requires forall k :: 0 <= k < |os| ==> Contiguous(os[k].decoded) && InStep(os[k].decoded)
    ensures
      var m := MergeAll(os, rejected);
      m.rejected == rejected && InStep(m.sink) && |m.sink.records| == MergedTotal(os)
  {
    var n := |os| - 1;
    if n == 0 {
      assert MergedTotal(os[..0]) == 0;
    } else {
      FittingOwnersMerge(os[..n], rejected);
      var q := MergeAll(os[..n], rejected);
      AppendRebasedFails(q.sink, os[n].decoded);
      AppendRebasedHeader(q.sink, os[n].decoded);
    }
  }

  lemma MergedTotalSnoc(os: seq<OwnerBatch>, x: OwnerBatch)
    ensures MergedTotal(os + [x]) == MergedTotal(os) + |x.decoded.records|
  {
    assert (os + [x])[..|os|] == os;
  }

  lemma DecodedRecords(codec: RecordCodec, batch: Deflated)
    requires codec.Lawful() && Decode(codec, batch).Ok?
    ensures |Decode(codec, batch).value.records| == batch.recordCount
  {
    InflateIff(codec, batch);
  }

  lemma {:induction false} DecodedTotal(codec: RecordCodec, batches: seq<OwnedBatch>,
                                        repeated: map<Uuid, BatchRejection>)
    requires codec.Lawful()
    ensures MergedTotal(DecodeAll(codec, batches, repeated).owners) <= RecordTotal(batches)
  {
    if batches != [] {
      var n := |batches| - 1;
      DecodedTotal(codec, batches[..n], repeated);
      var q := DecodeAll(codec, batches[..n], repeated);
      if batches[n].owner !in q.rejected && Decode(codec, batches[n].batch).Ok? {
        var OwnedBatch(owner, batch) := batches[n];
        MergedTotalSnoc(q.owners, OwnerBatch(owner, batch, Decode(codec, batch).value));
        DecodedRecords(codec, batch);
      }
    }
  }

  lemma {:induction false} DecodedFrom(codec: RecordCodec, batches: seq<OwnedBatch>,
                                       repeated: map<Uuid, BatchRejection>, k: nat)
    requires k < |DecodeAll(codec, batches, repeated).owners|
    ensures
      var o := DecodeAll(codec, batches, repeated).owners[k];
      OwnedBatch(o.owner, o.asSent) in batches
  {
    if batches != [] {
      var n := |batches| - 1;
      var q := DecodeAll(codec, batches[..n], repeated);
      if k < |q.owners| {
        DecodedFrom(codec, batches[..n], repeated, k);
      } else {
        assert OwnedBatch(batches[n].owner, batches[n].batch) == batches[n];
      }
    }
  }

  lemma DecodedContiguous(codec: RecordCodec, batches: seq<OwnedBatch>, repeated: map<Uuid, BatchRejection>)
    requires codec.Lawful() && AllContiguous(codec, batches)
    requires Faithful(codec, DecodeAll(codec, batches, repeated).owners)
    ensures
      var os := DecodeAll(codec, batches, repeated).owners;
      forall k :: 0 <= k < |os| ==> Contiguous(os[k].decoded) && InStep(os[k].decoded)
  {
    var os := DecodeAll(codec, batches, repeated).owners;
    forall k | 0 <= k < |os|
      ensures Contiguous(os[k].decoded) && InStep(os[k].decoded)
    {
      DecodedFrom(codec, batches, repeated, k);
      DecodedInStep(codec, os[k].asSent);
      var i :| 0 <= i < |batches| && batches[i] == OwnedBatch(os[k].owner, os[k].asSent);
      assert Inflate(codec, batches[i].batch) == Ok(os[k].decoded);
    }
  }

  lemma DecodeRejection(codec: RecordCodec, batch: Deflated)
    ensures Decode(codec, batch).Err? ==>
              Decode(codec, batch).error.OffsetRange? || Decode(codec, batch).error.Undecodable?
  {
  }

  /**
   When the offsets of every batch are 0, 1, 2, ... and all the records together number at most
   2^31 - 1, no batch fails to append.
   */
  lemma FittingBatchesAppend(codec: RecordCodec, batches: seq<OwnedBatch>, o: Uuid)
    requires codec.Lawful()
    requires AllContiguous(codec, batches) && RecordTotal(batches) <= I32_MAX
    requires o in Combining(codec, batches).rejected
    ensures !Combining(codec, batches).rejected[o].Unappendable?
  {
    var p := Decoded(codec, batches);
    RepeatedCounts(batches);
    DecodeAllSorts(codec, batches, Repeated(batches));
    DecodedTotal(codec, batches, Repeated(batches));
    DecodedContiguous(codec, batches, Repeated(batches));
    DecodeNeverUnappendable(codec, batches, Repeated(batches), o);
    if p.owners != [] {
      FittingOwnersMerge(p.owners, p.rejected);
    }
    OnlyEncodeRejects(codec, p.owners, p.rejected, o);
  }

  lemma OnlyEncodeRejects(codec: RecordCodec, os: seq<OwnerBatch>, rejected: map<Uuid, BatchRejection>, o: Uuid)
    requires os != [] ==> MergeAll(os, rejected).rejected == rejected
    requires o in Merging(codec, os, rejected).rejected
    requires o in rejected ==> !rejected[o].Unappendable?
    ensures !Merging(codec, os, rejected).rejected[o].Unappendable?
  {
  }

  lemma {:induction false} DecodeNeverUnappendable(codec: RecordCodec, batches: seq<OwnedBatch>,
                                                   repeated: map<Uuid, BatchRejection>, o: Uuid)
    requires o in repeated ==> !repeated[o].Unappendable?
    ensures
      o in DecodeAll(codec, batches, repeated).rejected
      ==> !DecodeAll(codec, batches, repeated).rejected[o].Unappendable?
  {
    if batches != [] {
      var n := |batches| - 1;
      DecodeNeverUnappendable(codec, batches[..n], repeated, o);
      DecodeRejection(codec, batches[n].batch);
    }
  }
}
