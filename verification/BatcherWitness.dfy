/**
 Runs of the batching protocol that show what it does not promise (nisshi-proxy/src/produce.rs:202-440,
 1049-1064): one leaves a request without an answer for good, one leaves the slot of a cancelled task in
 the response map for good, and one stores an answer and wakes nobody.
 */
module BatcherWitness {
  import opened Prelude
  import opened Records
  import opened Combiner
  import opened Requests
  import opened FanOut
  import opened FanProofs
  import opened Batcher
  import opened BatcherProofs

  const ORDERS := Topition("orders", 0)

  lemma UnbatchedEntries(id: Uuid)
    ensures Entries(Unbatched(id).request) == [Entry(ORDERS, None)]
  {
    var topics := [TopicProduceData("orders", Some([PartitionProduceData(0, None)]))];
    assert topics[..0] == [];
  }

  // ------------------------------------------------------------------ a request that is never answered

  const FORWARDS_NOTHING := ProduceRequest(None, ACKS_LEADER, 5000, Some([]))

  lemma UnbatchedSend(codec: RecordCodec, id: Uuid)
    ensures Mergeable(Unbatched(id).request)
    ensures IsSend(codec, Send([Unbatched(id)], FORWARDS_NOTHING, map[]))
  {
    var requests, none: CombinedRun := [Unbatched(id)], map[];
    UnbatchedEntries(id);
    forall t ensures CombinedGet(none, t) == Combining(codec, BatchesFor(requests, t)) {
      UnbatchedHasNone(id, t);
      BatchesOfOwner(id, Entries(Unbatched(id).request), t);
      assert requests[..0] == [] && BatchesFor(requests[..0], t) == [];
      assert BatchesFor(requests, t) == [];
      CombiningNothing(codec);
    }
    assert Entries(FORWARDS_NOTHING) == [];
  }

  lemma NothingSplits(requests: seq<BatchRequest>)
    ensures SplitOf(map[], requests, NO_PARTITIONS, map[])
  {
    assert Rows(NO_PARTITIONS) == [];
  }

  function WaitSubmitted(id: Uuid): State {
    Submitted(Initial(), id, Unbatched(id).request, true)
  }

  function WaitTaken(id: Uuid): State {
    TakenAll(WaitSubmitted(id), id, FORWARDS_NOTHING, map[])
  }

  lemma WaitSteps(codec: RecordCodec, id: Uuid)
    ensures Step(codec, Initial(), Submit(id, Unbatched(id).request, true), WaitSubmitted(id))
    ensures Step(codec, WaitSubmitted(id), TakeAll(id, FORWARDS_NOTHING, map[]), WaitTaken(id))
    ensures WaitTaken(id).log == [Send([Unbatched(id)], FORWARDS_NOTHING, map[])]
    ensures WaitTaken(id).outcomes == [InFlight] && WaitTaken(id).sends == map[id := 0]
    ensures WaitTaken(id).status == map[id := Taken(0)] && WaitTaken(id).polls == map[id := 0]
    ensures WaitTaken(id).active == {id}
  {
    UnbatchedSend(codec, id);
    assert WaitSubmitted(id).requests == [Unbatched(id)];
    assert [Unbatched(id)][0].id in RequestIds([Unbatched(id)]);
  }

  lemma WaitReplied(codec: RecordCodec, id: Uuid, next: State)
    requires WaitTaken(id).sends == map[id := 0] && |WaitTaken(id).log| == |WaitTaken(id).outcomes| == 1
    requires next == RepliedTo(WaitTaken(id), id, NO_PARTITIONS, map[])
    ensures Step(codec, WaitTaken(id), Reply(id, NO_PARTITIONS, map[]), next)
    ensures next.status == map[id := Unanswered(0)] && next.outcomes == [Replied(NO_PARTITIONS, map[])]
  {
    WaitSteps(codec, id);
    NothingSplits([Unbatched(id)]);
    assert [Unbatched(id)][0].id in RequestIds([Unbatched(id)]);
  }

  /**
   There is a run in which nothing fails, the origin is not even called, and that leaves a request without
   an answer in all of its continuations.
   */
  lemma SomeNeverAnswered(codec: RecordCodec, id: Uuid) returns (s: State)
    ensures Reachable(codec, s) && s.outcomes == [Replied(NO_PARTITIONS, map[])]
    ensures id in s.status && s.status[id] == Unanswered(0) && NeverAnswered(codec, s, id)
  {
    WaitSteps(codec, id);
    s := RepliedTo(WaitTaken(id), id, NO_PARTITIONS, map[]);
    WaitReplied(codec, id, s);
    ReachableInitial(codec);
    ReachableNext(codec, Initial(), Submit(id, Unbatched(id).request, true), WaitSubmitted(id));
    ReachableNext(codec, WaitSubmitted(id), TakeAll(id, FORWARDS_NOTHING, map[]), WaitTaken(id));
    ReachableNext(codec, WaitTaken(id), Reply(id, NO_PARTITIONS, map[]), s);
    FinalNeverAnswered(codec, s, id);
  }

  // ------------------------------------------------------------------ a slot that is never freed

  function LeakPolled(id: Uuid): State {
    WaitSubmitted(id).(responses := map[id := Waker], polls := map[id := 1])
  }

  lemma LeakSteps(codec: RecordCodec, id: Uuid)
    ensures Step(codec, WaitSubmitted(id), Poll(id), LeakPolled(id))
    ensures Step(codec, LeakPolled(id), Cancel(id), LeakPolled(id).(active := {}))
  {
    UnbatchedSend(codec, id);
    assert WaitSubmitted(id).active == {id} && WaitSubmitted(id).polls == map[id := 0];
  }

  /** There is a run in which a task polls and is cancelled, after which no continuation frees its slot. */
  lemma SomeNeverFreed(codec: RecordCodec, id: Uuid) returns (s: State)
    ensures Reachable(codec, s) && id in s.responses && NeverFreed(codec, s, id)
  {
    WaitSteps(codec, id);
    LeakSteps(codec, id);
    s := LeakPolled(id).(active := {});
    ReachableInitial(codec);
    ReachableNext(codec, Initial(), Submit(id, Unbatched(id).request, true), WaitSubmitted(id));
    ReachableNext(codec, WaitSubmitted(id), Poll(id), LeakPolled(id));
    ReachableNext(codec, LeakPolled(id), Cancel(id), s);
    LeakedNeverFreed(codec, s, id);
  }

  // ------------------------------------------------------------------ an answer that wakes nobody

  const A: Uuid := 0
  const B: Uuid := 1

  /** The request of `A`, which carries one batch for the partition that `B` lists too. */
  function Batched(batch: Deflated): BatchRequest {
    var topics := [TopicProduceData("orders", Some([PartitionProduceData(0, Some([batch]))]))];
    BatchRequest(A, ProduceRequest(None, ACKS_LEADER, 5000, Some(topics)))
  }

  function Both(batch: Deflated): seq<BatchRequest> {
    [Batched(batch), Unbatched(B)]
  }

  function BothCombined(batch: Deflated): CombinedRun {
    map["orders" := map[0 := Combined([batch], map[])]]
  }

  const ROW := PartitionProduceResponse(0, NO_ERROR, 0, None, None, None, None, None)

  const ORIGIN := ProduceResponse(Some([TopicProduceResponse("orders", Some([ROW]))]), Some(0), None)

  const ANSWERS: map<Uuid, ProduceResponse> := map[A := ORIGIN, B := ORIGIN]

  lemma BatchedEntries(batch: Deflated)
    ensures Entries(Batched(batch).request) == [Entry(ORDERS, Some([batch]))]
    ensures MergeableBatch(batch) ==> Mergeable(Batched(batch).request)
  {
    var partitions := [PartitionProduceData(0, Some([batch]))];
    var topics := [TopicProduceData("orders", Some(partitions))];
    assert topics[..0] == [] && TopicEntries(topics[..0]) == [];
    assert PartitionEntries("orders", partitions) == [Entry(ORDERS, Some([batch]))];
    assert TopicEntries(topics) == [Entry(ORDERS, Some([batch]))];
  }

  lemma BothBatches(batch: Deflated, t: Topition)
    ensures BatchesFor(Both(batch), t) == if t == ORDERS then [OwnedBatch(A, batch)] else []
  {
    var both := Both(batch);
    assert both[..1] == [both[0]] && both[..1][..0] == [];
    UnbatchedHasNone(B, t);
    BatchesOfOwner(B, Entries(Unbatched(B).request), t);
    BatchedEntries(batch);
    var entries := Entries(Batched(batch).request);
    assert entries[..0] == [];
    assert BatchesOf(A, entries[..0], t) == [];
    assert Own(A, [batch]) == [OwnedBatch(A, batch)];
    assert BatchesOf(A, entries, t) == if t == ORDERS then [OwnedBatch(A, batch)] else [];
    assert BatchesFor(both[..1][..0], t) == [];
    assert BatchesFor(both[..1], t) == BatchesOf(A, entries, t);
  }

  lemma BothPartition(codec: RecordCodec, batch: Deflated, t: Topition)
    ensures CombinedGet(BothCombined(batch), t) == Combining(codec, BatchesFor(Both(batch), t))
  {
    BothBatches(batch, t);
    if t == ORDERS {
      assert AsSent([OwnedBatch(A, batch)]) == [batch];
      assert CombinedGet(BothCombined(batch), t) == Combined([batch], map[]);
    } else {
      CombiningNothing(codec);
      assert CombinedGet(BothCombined(batch), t) == Combined([], map[]);
    }
  }

  lemma BothForwarded(batch: Deflated)
    ensures ForwardedBy(BothCombined(batch), Entries(Batched(batch).request))
    ensures Batched(batch).request.acks == BatchAcks(Both(batch))
  {
    BatchedEntries(batch);
    var entries := Entries(Batched(batch).request);
    assert entries[0].topition == ORDERS;
  }

  lemma BothSend(codec: RecordCodec, batch: Deflated)
    ensures IsSend(codec, Send(Both(batch), Batched(batch).request, BothCombined(batch)))
  {
    forall t ensures CombinedGet(BothCombined(batch), t) == Combining(codec, BatchesFor(Both(batch), t)) {
      BothPartition(codec, batch, t);
    }
    BothForwarded(batch);
  }

  lemma OriginRows()
    ensures Rows(ORIGIN) == [Answered(ORDERS, ROW)]
    ensures forall t :: LastRow(Rows(ORIGIN), t) == if t == ORDERS then Some(ROW) else None
  {
    var topics := [TopicProduceResponse("orders", Some([ROW]))];
    assert topics[..0] == [] && TopicRows(topics[..0]) == [];
    assert PartitionRows("orders", [ROW]) == [Answered(ORDERS, ROW)];
    assert TopicRows(topics) == [Answered(ORDERS, ROW)];
    assert Rows(ORIGIN)[..0] == [];
  }

  lemma BothListed(batch: Deflated, t: Topition)
    ensures ListedBy(Both(batch), t) == if t == ORDERS then {A, B} else {}
  {
    BatchedEntries(batch);
    UnbatchedEntries(B);
    var both := Both(batch);
    assert Entries(both[0].request)[0].topition == ORDERS && Entries(both[1].request)[0].topition == ORDERS;
    assert t == ORDERS ==> both[0].id in ListedBy(both, t) && both[1].id in ListedBy(both, t);
  }

  lemma BothRow(batch: Deflated, o: Uuid, t: Topition)
    ensures AnswerRow(BothCombined(batch), Both(batch), Rows(ORIGIN), o, t)
            == if t == ORDERS && o in ANSWERS then Some(ROW) else None
  {
    OriginRows();
    BothListed(batch, t);
    assert CombinedGet(BothCombined(batch), t).rejected == map[];
  }

  lemma BothAnswers(batch: Deflated, o: Uuid)
    requires o in ANSWERS
    ensures Answers(BothCombined(batch), Both(batch), ORIGIN, o, ORIGIN)
  {
    OriginRows();
    forall t
      ensures AnswerRow(BothCombined(batch), Both(batch), Rows(ORIGIN), o, t) == if t == ORDERS then Some(ROW) else None
    {
      BothRow(batch, o, t);
    }
    assert Rows(ORIGIN)[0].topition == ORDERS;
  }

  lemma BothSplit(batch: Deflated)
    ensures SplitOf(BothCombined(batch), Both(batch), ORIGIN, ANSWERS)
  {
    forall o ensures o in ANSWERS <==> exists t :: AnswerRow(BothCombined(batch), Both(batch), Rows(ORIGIN), o, t).Some? {
      forall t {
        BothRow(batch, o, t);
      }
      assert o in ANSWERS <==> AnswerRow(BothCombined(batch), Both(batch), Rows(ORIGIN), o, ORDERS).Some?;
    }
    BothAnswers(batch, A);
    BothAnswers(batch, B);
  }

  function BothQueued(batch: Deflated): State {
    State(Both(batch), map[], {A, B}, map[], map[A := Queued, B := Queued], [], [], [], [], map[A := 0, B := 0])
  }

  function PolledOnce(batch: Deflated): State {
    BothQueued(batch).(responses := map[B := Waker], polls := map[A := 0, B := 1])
  }

  function PolledTwice(batch: Deflated): State {
    BothQueued(batch).(polls := map[A := 0, B := 2])
  }

  function BothTaken(batch: Deflated): State {
    TakenAll(PolledTwice(batch), A, Batched(batch).request, BothCombined(batch))
  }

  lemma BothSteps(codec: RecordCodec, batch: Deflated, submitted: State)
    requires MergeableBatch(batch) && submitted == Submitted(Initial(), A, Batched(batch).request, true)
    ensures Step(codec, Initial(), Submit(A, Batched(batch).request, true), submitted)
    ensures Step(codec, submitted, Submit(B, Unbatched(B).request, true), BothQueued(batch))
  {
    BatchedEntries(batch);
    UnbatchedSend(codec, B);
    assert [] + [Batched(batch)] == [Batched(batch)];
    assert submitted.requests == [Batched(batch)];
    assert [Batched(batch)] + [Unbatched(B)] == Both(batch);
  }

  lemma PollSteps(codec: RecordCodec, batch: Deflated)
    ensures Step(codec, BothQueued(batch), Poll(B), PolledOnce(batch))
    ensures Step(codec, PolledOnce(batch), Poll(B), PolledTwice(batch))
  {
  }

  lemma TakeStep(codec: RecordCodec, batch: Deflated)
    ensures Step(codec, PolledTwice(batch), TakeAll(A, Batched(batch).request, BothCombined(batch)), BothTaken(batch))
    ensures BothTaken(batch).responses == map[] && BothTaken(batch).sends == map[A := 0]
    ensures BothTaken(batch).log == [Send(Both(batch), Batched(batch).request, BothCombined(batch))]
  {
    BothSend(codec, batch);
  }

  /**
   For every codec and every mergeable batch, there is a run in which a task polls twice, the send of
   another task answers it, and there is no waker to wake it with, though its answer is stored.
   */
  lemma SomeUnwoken(codec: RecordCodec, batch: Deflated) returns (s: State, next: State)
    requires MergeableBatch(batch)
    ensures Reachable(codec, s) && Coherent(s) && Step(codec, s, Reply(A, ORIGIN, ANSWERS), next)
    ensures B in ANSWERS && B in s.polls && s.polls[B] == 2 && B !in s.responses && Ready(next.responses, B)
  {
    var submitted := Submitted(Initial(), A, Batched(batch).request, true);
    BothSteps(codec, batch, submitted);
    PollSteps(codec, batch);
    TakeStep(codec, batch);
    ReachableInitial(codec);
    ReachableNext(codec, Initial(), Submit(A, Batched(batch).request, true), submitted);
    ReachableNext(codec, submitted, Submit(B, Unbatched(B).request, true), BothQueued(batch));
    ReachableNext(codec, BothQueued(batch), Poll(B), PolledOnce(batch));
    ReachableNext(codec, PolledOnce(batch), Poll(B), PolledTwice(batch));
    s := BothTaken(batch);
    ReachableNext(codec, PolledTwice(batch), TakeAll(A, Batched(batch).request, BothCombined(batch)), s);
    ReachableCoherent(codec, s);
    next := ReplyStep(codec, batch);
  }

  lemma ReplyStep(codec: RecordCodec, batch: Deflated) returns (next: State)
    ensures Step(codec, BothTaken(batch), Reply(A, ORIGIN, ANSWERS), next)
    ensures Ready(next.responses, B)
    ensures B in BothTaken(batch).polls && BothTaken(batch).polls[B] == 2
  {
    TakeStep(codec, batch);
    BothSplit(batch);
    var taken := BothTaken(batch);
    assert |taken.log| == |taken.outcomes| == 1 && taken.polls == map[A := 0, B := 2];
    next := RepliedTo(taken, A, ORIGIN, ANSWERS);
    assert next.responses == Store(map[], A, ANSWERS);
  }
}
