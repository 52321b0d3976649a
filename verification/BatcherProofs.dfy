/**
 What every run of the batching protocol keeps (nisshi-proxy/src/produce.rs:202-297, 358-440,
 1049-1064).
 */
module BatcherProofs {
  import opened Prelude
  import opened Records
  import opened Combiner
  import opened CombinerProofs
  import opened Requests
  import opened QueueOrder
  import opened FanOut
  import opened FanProofs
  import opened AcksZero
  import opened Batcher

  // ------------------------------------------------------------------ the invariant

  /** A request's status agrees with the outcome of its send. */
  predicate Fits(id: Uuid, status: Status, outcome: Outcome) {
    match status
    case Queued => false
    case Taken(_) => outcome.InFlight?
    case Stored(_) => outcome.Replied? && id in outcome.answers
    case Delivered(_) => outcome.Replied? && id in outcome.answers
    case Unanswered(_) => outcome.Replied? && id !in outcome.answers
    case Dropped(_) => outcome.Lost?
  }

  /** The queue has exactly the requests with status `Queued`, each once. */
  ghost predicate QueueInv(requests: seq<BatchRequest>, status: map<Uuid, Status>) {
    && DistinctIds(requests)
    && (forall id :: id in RequestIds(requests) <==> id in status && status[id].Queued?)
  }

  /** Each send has exactly the requests with its index as status, each once. */
  ghost predicate LogInv(status: map<Uuid, Status>, log: seq<Send>, outcomes: seq<Outcome>) {
    && |log| == |outcomes|
    && (forall n :: 0 <= n < |log| ==> DistinctIds(log[n].requests))
    && (forall n, id :: 0 <= n < |log| ==>
          (id in RequestIds(log[n].requests) <==> id in status && !status[id].Queued? && status[id].n == n))
    && (forall id :: id in status && !status[id].Queued? ==> FitsAt(id, status[id], outcomes))
  }

  ghost predicate FitsAt(id: Uuid, status: Status, outcomes: seq<Outcome>)
    requires !status.Queued?
  {
    status.n < |outcomes| && Fits(id, status, outcomes[status.n])
  }

  /** Each send in flight has one caller. */
  ghost predicate CallInv(sends: map<Uuid, nat>, active: set<Uuid>, outcomes: seq<Outcome>) {
    && (forall c :: c in sends ==> c in active && sends[c] < |outcomes| && outcomes[sends[c]].InFlight?)
    && (forall c, d :: c in sends && d in sends && sends[c] == sends[d] ==> c == d)
  }

  /** The answer that `id` got with its send. */
  function AnswerOf(id: Uuid, status: Status, outcomes: seq<Outcome>): Option<ProduceResponse> {
    if !status.Queued? && status.n < |outcomes| && outcomes[status.n].Replied? && id in outcomes[status.n].answers
    then Some(outcomes[status.n].answers[id])
    else None
  }

  /** The response map has exactly the answers with status `Stored`. */
  ghost predicate SlotInv(responses: map<Uuid, Slot>, status: map<Uuid, Status>, outcomes: seq<Outcome>) {
    && responses.Keys <= status.Keys
    && (forall id :: id in status ==> (status[id].Stored? <==> id in responses && responses[id].Response?))
    && (forall id :: id in responses && responses[id].Response? ==>
          AnswerOf(id, status[id], outcomes) == Some(responses[id].response))
  }

  /** The deliveries are exactly the answers with status `Delivered`, each once. */
  ghost predicate DeliveryInv(deliveries: seq<Delivery>, active: set<Uuid>, status: map<Uuid, Status>,
                              outcomes: seq<Outcome>) {
    && (forall i, j :: 0 <= i < j < |deliveries| ==> deliveries[i].owner != deliveries[j].owner)
    && (forall i :: 0 <= i < |deliveries| ==> DeliveredRight(deliveries[i], active, status, outcomes))
    && (forall id :: id in status && status[id].Delivered? ==> DeliveredOnce(id, deliveries))
  }

  predicate DeliveredRight(d: Delivery, active: set<Uuid>, status: map<Uuid, Status>, outcomes: seq<Outcome>) {
    && d.owner in status && status[d.owner].Delivered? && d.owner !in active
    && AnswerOf(d.owner, status[d.owner], outcomes) == Some(d.response)
  }

  predicate DeliveredOnce(id: Uuid, deliveries: seq<Delivery>) {
    exists i :: 0 <= i < |deliveries| && deliveries[i].owner == id
  }

  /** Before its answer comes, a request has a waker in the map exactly if it was polled an odd number of times. */
  ghost predicate WakerInv(responses: map<Uuid, Slot>, status: map<Uuid, Status>, polls: map<Uuid, nat>) {
    && polls.Keys == status.Keys
    && forall id :: id in status && !status[id].Stored? && !status[id].Delivered? ==>
         (id in responses <==> polls[id] % 2 == 1)
  }

  ghost predicate SplitBack(send: Send, outcome: Outcome) {
    outcome.Replied? ==>
      && SplitOf(send.combined, send.requests, outcome.origin, outcome.answers)
      && (Sendless(send.forwarded) ==> outcome.origin == NO_PARTITIONS)
  }

  ghost predicate AllMergeable(requests: seq<BatchRequest>) {
    forall i :: 0 <= i < |requests| ==> Mergeable(requests[i].request)
  }

  /** What went out was combined from mergeable requests, and what came back was split by owner. */
  ghost predicate SendInv(codec: RecordCodec, log: seq<Send>, outcomes: seq<Outcome>) {
    && |log| == |outcomes|
    && (forall n :: 0 <= n < |log| ==> IsSend(codec, log[n]) && AllMergeable(log[n].requests))
    && (forall n :: 0 <= n < |log| ==> SplitBack(log[n], outcomes[n]))
  }

  /** The origin gets each send at most once, and nothing at `acks=0`. */
  ghost predicate TrafficInv(log: seq<Send>, origin: seq<Outgoing>) {
    && (forall i :: 0 <= i < |origin| ==> origin[i].request.acks != ACKS_NONE)
    && (forall i :: 0 <= i < |origin| && origin[i].FromSend? ==>
          origin[i].n < |log| && origin[i].request == log[origin[i].n].forwarded)
    && (forall i, j :: 0 <= i < j < |origin| && origin[i].FromSend? && origin[j].FromSend? ==> origin[i].n != origin[j].n)
    && (forall n :: 0 <= n < |log| ==> (FromSend(n, log[n].forwarded) in origin <==> !Sendless(log[n].forwarded)))
  }

  ghost predicate Inv(s: State) {
    && s.active <= s.status.Keys
    && QueueInv(s.requests, s.status)
    && LogInv(s.status, s.log, s.outcomes)
    && CallInv(s.sends, s.active, s.outcomes)
    && SlotInv(s.responses, s.status, s.outcomes)
    && DeliveryInv(s.deliveries, s.active, s.status, s.outcomes)
    && WakerInv(s.responses, s.status, s.polls)
    && AllMergeable(s.requests)
    && TrafficInv(s.log, s.origin)
  }

  // ------------------------------------------------------------------ submitting

  lemma SubmittedKeeps(s: State, id: Uuid, request: ProduceRequest, batched: bool)
    requires Inv(s) && id !in s.status
    ensures Inv(Submitted(s, id, request, batched))
  {
    var next := Submitted(s, id, request, batched);
    var passed := ToOrigin(request);
    if batched && Mergeable(passed) {
      SubmitQueue(s.requests, s.status, BatchRequest(id, passed));
      SubmitLog(s.status, s.log, s.outcomes, id);
      SubmitSlots(s.responses, s.status, s.outcomes, s.polls, id);
      SubmitDeliveries(s.deliveries, s.active, s.status, s.outcomes, id);
    }
  }

  lemma SubmitQueue(requests: seq<BatchRequest>, status: map<Uuid, Status>, request: BatchRequest)
    requires QueueInv(requests, status) && request.id !in status
    ensures QueueInv(requests + [request], status[request.id := Queued])
  {
    var more := requests + [request];
    assert forall i :: 0 <= i < |requests| ==> requests[i].id in RequestIds(requests);
    assert RequestIds(more) == RequestIds(requests) + {request.id} by {
      assert more[|requests|] == request;
      assert forall i :: 0 <= i < |requests| ==> more[i] == requests[i];
    }
  }

  lemma SubmitLog(status: map<Uuid, Status>, log: seq<Send>, outcomes: seq<Outcome>, id: Uuid)
    requires LogInv(status, log, outcomes) && id !in status
    ensures LogInv(status[id := Queued], log, outcomes)
  {
  }

  lemma SubmitSlots(responses: map<Uuid, Slot>, status: map<Uuid, Status>, outcomes: seq<Outcome>,
                    polls: map<Uuid, nat>, id: Uuid)
    requires SlotInv(responses, status, outcomes) && WakerInv(responses, status, polls) && id !in status
    ensures SlotInv(responses, status[id := Queued], outcomes)
    ensures WakerInv(responses, status[id := Queued], polls[id := 0])
  {
  }

  lemma SubmitDeliveries(deliveries: seq<Delivery>, active: set<Uuid>, status: map<Uuid, Status>,
                         outcomes: seq<Outcome>, id: Uuid)
    requires DeliveryInv(deliveries, active, status, outcomes) && id !in status
    ensures DeliveryInv(deliveries, active + {id}, status[id := Queued], outcomes)
  {
    assert forall i :: 0 <= i < |deliveries| ==> DeliveredRight(deliveries[i], active, status, outcomes);
  }

  // ------------------------------------------------------------------ taking the queue

  lemma TakenAllKeeps(s: State, caller: Uuid, forwarded: ProduceRequest, combined: CombinedRun)
    requires Inv(s) && caller in s.active && caller !in s.sends
    requires forwarded.acks != ACKS_NONE
    ensures Inv(TakenAll(s, caller, forwarded, combined))
  {
    if s.requests != [] {
      var next := TakenAll(s, caller, forwarded, combined);
      TakeLog(s.requests, s.status, s.log, s.outcomes, Send(s.requests, forwarded, combined));
      TakeCalls(s.sends, s.active, s.outcomes, caller);
      TakeSlots(s.requests, s.responses, s.status, s.outcomes, s.polls);
      TakeDeliveries(s.requests, s.deliveries, s.active, s.status, s.outcomes);
      TakeTraffic(s.log, s.origin, Send(s.requests, forwarded, combined));
      assert RequestIds(next.requests) == {};
    }
  }

  lemma TakeLog(requests: seq<BatchRequest>, status: map<Uuid, Status>, log: seq<Send>, outcomes: seq<Outcome>,
                send: Send)
    requires QueueInv(requests, status) && LogInv(status, log, outcomes) && send.requests == requests
    ensures LogInv(Moved(status, RequestIds(requests), Taken(|log|)), log + [send], outcomes + [InFlight])
    ensures forall id :: id in Moved(status, RequestIds(requests), Taken(|log|)) ==>
                           !Moved(status, RequestIds(requests), Taken(|log|))[id].Queued?
  {
    var next := Moved(status, RequestIds(requests), Taken(|log|));
    var more, results := log + [send], outcomes + [InFlight];
    assert more[|log|] == send && results[|log|] == InFlight;
    assert forall n :: 0 <= n < |log| ==> more[n] == log[n] && results[n] == outcomes[n];
    forall id | id in next ensures !next[id].Queued? && FitsAt(id, next[id], results) {
      if id !in RequestIds(requests) {
        assert FitsAt(id, status[id], outcomes);
      }
    }
  }

  lemma TakeTraffic(log: seq<Send>, origin: seq<Outgoing>, send: Send)
    requires TrafficInv(log, origin) && send.forwarded.acks != ACKS_NONE
    ensures TrafficInv(log + [send], if Sendless(send.forwarded) then origin else origin + [FromSend(|log|, send.forwarded)])
  {
    var after := if Sendless(send.forwarded) then origin else origin + [FromSend(|log|, send.forwarded)];
    assert forall n :: 0 <= n < |log| ==> (FromSend(n, log[n].forwarded) in after <==> FromSend(n, log[n].forwarded) in origin);
  }

  lemma TakeCalls(sends: map<Uuid, nat>, active: set<Uuid>, outcomes: seq<Outcome>, caller: Uuid)
    requires CallInv(sends, active, outcomes) && caller in active && caller !in sends
    ensures CallInv(sends[caller := |outcomes|], active, outcomes + [InFlight])
  {
  }

  lemma TakeSlots(requests: seq<BatchRequest>, responses: map<Uuid, Slot>, status: map<Uuid, Status>,
                  outcomes: seq<Outcome>,
                  polls: map<Uuid, nat>)
    requires QueueInv(requests, status) && SlotInv(responses, status, outcomes) && WakerInv(responses, status, polls)
    ensures
      var next := Moved(status, RequestIds(requests), Taken(|outcomes|));
      SlotInv(responses, next, outcomes + [InFlight]) && WakerInv(responses, next, polls)
  {
    var next, results := Moved(status, RequestIds(requests), Taken(|outcomes|)), outcomes + [InFlight];
    forall id | id in responses && responses[id].Response?
      ensures AnswerOf(id, next[id], results) == Some(responses[id].response)
    {
      assert next[id] == status[id];
    }
  }

  lemma TakeDeliveries(requests: seq<BatchRequest>, deliveries: seq<Delivery>, active: set<Uuid>,
                       status: map<Uuid, Status>,
                       outcomes: seq<Outcome>)
    requires QueueInv(requests, status) && DeliveryInv(deliveries, active, status, outcomes)
    ensures DeliveryInv(deliveries, active, Moved(status, RequestIds(requests), Taken(|outcomes|)), outcomes + [InFlight])
  {
    var next, results := Moved(status, RequestIds(requests), Taken(|outcomes|)), outcomes + [InFlight];
    forall i | 0 <= i < |deliveries| ensures DeliveredRight(deliveries[i], active, next, results) {
      assert DeliveredRight(deliveries[i], active, status, outcomes);
      assert next[deliveries[i].owner] == status[deliveries[i].owner];
    }
  }

  // ------------------------------------------------------------------ the origin's reply

  lemma RepliedToKeeps(s: State, caller: Uuid, origin: ProduceResponse, answers: map<Uuid, ProduceResponse>)
    requires Inv(s) && Coherent(s) && caller in s.sends
    requires answers.Keys <= RequestIds(s.log[s.sends[caller]].requests)
    ensures Inv(RepliedTo(s, caller, origin, answers))
  {
    var n := s.sends[caller];
    var ids, reply := RequestIds(s.log[n].requests), Replied(origin, answers);
    SettleLog(s.status, s.log, s.outcomes, n, caller, origin, answers);
    SettleCalls(s.sends, s.active, s.outcomes, caller, reply, if caller in answers then {caller} else {});
    SettleSlots(s.responses, s.status, s.log, s.outcomes, s.polls, n, caller, origin, answers);
    SettleDeliveries(s.deliveries, s.active, s.status, s.log, s.outcomes, n, caller, origin, answers);
    var next := RepliedTo(s, caller, origin, answers);
    assert next.status == Settle(s.status, ids, n, caller, answers);
    assert QueueInv(next.requests, next.status);
  }

  lemma SettleLog(status: map<Uuid, Status>, log: seq<Send>, outcomes: seq<Outcome>, n: nat, caller: Uuid,
                  origin: ProduceResponse, answers: map<Uuid, ProduceResponse>)
    requires LogInv(status, log, outcomes) && n < |log|
    ensures LogInv(Settle(status, RequestIds(log[n].requests), n, caller, answers), log, outcomes[n := Replied(origin, answers)])
  {
    var next, results := Settle(status, RequestIds(log[n].requests), n, caller, answers), outcomes[n := Replied(origin, answers)];
    forall id | id in next && !next[id].Queued? ensures FitsAt(id, next[id], results) {
      if id !in RequestIds(log[n].requests) {
        assert FitsAt(id, status[id], outcomes) && status[id].n != n;
      }
    }
  }

  /** A send that ends, however it ends, has its caller removed; `gone` are the tasks that return. */
  lemma SettleCalls(sends: map<Uuid, nat>, active: set<Uuid>, outcomes: seq<Outcome>, caller: Uuid,
                    outcome: Outcome, gone: set<Uuid>)
    requires CallInv(sends, active, outcomes) && caller in sends && gone <= {caller}
    ensures CallInv(sends - {caller}, active - gone, outcomes[sends[caller] := outcome])
  {
  }

  lemma SettleSlots(responses: map<Uuid, Slot>, status: map<Uuid, Status>, log: seq<Send>, outcomes: seq<Outcome>,
                    polls: map<Uuid, nat>,
                    n: nat, caller: Uuid, origin: ProduceResponse, answers: map<Uuid, ProduceResponse>)
    requires LogInv(status, log, outcomes) && n < |log| && outcomes[n].InFlight?
    requires answers.Keys <= RequestIds(log[n].requests)
    requires SlotInv(responses, status, outcomes) && WakerInv(responses, status, polls)
    ensures
      var next, results := Settle(status, RequestIds(log[n].requests), n, caller, answers), outcomes[n := Replied(origin, answers)];
      SlotInv(Store(responses, caller, answers), next, results) && WakerInv(Store(responses, caller, answers), next, polls)
  {
    var ids := RequestIds(log[n].requests);
    var next, results := Settle(status, ids, n, caller, answers), outcomes[n := Replied(origin, answers)];
    var slots := Store(responses, caller, answers);
    forall id | id in status
      ensures next[id].Stored? <==> id in slots && slots[id].Response?
      ensures id in slots && slots[id].Response? ==> AnswerOf(id, next[id], results) == Some(slots[id].response)
      ensures !next[id].Stored? && !next[id].Delivered? ==> (id in slots <==> polls[id] % 2 == 1)
    {
      if id in ids {
        assert FitsAt(id, status[id], outcomes) && status[id].Taken?;
      } else {
        assert id !in answers && next[id] == status[id];
        assert id in slots <==> id in responses;
        assert id in responses && responses[id].Response? ==> AnswerOf(id, status[id], outcomes) == Some(responses[id].response);
      }
    }
    assert slots.Keys <= status.Keys;
  }

  lemma EarlierDeliveries(deliveries: seq<Delivery>, active: set<Uuid>, status: map<Uuid, Status>, log: seq<Send>,
                          outcomes: seq<Outcome>,
                          n: nat, caller: Uuid, origin: ProduceResponse, answers: map<Uuid, ProduceResponse>)
    requires LogInv(status, log, outcomes) && n < |log| && outcomes[n].InFlight?
    requires DeliveryInv(deliveries, active, status, outcomes)
    ensures
      var next, results := Settle(status, RequestIds(log[n].requests), n, caller, answers), outcomes[n := Replied(origin, answers)];
      forall i :: 0 <= i < |deliveries| ==>
        deliveries[i].owner !in RequestIds(log[n].requests) && DeliveredRight(deliveries[i], active, next, results)
  {
    forall i | 0 <= i < |deliveries|
      ensures deliveries[i].owner !in RequestIds(log[n].requests)
      ensures DeliveredRight(deliveries[i], active, Settle(status, RequestIds(log[n].requests), n, caller, answers),
                             outcomes[n := Replied(origin, answers)])
    {
      var o := deliveries[i].owner;
      assert DeliveredRight(deliveries[i], active, status, outcomes);
      assert FitsAt(o, status[o], outcomes);
      assert status[o].n != n;
    }
  }

  /** One more delivery, to an owner that had none. */
  lemma DeliveryAdded(deliveries: seq<Delivery>, active: set<Uuid>, status: map<Uuid, Status>,
                      outcomes: seq<Outcome>, d: Delivery)
    requires forall i, j :: 0 <= i < j < |deliveries| ==> deliveries[i].owner != deliveries[j].owner
    requires forall i :: 0 <= i < |deliveries| ==>
               deliveries[i].owner != d.owner && DeliveredRight(deliveries[i], active, status, outcomes)
    requires DeliveredRight(d, active - {d.owner}, status, outcomes)
    requires forall id :: id in status && status[id].Delivered? && id != d.owner ==> DeliveredOnce(id, deliveries)
    ensures DeliveryInv(deliveries + [d], active - {d.owner}, status, outcomes)
  {
    var more := deliveries + [d];
    forall i | 0 <= i < |more| ensures DeliveredRight(more[i], active - {d.owner}, status, outcomes) {
      assert i < |deliveries| ==> DeliveredRight(deliveries[i], active, status, outcomes);
    }
    forall id | id in status && status[id].Delivered? ensures DeliveredOnce(id, more) {
      if id == d.owner {
        assert more[|deliveries|].owner == id;
      } else {
        var i :| 0 <= i < |deliveries| && deliveries[i].owner == id;
        assert more[i].owner == id;
      }
    }
  }

  lemma SettleDeliveries(deliveries: seq<Delivery>, active: set<Uuid>, status: map<Uuid, Status>, log: seq<Send>,
                         outcomes: seq<Outcome>, n: nat, caller: Uuid, origin: ProduceResponse,
                         answers: map<Uuid, ProduceResponse>)
    requires LogInv(status, log, outcomes) && n < |log| && outcomes[n].InFlight?
    requires answers.Keys <= RequestIds(log[n].requests)
    requires DeliveryInv(deliveries, active, status, outcomes)
    ensures
      var next, results := Settle(status, RequestIds(log[n].requests), n, caller, answers), outcomes[n := Replied(origin, answers)];
      if caller in answers then DeliveryInv(deliveries + [Delivery(caller, answers[caller])], active - {caller}, next, results)
      else DeliveryInv(deliveries, active, next, results)
  {
    var next := Settle(status, RequestIds(log[n].requests), n, caller, answers);
    var results := outcomes[n := Replied(origin, answers)];
    EarlierDeliveries(deliveries, active, status, log, outcomes, n, caller, origin, answers);
    if caller in answers {
      DeliveryAdded(deliveries, active, next, results, Delivery(caller, answers[caller]));
    }
  }

  // ------------------------------------------------------------------ losing a send

  lemma LosingKeeps(s: State, caller: Uuid)
    requires Inv(s) && Coherent(s) && caller in s.sends
    ensures Inv(Losing(s, caller))
  {
    var n := s.sends[caller];
    var ids := RequestIds(s.log[n].requests);
    LoseLog(s.status, s.log, s.outcomes, n);
    SettleCalls(s.sends, s.active, s.outcomes, caller, Lost, {});
    LoseSlots(s.responses, s.status, s.log, s.outcomes, s.polls, n);
    LoseDeliveries(s.deliveries, s.active, s.status, s.log, s.outcomes, n);
    var next := Losing(s, caller);
    assert s.active - {} == s.active;
    assert QueueInv(next.requests, next.status);
  }

  lemma LoseLog(status: map<Uuid, Status>, log: seq<Send>, outcomes: seq<Outcome>, n: nat)
    requires LogInv(status, log, outcomes) && n < |log|
    ensures LogInv(Moved(status, RequestIds(log[n].requests), Dropped(n)), log, outcomes[n := Lost])
  {
    var next, results := Moved(status, RequestIds(log[n].requests), Dropped(n)), outcomes[n := Lost];
    forall id | id in next && !next[id].Queued? ensures FitsAt(id, next[id], results) {
      if id !in RequestIds(log[n].requests) {
        assert FitsAt(id, status[id], outcomes) && status[id].n != n;
      }
    }
  }

  lemma LoseSlots(responses: map<Uuid, Slot>, status: map<Uuid, Status>, log: seq<Send>, outcomes: seq<Outcome>,
                  polls: map<Uuid, nat>, n: nat)
    requires LogInv(status, log, outcomes) && n < |log| && outcomes[n].InFlight?
    requires SlotInv(responses, status, outcomes) && WakerInv(responses, status, polls)
    ensures
      var next := Moved(status, RequestIds(log[n].requests), Dropped(n));
      SlotInv(responses, next, outcomes[n := Lost]) && WakerInv(responses, next, polls)
  {
    var ids := RequestIds(log[n].requests);
    var next, results := Moved(status, ids, Dropped(n)), outcomes[n := Lost];
    forall id | id in status
      ensures next[id].Stored? <==> status[id].Stored?
      ensures next[id].Delivered? <==> status[id].Delivered?
      ensures id in responses && responses[id].Response? ==> AnswerOf(id, next[id], results) == AnswerOf(id, status[id], outcomes)
    {
      if !status[id].Queued? {
        assert FitsAt(id, status[id], outcomes);
      }
    }
  }

  lemma LoseDeliveries(deliveries: seq<Delivery>, active: set<Uuid>, status: map<Uuid, Status>, log: seq<Send>,
                       outcomes: seq<Outcome>, n: nat)
    requires LogInv(status, log, outcomes) && n < |log| && outcomes[n].InFlight?
    requires DeliveryInv(deliveries, active, status, outcomes)
    ensures DeliveryInv(deliveries, active, Moved(status, RequestIds(log[n].requests), Dropped(n)), outcomes[n := Lost])
  {
    var next, results := Moved(status, RequestIds(log[n].requests), Dropped(n)), outcomes[n := Lost];
    forall i | 0 <= i < |deliveries| ensures DeliveredRight(deliveries[i], active, next, results) {
      var o := deliveries[i].owner;
      assert DeliveredRight(deliveries[i], active, status, outcomes);
      assert FitsAt(o, status[o], outcomes);
    }
  }

  // ------------------------------------------------------------------ polling and cancelling

  lemma PolledKeeps(s: State, id: Uuid)
    requires Inv(s) && id in s.active && id !in s.sends
    ensures Inv(Polled(s, id))
  {
    if Ready(s.responses, id) {
      PolledReadyKeeps(s, id);
    } else {
      PolledPendingKeeps(s, id);
    }
  }

  lemma PolledPendingKeeps(s: State, id: Uuid)
    requires Inv(s) && id in s.status && !Ready(s.responses, id)
    ensures Inv(PolledPending(s, id))
  {
    WakeSlots(s.responses, s.status, s.outcomes, s.polls, id);
    var next := PolledPending(s, id);
    assert next == s.(responses := next.responses, polls := next.polls);
    assert SlotInv(next.responses, next.status, next.outcomes) && WakerInv(next.responses, next.status, next.polls);
  }

  lemma PolledReadyKeeps(s: State, id: Uuid)
    requires Inv(s) && id in s.active && id !in s.sends && Ready(s.responses, id)
    ensures Inv(PolledReady(s, id))
  {
    DeliverQueue(s.requests, s.status, id);
    DeliverLog(s.status, s.log, s.outcomes, id);
    DeliverSlots(s.responses, s.status, s.outcomes, s.polls, id);
    DeliverDeliveries(s.deliveries, s.active, s.status, s.outcomes, id, s.responses[id].response);
    DeliverCalls(s.sends, s.active, s.outcomes, id);
    var next := PolledReady(s, id);
    assert next.status == s.status[id := Delivered(s.status[id].n)] && next.responses == s.responses - {id};
  }

  lemma DeliverCalls(sends: map<Uuid, nat>, active: set<Uuid>, outcomes: seq<Outcome>, id: Uuid)
    requires CallInv(sends, active, outcomes) && id !in sends
    ensures CallInv(sends, active - {id}, outcomes)
  {
  }

  lemma DeliverQueue(requests: seq<BatchRequest>, status: map<Uuid, Status>, id: Uuid)
    requires QueueInv(requests, status) && id in status && status[id].Stored?
    ensures QueueInv(requests, status[id := Delivered(status[id].n)])
  {
  }

  lemma DeliverLog(status: map<Uuid, Status>, log: seq<Send>, outcomes: seq<Outcome>, id: Uuid)
    requires LogInv(status, log, outcomes) && id in status && status[id].Stored?
    ensures LogInv(status[id := Delivered(status[id].n)], log, outcomes)
  {
    assert FitsAt(id, status[id], outcomes);
  }

  lemma DeliverSlots(responses: map<Uuid, Slot>, status: map<Uuid, Status>, outcomes: seq<Outcome>,
                     polls: map<Uuid, nat>, id: Uuid)
    requires SlotInv(responses, status, outcomes) && WakerInv(responses, status, polls)
    requires id in status && status[id].Stored?
    ensures
      var next := status[id := Delivered(status[id].n)];
      SlotInv(responses - {id}, next, outcomes) && WakerInv(responses - {id}, next, polls[id := polls[id] + 1])
  {
  }

  lemma DeliverDeliveries(deliveries: seq<Delivery>, active: set<Uuid>, status: map<Uuid, Status>,
                          outcomes: seq<Outcome>,
                          id: Uuid, response: ProduceResponse)
    requires DeliveryInv(deliveries, active, status, outcomes)
    requires id in status && status[id].Stored? && AnswerOf(id, status[id], outcomes) == Some(response)
    ensures DeliveryInv(deliveries + [Delivery(id, response)], active - {id}, status[id := Delivered(status[id].n)], outcomes)
  {
    var next := status[id := Delivered(status[id].n)];
    forall i | 0 <= i < |deliveries|
      ensures deliveries[i].owner != id && DeliveredRight(deliveries[i], active, next, outcomes)
    {
      assert DeliveredRight(deliveries[i], active, status, outcomes);
    }
    DeliveryAdded(deliveries, active, next, outcomes, Delivery(id, response));
  }

  lemma WakeSlots(responses: map<Uuid, Slot>, status: map<Uuid, Status>, outcomes: seq<Outcome>,
                  polls: map<Uuid, nat>, id: Uuid)
    requires SlotInv(responses, status, outcomes) && WakerInv(responses, status, polls)
    requires id in status && !(id in responses && responses[id].Response?)
    ensures SlotInv(PollSlot(responses, id), status, outcomes)
    ensures WakerInv(PollSlot(responses, id), status, polls[id := polls[id] + 1])
  {
  }

  lemma CancelledKeeps(s: State, id: Uuid)
    requires Inv(s) && Coherent(s) && id in s.active
    ensures Inv(Cancelled(s, id))
  {
    if id in s.sends {
      LosingKeeps(s, id);
    }
    var before := if id in s.sends then Losing(s, id) else s;
    assert Cancelled(s, id) == before.(active := before.active - {id});
    LeaveKeeps(before, id);
  }

  lemma LeaveKeeps(s: State, id: Uuid)
    requires Inv(s) && id !in s.sends
    ensures Inv(s.(active := s.active - {id}))
  {
    forall i | 0 <= i < |s.deliveries| ensures DeliveredRight(s.deliveries[i], s.active - {id}, s.status, s.outcomes) {
      assert DeliveredRight(s.deliveries[i], s.active, s.status, s.outcomes);
    }
  }

  // ------------------------------------------------------------------ whole runs

  lemma InvCoherent(s: State)
    requires Inv(s)
    ensures Coherent(s)
  {
  }

  /** Only requests of the send are answered. */
  lemma AnsweredInSend(codec: RecordCodec, send: Send, origin: ProduceResponse, answers: map<Uuid, ProduceResponse>)
    requires IsSend(codec, send)
    requires SplitOf(send.combined, send.requests, origin, answers)
    ensures answers.Keys <= RequestIds(send.requests)
  {
    CombinedSettled(codec, send.requests, send.combined);
    forall o | o in answers ensures o in RequestIds(send.requests) {
      var t :| AnswerRow(send.combined, send.requests, Rows(origin), o, t).Some?;
      AnsweredSubmits(send.requests, send.combined, Rows(origin), o, t);
    }
  }

  lemma AnsweredSubmits(requests: seq<BatchRequest>, combined: CombinedRun, rows: seq<FanOut.Answered>, o: Uuid,
                        t: Topition)
    requires Settled(requests, combined)
    requires AnswerRow(combined, requests, rows, o, t).Some?
    ensures o in RequestIds(requests)
  {
    if o in CombinedGet(combined, t).rejected {
      assert Sends(requests, o, t);
    } else {
      assert o in ListedBy(requests, t);
    }
  }

  lemma NextKeepsInv(codec: RecordCodec, s: State, e: Event)
    requires Inv(s) && SendInv(codec, s.log, s.outcomes) && Coherent(s) && Enabled(codec, s, e)
    ensures Inv(Next(codec, s, e))
  {
    match e
    case Submit(id, request, batched) => SubmittedKeeps(s, id, request, batched);
    case TakeAll(caller, forwarded, combined) =>
      if s.requests != [] {
        TakenAllKeeps(s, caller, forwarded, combined);
      }
    case Reply(caller, origin, answers) =>
      AnsweredInSend(codec, s.log[s.sends[caller]], origin, answers);
      RepliedToKeeps(s, caller, origin, answers);
    case Fail(caller) => LosingKeeps(s, caller);
    case Poll(id) => PolledKeeps(s, id);
    case Cancel(id) => CancelledKeeps(s, id);
  }

  lemma NextKeepsSends(codec: RecordCodec, s: State, e: Event)
    requires SendInv(codec, s.log, s.outcomes) && AllMergeable(s.requests) && Coherent(s) && Enabled(codec, s, e)
    ensures SendInv(codec, Next(codec, s, e).log, Next(codec, s, e).outcomes)
  {
    match e
    case TakeAll(caller, forwarded, combined) =>
      if s.requests != [] {
        SendInvTake(codec, s.log, s.outcomes, Send(s.requests, forwarded, combined));
      }
    case Reply(caller, origin, answers) => SendInvEnd(codec, s.log, s.outcomes, s.sends[caller], Replied(origin, answers));
    case Fail(caller) => SendInvEnd(codec, s.log, s.outcomes, s.sends[caller], Lost);
    case Cancel(id) =>
      if id in s.sends {
        SendInvEnd(codec, s.log, s.outcomes, s.sends[id], Lost);
      }
    case _ =>
  }

  lemma SendInvTake(codec: RecordCodec, log: seq<Send>, outcomes: seq<Outcome>, send: Send)
    requires SendInv(codec, log, outcomes) && IsSend(codec, send) && AllMergeable(send.requests)
    ensures SendInv(codec, log + [send], outcomes + [InFlight])
  {
  }

  lemma SendInvEnd(codec: RecordCodec, log: seq<Send>, outcomes: seq<Outcome>, n: nat, outcome: Outcome)
    requires SendInv(codec, log, outcomes) && n < |log| && SplitBack(log[n], outcome)
    ensures SendInv(codec, log, outcomes[n := outcome])
  {
  }

  lemma {:induction false} RunKeeps(codec: RecordCodec, events: seq<Event>, states: seq<State>, i: nat)
    requires IsRun(codec, events, states) && i < |states|
    ensures Inv(states[i]) && SendInv(codec, states[i].log, states[i].outcomes)
  {
    if i > 0 {
      RunKeeps(codec, events, states, i - 1);
      InvCoherent(states[i - 1]);
      assert Step(codec, states[i - 1], events[i - 1], states[i]);
      NextKeepsInv(codec, states[i - 1], events[i - 1]);
      NextKeepsSends(codec, states[i - 1], events[i - 1]);
    } else {
      assert RequestIds([]) == {};
    }
  }

  /** Each state of a run is coherent, so that each event of a run is enabled and takes its state to the next. */
  lemma RunCoherent(codec: RecordCodec, events: seq<Event>, states: seq<State>, i: nat)
    requires IsRun(codec, events, states) && i < |states|
    ensures Coherent(states[i])
    ensures i < |events| ==> Enabled(codec, states[i], events[i]) && states[i + 1] == Next(codec, states[i], events[i])
  {
    RunKeeps(codec, events, states, i);
    InvCoherent(states[i]);
    assert i < |events| ==> Step(codec, states[i], events[i], states[i + 1]);
  }

  lemma ReachableCoherent(codec: RecordCodec, s: State)
    requires Reachable(codec, s)
    ensures Coherent(s)
  {
    ReachableInv(codec, s);
    InvCoherent(s);
  }

  lemma ReachableInitial(codec: RecordCodec)
    ensures Reachable(codec, Initial())
  {
    assert IsRun(codec, [], [Initial()]);
  }

  /** A run can go on with any event that is enabled in its last state. */
  lemma ReachableNext(codec: RecordCodec, s: State, e: Event, next: State)
    requires Reachable(codec, s) && Step(codec, s, e, next)
    ensures Reachable(codec, next) && Continues(codec, s, next)
  {
    var events, states :| IsRun(codec, events, states) && states[|events|] == s;
    var es, ss := events + [e], states + [next];
    forall i | 0 <= i < |es| ensures Step(codec, ss[i], es[i], ss[i + 1]) {
      assert i < |events| ==> ss[i] == states[i] && ss[i + 1] == states[i + 1] && es[i] == events[i];
    }
    assert IsRun(codec, es, ss) && ss[|events|] == s && ss[|es|] == next;
  }

  // ------------------------------------------------------------------ main results

  /** Where request `id` is, told from the fields alone. */
  ghost predicate IsAt(s: State, id: Uuid, place: Status) {
    match place
    case Queued => id in RequestIds(s.requests)
    case Taken(n) => InSend(s, id, n) && s.outcomes[n].InFlight?
    case Stored(n) => InSend(s, id, n) && Ready(s.responses, id)
    case Delivered(n) => InSend(s, id, n) && DeliveredOnce(id, s.deliveries)
    case Dropped(n) => InSend(s, id, n) && s.outcomes[n].Lost?
    case Unanswered(n) => InSend(s, id, n) && s.outcomes[n].Replied? && id !in s.outcomes[n].answers
  }

  predicate InSend(s: State, id: Uuid, n: nat) {
    n < |s.log| && n < |s.outcomes| && id in RequestIds(s.log[n].requests)
  }

  lemma ReachableInv(codec: RecordCodec, s: State)
    requires Reachable(codec, s)
    ensures Inv(s)
  {
    var events, states :| IsRun(codec, events, states) && states[|events|] == s;
    RunKeeps(codec, events, states, |events|);
  }

  lemma ReachableSend(codec: RecordCodec, s: State, n: nat)
    requires Reachable(codec, s) && n < |s.log|
    ensures n < |s.outcomes| && DistinctIds(s.log[n].requests) && AllMergeable(s.log[n].requests)
    ensures IsSend(codec, s.log[n]) && SplitBack(s.log[n], s.outcomes[n])
  {
    var events, states :| IsRun(codec, events, states) && states[|events|] == s;
    RunKeeps(codec, events, states, |events|);
  }

  /** A request that was queued is in exactly one place, and nothing else is anywhere. */
  lemma ExactlyOnePlace(codec: RecordCodec, s: State, id: Uuid, place: Status)
    requires Reachable(codec, s)
    ensures IsAt(s, id, place) <==> id in s.status && s.status[id] == place
  {
    ReachableInv(codec, s);
    PlaceIsStatus(s, id, place);
  }

  lemma PlaceIsStatus(s: State, id: Uuid, place: Status)
    requires Inv(s)
    ensures IsAt(s, id, place) <==> id in s.status && s.status[id] == place
  {
    if id in s.status && !s.status[id].Queued? {
      assert FitsAt(id, s.status[id], s.outcomes);
    }
    if DeliveredOnce(id, s.deliveries) {
      var k :| 0 <= k < |s.deliveries| && s.deliveries[k].owner == id;
      assert DeliveredRight(s.deliveries[k], s.active, s.status, s.outcomes);
    }
  }

  /** A request is taken from the queue at most once. */
  lemma TakenOnce(codec: RecordCodec, s: State, n: nat, a: nat, m: nat, b: nat)
    requires Reachable(codec, s)
    requires n < |s.log| && m < |s.log| && a < |s.log[n].requests| && b < |s.log[m].requests|
    requires s.log[n].requests[a].id == s.log[m].requests[b].id
    ensures n == m && a == b
    ensures s.log[n].requests[a].id !in RequestIds(s.requests)
  {
    ReachableInv(codec, s);
    var id := s.log[n].requests[a].id;
    assert id in RequestIds(s.log[n].requests);
    assert id in RequestIds(s.log[m].requests);
    assert s.status[id].n == n;
    assert DistinctIds(s.log[n].requests);
  }

  /**
   The origin gets each send exactly once if it forwards something, and not at all otherwise, as it was
   combined, and nothing at `acks=0`.
   */
  lemma SentOnce(codec: RecordCodec, s: State)
    requires Reachable(codec, s)
    ensures TrafficInv(s.log, s.origin)
    ensures forall n :: 0 <= n < |s.log| ==>
              (FromSend(n, s.log[n].forwarded) in s.origin <==> Entries(s.log[n].forwarded) != [])
  {
    ReachableInv(codec, s);
    forall n | 0 <= n < |s.log| ensures Sendless(s.log[n].forwarded) <==> Entries(s.log[n].forwarded) == [] {
      ReachableSend(codec, s, n);
      GroupedEntries(s.log[n].forwarded.topicData.value);
    }
  }

  /** What a request carries goes to the origin at most once: two sends of it to the origin are one. */
  lemma RequestSentOnce(codec: RecordCodec, s: State, id: Uuid, x: nat, y: nat)
    requires Reachable(codec, s) && x < |s.origin| && y < |s.origin|
    requires s.origin[x].FromSend? && InSend(s, id, s.origin[x].n)
    requires s.origin[y].FromSend? && InSend(s, id, s.origin[y].n)
    ensures x == y
  {
    ReachableInv(codec, s);
    InOneSend(s, id, s.origin[x].n, s.origin[y].n);
  }

  lemma InOneSend(s: State, id: Uuid, n: nat, m: nat)
    requires Inv(s) && InSend(s, id, n) && InSend(s, id, m)
    ensures n == m
  {
    assert id in RequestIds(s.log[n].requests) && s.status[id].n == n;
    assert id in RequestIds(s.log[m].requests) && s.status[id].n == m;
  }

  /**
   A response is delivered at most once, and only to the ticket whose send the origin answered: it
   has rows only for partitions that this request lists, each of them the origin's own or a rejection.
   */
  lemma DeliveredToOwner(codec: RecordCodec, s: State, d: nat)
    requires Reachable(codec, s) && d < |s.deliveries|
    ensures forall e :: 0 <= e < |s.deliveries| && s.deliveries[e].owner == s.deliveries[d].owner ==> e == d
    ensures exists n, k :: IsDelivery(s, s.deliveries[d], n, k)
  {
    ReachableInv(codec, s);
    var n, k := DeliveryAt(s, d);
    ReachableSend(codec, s, n);
    SendAnswers(codec, s.log[n], s.outcomes[n], k);
    AnswersSourced(s.log[n], s.outcomes[n].origin, s.deliveries[d].owner, s.deliveries[d].response);
    assert IsDelivery(s, s.deliveries[d], n, k);
  }

  lemma DeliveryAt(s: State, d: nat) returns (n: nat, k: nat)
    requires Inv(s) && d < |s.deliveries|
    ensures InSend(s, s.deliveries[d].owner, n) && k < |s.log[n].requests| && s.log[n].requests[k].id == s.deliveries[d].owner
    ensures s.outcomes[n].Replied? && s.deliveries[d].owner in s.outcomes[n].answers
    ensures s.deliveries[d].response == s.outcomes[n].answers[s.deliveries[d].owner]
  {
    var owner := s.deliveries[d].owner;
    assert DeliveredRight(s.deliveries[d], s.active, s.status, s.outcomes);
    n := s.status[owner].n;
    assert FitsAt(owner, s.status[owner], s.outcomes);
    assert owner in RequestIds(s.log[n].requests);
    k :| 0 <= k < |s.log[n].requests| && s.log[n].requests[k].id == owner;
  }

  /** Send `n` had the owner's request at `k`, the origin answered it, and the response has its rows. */
  ghost predicate IsDelivery(s: State, d: Delivery, n: nat, k: nat) {
    && InSend(s, d.owner, n) && k < |s.log[n].requests| && s.log[n].requests[k].id == d.owner
    && s.outcomes[n].Replied?
    && Answers(s.log[n].combined, s.log[n].requests, s.outcomes[n].origin, d.owner, d.response)
    && RowsWithin(d.response, s.log[n].requests[k].request)
    && RowsSourced(s.log[n], s.outcomes[n].origin, d.owner, d.response)
  }

  /** Each row is the owner's rejection, or the origin's own last row for the partition. */
  ghost predicate RowsSourced(send: Send, origin: ProduceResponse, o: Uuid, response: ProduceResponse) {
    forall r :: 0 <= r < |Rows(response)| ==>
      RowSource(send.combined, send.requests, origin, o, Rows(response)[r].topition, Rows(response)[r].row)
  }

  lemma AnswersSourced(send: Send, origin: ProduceResponse, o: Uuid, response: ProduceResponse)
    requires Answers(send.combined, send.requests, origin, o, response)
    ensures RowsSourced(send, origin, o, response)
  {
    forall r | 0 <= r < |Rows(response)|
      ensures RowSource(send.combined, send.requests, origin, o, Rows(response)[r].topition, Rows(response)[r].row)
    {
      RowsFromOrigin(send.combined, send.requests, origin, o, response, r);
    }
  }

  ghost predicate RowsWithin(response: ProduceResponse, request: ProduceRequest) {
    forall r :: 0 <= r < |Rows(response)| ==> Rows(response)[r].topition in Listed(request)
  }

  lemma SendAnswers(codec: RecordCodec, send: Send, outcome: Outcome, k: nat)
    requires IsSend(codec, send) && SplitBack(send, outcome) && outcome.Replied?
    requires DistinctIds(send.requests) && k < |send.requests| && send.requests[k].id in outcome.answers
    ensures
      var response := outcome.answers[send.requests[k].id];
      && Answers(send.combined, send.requests, outcome.origin, send.requests[k].id, response)
      && RowsWithin(response, send.requests[k].request)
  {
    CombinedSettled(codec, send.requests, send.combined);
    SplitOwnRows(send.requests, send.combined, outcome.origin, outcome.answers[send.requests[k].id], k);
  }

  /** After the origin replied, a request of the send has its answer, or it never gets one. */
  lemma AnsweredPlace(s: State, n: nat, k: nat)
    requires Inv(s) && n < |s.log| && s.outcomes[n].Replied? && k < |s.log[n].requests|
    ensures
      var id := s.log[n].requests[k].id;
      if id in s.outcomes[n].answers then IsAt(s, id, Stored(n)) || IsAt(s, id, Delivered(n)) else IsAt(s, id, Unanswered(n))
  {
    var id := s.log[n].requests[k].id;
    assert id in RequestIds(s.log[n].requests);
    assert FitsAt(id, s.status[id], s.outcomes);
    PlaceIsStatus(s, id, s.status[id]);
  }

  /** The request has a batch for each partition it lists, and lists one. */
  ghost predicate FullyBatched(request: ProduceRequest) {
    Listed(request) != {} && forall t :: t in Listed(request) ==> HasBatch(request, t)
  }

  /**
   If the origin answers each partition of a send, then each request of the send that has a batch
   for each partition it lists gets an answer, with exactly its own partitions.
   */
  lemma AnsweredCompletely(codec: RecordCodec, s: State, n: nat, k: nat)
    requires Reachable(codec, s) && n < |s.log| && n < |s.outcomes| && k < |s.log[n].requests|
    requires s.outcomes[n].Replied? && AnswersAll(Rows(s.outcomes[n].origin), s.log[n].forwarded)
    requires FullyBatched(s.log[n].requests[k].request)
    ensures
      var id := s.log[n].requests[k].id;
      && (IsAt(s, id, Stored(n)) || IsAt(s, id, Delivered(n)))
      && id in s.outcomes[n].answers
      && AnswersEach(s.log[n].requests, s.log[n].combined, s.outcomes[n].origin, s.outcomes[n].answers[id], k)
  {
    ReachableSend(codec, s, n);
    SendComplete(codec, s.log[n], s.outcomes[n], k);
    ReachableInv(codec, s);
    AnsweredPlace(s, n, k);
  }

  lemma SendComplete(codec: RecordCodec, send: Send, outcome: Outcome, k: nat)
    requires IsSend(codec, send) && SplitBack(send, outcome) && outcome.Replied?
    requires DistinctIds(send.requests) && k < |send.requests|
    requires AnswersAll(Rows(outcome.origin), send.forwarded)
    requires FullyBatched(send.requests[k].request)
    ensures send.requests[k].id in outcome.answers
    ensures AnswersEach(send.requests, send.combined, outcome.origin, outcome.answers[send.requests[k].id], k)
  {
    CombinedSettled(codec, send.requests, send.combined);
    FanRoundTrip(send.requests, send.combined, send.forwarded, outcome.origin, outcome.answers, k);
  }

  // ------------------------------------------------------------------ what never changes again

  predicate Final(status: Status) {
    status.Unanswered? || status.Dropped?
  }

  lemma FinalNotInFlight(status: map<Uuid, Status>, log: seq<Send>, outcomes: seq<Outcome>, n: nat, id: Uuid)
    requires LogInv(status, log, outcomes) && n < |log| && outcomes[n].InFlight?
    requires id in status && Final(status[id])
    ensures id !in RequestIds(log[n].requests)
  {
    assert FitsAt(id, status[id], outcomes);
  }

  lemma EndKeepsFinal(s: State, caller: Uuid, id: Uuid)
    requires Inv(s) && Coherent(s) && caller in s.sends && id in s.status && Final(s.status[id])
    ensures id !in RequestIds(s.log[s.sends[caller]].requests)
  {
    FinalNotInFlight(s.status, s.log, s.outcomes, s.sends[caller], id);
  }

  lemma NextKeepsFinal(codec: RecordCodec, s: State, e: Event, id: Uuid)
    requires Inv(s) && Coherent(s) && Enabled(codec, s, e)
    requires id in s.status && Final(s.status[id])
    ensures id in Next(codec, s, e).status && Next(codec, s, e).status[id] == s.status[id]
  {
    match e
    case Submit(_, _, _) =>
    case TakeAll(_, _, _) => assert id !in RequestIds(s.requests);
    case Reply(caller, _, _) => EndKeepsFinal(s, caller, id);
    case Fail(caller) => EndKeepsFinal(s, caller, id);
    case Poll(o) => assert Ready(s.responses, o) ==> s.status[o].Stored?;
    case Cancel(c) =>
      if c in s.sends {
        EndKeepsFinal(s, c, id);
      }
  }

  lemma RunStep(codec: RecordCodec, events: seq<Event>, states: seq<State>, j: nat)
    requires IsRun(codec, events, states) && j < |events|
    ensures Inv(states[j]) && Coherent(states[j])
    ensures Enabled(codec, states[j], events[j]) && states[j + 1] == Next(codec, states[j], events[j])
  {
    RunKeeps(codec, events, states, j);
    RunCoherent(codec, events, states, j);
    assert Step(codec, states[j], events[j], states[j + 1]);
  }

  /** In every run, a request that its send left without an answer, or that was dropped with its send, stays so. */
  lemma {:induction false} RunKeepsFinal(codec: RecordCodec, events: seq<Event>, states: seq<State>, i: nat, j: nat,
                                         id: Uuid)
    requires IsRun(codec, events, states) && i <= j < |states|
    requires id in states[i].status && Final(states[i].status[id])
    ensures id in states[j].status && states[j].status[id] == states[i].status[id]
  {
    if i < j {
      RunKeepsFinal(codec, events, states, i, j - 1, id);
      RunStep(codec, events, states, j - 1);
      NextKeepsFinal(codec, states[j - 1], events[j - 1], id);
    }
  }

  /** In no continuation of a run that reached `s` is there an answer for `id`, stored or delivered. */
  ghost predicate NeverAnswered(codec: RecordCodec, s: State, id: Uuid) {
    forall later :: Continues(codec, s, later) ==> !Ready(later.responses, id) && !DeliveredOnce(id, later.deliveries)
  }

  lemma ContinuesItself(codec: RecordCodec, s: State)
    requires Reachable(codec, s)
    ensures Continues(codec, s, s)
  {
    var events, states :| IsRun(codec, events, states) && states[|events|] == s;
    assert 0 <= |events| <= |events| && states[|events|] == s;
  }

  lemma LaterFinal(codec: RecordCodec, s: State, later: State, id: Uuid)
    requires Continues(codec, s, later) && id in s.status && Final(s.status[id])
    ensures Inv(later) && id in later.status && later.status[id] == s.status[id]
  {
    var events, states, i :| IsRun(codec, events, states) && 0 <= i <= |events| && states[i] == s && states[|events|] == later;
    RunKeepsFinal(codec, events, states, i, |events|, id);
    RunKeeps(codec, events, states, |events|);
  }

  /** A request that is without an answer after its send, or was dropped with it, is never answered. */
  lemma FinalNeverAnswered(codec: RecordCodec, s: State, id: Uuid)
    requires Reachable(codec, s) && id in s.status && Final(s.status[id])
    ensures NeverAnswered(codec, s, id)
  {
    forall later | Continues(codec, s, later) ensures !Ready(later.responses, id) && !DeliveredOnce(id, later.deliveries) {
      LaterFinal(codec, s, later, id);
      FinalHasNone(later, id);
    }
  }

  lemma FinalHasNone(s: State, id: Uuid)
    requires Inv(s) && id in s.status && Final(s.status[id])
    ensures !Ready(s.responses, id) && !DeliveredOnce(id, s.deliveries)
  {
    forall k | 0 <= k < |s.deliveries| ensures s.deliveries[k].owner != id {
      assert DeliveredRight(s.deliveries[k], s.active, s.status, s.outcomes);
    }
  }

  /**
   With an origin that answers exactly what it is sent, a request of an answered send is never answered,
   in any continuation of the run, if and only if it lists no partition for which it has a batch or some
   owner's batch was accepted.
   */
  lemma UnansweredIff(codec: RecordCodec, s: State, n: nat, k: nat)
    requires Reachable(codec, s) && n < |s.log| && n < |s.outcomes| && k < |s.log[n].requests|
    requires s.outcomes[n].Replied?
    requires AnswersAll(Rows(s.outcomes[n].origin), s.log[n].forwarded)
    requires AnswersOnly(Rows(s.outcomes[n].origin), s.log[n].forwarded)
    ensures IsAt(s, s.log[n].requests[k].id, Unanswered(n)) <==> !exists t :: Covered(codec, s.log[n].requests, k, t)
    ensures NeverAnswered(codec, s, s.log[n].requests[k].id) <==> !exists t :: Covered(codec, s.log[n].requests, k, t)
  {
    ReachableSend(codec, s, n);
    SendAnsweredIff(codec, s.log[n], s.outcomes[n], k);
    ReachableInv(codec, s);
    NeverIffUnanswered(codec, s, n, k);
  }

  /** After the origin replied, a request of the send is never answered exactly if the reply did not answer it. */
  lemma NeverIffUnanswered(codec: RecordCodec, s: State, n: nat, k: nat)
    requires Reachable(codec, s) && Inv(s) && n < |s.log| && s.outcomes[n].Replied? && k < |s.log[n].requests|
    ensures
      var id := s.log[n].requests[k].id;
      && (id !in s.outcomes[n].answers <==> IsAt(s, id, Unanswered(n)))
      && (id !in s.outcomes[n].answers <==> NeverAnswered(codec, s, id))
  {
    var id := s.log[n].requests[k].id;
    AnsweredPlace(s, n, k);
    if id in s.outcomes[n].answers {
      ContinuesItself(codec, s);
      assert !NeverAnswered(codec, s, id);
    } else {
      PlaceIsStatus(s, id, Unanswered(n));
      FinalNeverAnswered(codec, s, id);
    }
  }

  lemma SendAnsweredIff(codec: RecordCodec, send: Send, outcome: Outcome, k: nat)
    requires IsSend(codec, send) && SplitBack(send, outcome) && outcome.Replied?
    requires DistinctIds(send.requests) && k < |send.requests|
    requires AnswersAll(Rows(outcome.origin), send.forwarded) && AnswersOnly(Rows(outcome.origin), send.forwarded)
    ensures send.requests[k].id in outcome.answers <==> exists t :: Covered(codec, send.requests, k, t)
  {
    AnsweredIff(codec, send.requests, send.combined, send.forwarded, outcome.origin, outcome.answers, k);
  }

  // ------------------------------------------------------------------ slots that nobody takes out

  /** The slot of a task that is gone. */
  predicate Leaked(s: State, id: Uuid) {
    id in s.responses && id !in s.active
  }

  lemma StoreKeepsSlot(responses: map<Uuid, Slot>, caller: Uuid, answers: map<Uuid, ProduceResponse>, id: Uuid)
    requires id in responses && id != caller
    ensures id in Store(responses, caller, answers)
  {
  }

  lemma SendersActive(s: State)
    requires Inv(s) && Coherent(s)
    ensures forall c :: c in s.sends ==> c in s.active
  {
  }

  lemma NextKeepsGone(codec: RecordCodec, s: State, e: Event, id: Uuid)
    requires Coherent(s) && Enabled(codec, s, e) && id in s.status && id !in s.active
    ensures id !in Next(codec, s, e).active
  {
    match e
    case Submit(o, _, _) => assert o != id;
    case _ =>
  }

  lemma NextKeepsSlot(codec: RecordCodec, s: State, e: Event, id: Uuid)
    requires Coherent(s) && Enabled(codec, s, e) && Leaked(s, id)
    requires forall c :: c in s.sends ==> c in s.active
    ensures id in Next(codec, s, e).responses
  {
    match e
    case Reply(caller, _, answers) =>
      StoreKeepsSlot(s.responses, caller, answers, id);
    case _ =>
  }

  lemma NextKeepsLeaked(codec: RecordCodec, s: State, e: Event, id: Uuid)
    requires Inv(s) && Coherent(s) && Enabled(codec, s, e) && Leaked(s, id)
    ensures Leaked(Next(codec, s, e), id)
  {
    assert id in s.status;
    SendersActive(s);
    NextKeepsGone(codec, s, e, id);
    NextKeepsSlot(codec, s, e, id);
  }

  /** In every run, the response map keeps the slot of a task that is gone. */
  lemma {:induction false} RunKeepsLeaked(codec: RecordCodec, events: seq<Event>, states: seq<State>, i: nat,
                                          j: nat, id: Uuid)
    requires IsRun(codec, events, states) && i <= j < |states| && Leaked(states[i], id)
    ensures Leaked(states[j], id)
  {
    if i < j {
      RunKeepsLeaked(codec, events, states, i, j - 1, id);
      RunStep(codec, events, states, j - 1);
      NextKeepsLeaked(codec, states[j - 1], events[j - 1], id);
    }
  }

  /** In every continuation of a run that reached `s`, the response map has a slot for `id`. */
  ghost predicate NeverFreed(codec: RecordCodec, s: State, id: Uuid) {
    forall later :: Continues(codec, s, later) ==> id in later.responses
  }

  lemma LeakedNeverFreed(codec: RecordCodec, s: State, id: Uuid)
    requires Leaked(s, id)
    ensures NeverFreed(codec, s, id)
  {
    forall later | Continues(codec, s, later) ensures id in later.responses {
      var events, states, i :| IsRun(codec, events, states) && 0 <= i <= |events| && states[i] == s && states[|events|] == later;
      RunKeepsLeaked(codec, events, states, i, |events|, id);
    }
  }

  lemma PollFrees(codec: RecordCodec, s: State, id: Uuid)
    requires Reachable(codec, s) && Coherent(s) && id in s.responses && id in s.active && id !in s.sends
    ensures Continues(codec, s, Polled(s, id)) && id !in Polled(s, id).responses
  {
    ReachableNext(codec, s, Poll(id), Polled(s, id));
  }

  /**
   The slot of a task that is not waiting for the origin stays in the response map, in every continuation,
   if and only if the task is gone: it was cancelled with a waker in the map, or before it took its
   answer out.
   */
  lemma NeverFreedIff(codec: RecordCodec, s: State, id: Uuid)
    requires Reachable(codec, s) && id in s.responses && id !in s.sends
    ensures NeverFreed(codec, s, id) <==> id !in s.active
  {
    ReachableCoherent(codec, s);
    if id in s.active {
      PollFrees(codec, s, id);
      assert !NeverFreed(codec, s, id);
    } else {
      LeakedNeverFreed(codec, s, id);
    }
  }

  /** The queue never holds a batch that needs a header of its own. */
  lemma QueueMergeable(codec: RecordCodec, s: State, r: nat)
    requires Reachable(codec, s) && r < |s.requests|
    ensures PlainRequest(s.requests[r].request)
  {
    ReachableInv(codec, s);
    MergeableIff(s.requests[r].request);
  }

  /**
   A request for batching is queued at the end if no batch of it needs a header of its own. Any other request
   goes straight to the origin. Either way nothing but its acks changes, and only if they are 0.
   */
  lemma SubmittedWhere(codec: RecordCodec, s: State, id: Uuid, request: ProduceRequest, batched: bool, next: State)
    requires Reachable(codec, s) && Step(codec, s, Submit(id, request, batched), next)
    ensures
      var passed := request.(acks := if request.acks == 0 then 1 else request.acks);
      if batched && PlainRequest(request) then next.requests == s.requests + [BatchRequest(id, passed)] && next.origin == s.origin
      else next.requests == s.requests && next.origin == s.origin + [Direct(passed)]
  {
    ReachableCoherent(codec, s);
    var passed := request.(acks := if request.acks == 0 then 1 else request.acks);
    MergeableIff(request);
    assert Entries(passed) == Entries(request);
  }

  /**
   What a send forwards has one entry for each partition, ascending. An entry for one owner has its
   batches as sent. An entry for several owners has one batch, which means what the accepted owners sent,
   has the header of the first of them, and could itself be merged. The accepted batches are in the
   order of the queue.
   */
  lemma ForwardedShape(codec: RecordCodec, s: State, n: nat, e: nat)
    requires codec.Lawful()
    requires Reachable(codec, s) && n < |s.log| && e < |Entries(s.log[n].forwarded)|
    ensures Ordered(Entries(s.log[n].forwarded))
    ensures
      var entry := Entries(s.log[n].forwarded)[e];
      && ForwardsFor(codec, BatchesFor(s.log[n].requests, entry.topition), entry.records)
      && InQueueOrder(s.log[n].requests, entry.topition, Accepted(codec, BatchesFor(s.log[n].requests, entry.topition)))
  {
    ReachableSend(codec, s, n);
    var entry := Entries(s.log[n].forwarded)[e];
    var t, requests := entry.topition, s.log[n].requests;
    assert entry.records == Some(CombinedGet(s.log[n].combined, t).forwarded);
    QueuedMergeable(requests, t);
    CombinedForwards(codec, BatchesFor(requests, t));
    AcceptedInOrder(codec, requests, t);
  }

  ghost predicate ForwardsFor(codec: RecordCodec, batches: seq<OwnedBatch>, records: Option<seq<Deflated>>) {
    && records.Some?
    && if OneOwner(batches) then
         && Accepted(codec, batches) == batches
         && |records.value| == |batches| && forall i :: 0 <= i < |batches| ==> records.value[i] == batches[i].batch
       else
         && |records.value| == 1
         && Means(codec, records.value[0], Accepted(codec, batches))
         && AllCreateTime(Accepted(codec, batches))
         && Headed(codec, records.value[0], Accepted(codec, batches))
         && MergeableBatch(records.value[0])
  }

  ghost predicate MergeableBatches(batches: seq<OwnedBatch>) {
    forall i :: 0 <= i < |batches| ==> MergeableBatch(batches[i].batch)
  }

  lemma CombinedForwards(codec: RecordCodec, batches: seq<OwnedBatch>)
    requires codec.Lawful() && MergeableBatches(batches)
    requires Combining(codec, batches).forwarded != []
    ensures ForwardsFor(codec, batches, Some(Combining(codec, batches).forwarded))
  {
    if OneOwner(batches) {
      OneOwnerIff(batches);
      OneOwnerForwarded(codec, batches);
      NobodyRejected(codec, batches);
    } else {
      CombineMeaning(codec, batches);
      CombineHeader(codec, batches);
      CombinePartitionsOwners(codec, batches);
      AcceptedMergeable(codec, batches);
      HeadedMergeable(codec, Combining(codec, batches).forwarded[0], Accepted(codec, batches));
    }
  }

  /** A merge of mergeable batches is mergeable. */
  lemma HeadedMergeable(codec: RecordCodec, d: Deflated, accepted: seq<OwnedBatch>)
    requires Headed(codec, d, accepted) && MergeableBatches(accepted)
    ensures MergeableBatch(d)
  {
    assert MergeableBatch(accepted[0].batch);
  }

  lemma AcceptedMergeable(codec: RecordCodec, batches: seq<OwnedBatch>)
    requires MergeableBatches(batches)
    ensures MergeableBatches(Accepted(codec, batches)) && AllCreateTime(Accepted(codec, batches))
  {
    KeepMergeable(batches, Owners(batches) - Combining(codec, batches).rejected.Keys);
  }

  lemma {:induction false} KeepMergeable(batches: seq<OwnedBatch>, ids: set<Uuid>)
    requires MergeableBatches(batches)
    ensures MergeableBatches(Keep(batches, ids))
  {
    if batches != [] {
      KeepMergeable(batches[..|batches| - 1], ids);
    }
  }

  lemma {:induction false} QueuedMergeable(requests: seq<BatchRequest>, t: Topition)
    requires AllMergeable(requests)
    ensures MergeableBatches(BatchesFor(requests, t))
  {
    if requests != [] {
      var n := |requests| - 1;
      QueuedMergeable(requests[..n], t);
      EntriesMergeable(requests[n].id, Entries(requests[n].request), t);
    }
  }

  lemma {:induction false} EntriesMergeable(owner: Uuid, entries: seq<Entry>, t: Topition)
    requires forall i :: 0 <= i < |entries| ==>
               forall k :: 0 <= k < |OrEmpty(entries[i].records)| ==> MergeableBatch(OrEmpty(entries[i].records)[k])
    ensures MergeableBatches(BatchesOf(owner, entries, t))
  {
    if entries != [] {
      EntriesMergeable(owner, entries[..|entries| - 1], t);
    }
  }

  /**
   Storing an answer wakes its task if and only if the task has polled an odd number of times. The
   answer is there either way.
   */
  lemma WokenIff(codec: RecordCodec, s: State, caller: Uuid, origin: ProduceResponse,
                 answers: map<Uuid, ProduceResponse>, next: State, o: Uuid)
    requires Reachable(codec, s) && Step(codec, s, Reply(caller, origin, answers), next)
    requires o in answers && o != caller
    ensures o in s.polls
    ensures o in s.responses && s.responses[o].Waker? <==> s.polls[o] % 2 == 1
    ensures Ready(next.responses, o)
  {
    ReachableCoherent(codec, s);
    var n := s.sends[caller];
    ReachableSend(codec, s, n);
    AnsweredInSend(codec, s.log[n], origin, answers);
    ReachableInv(codec, s);
    InFlightTaken(s, caller, o);
  }

  lemma InFlightTaken(s: State, caller: Uuid, o: Uuid)
    requires Inv(s) && caller in s.sends && s.sends[caller] < |s.log| && o in RequestIds(s.log[s.sends[caller]].requests)
    ensures o in s.status && s.status[o].Taken?
  {
    assert FitsAt(o, s.status[o], s.outcomes);
  }
}
