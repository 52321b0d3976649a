/**
 The protocol of the batching proxy (nisshi-proxy/src/produce.rs, `BatchProduceService::serve`,
 `send_pending_batch` and `Ticket::poll`) as a state machine. Each event is one critical section
 of the source, so that a run is an interleaving of any number of client tasks. A timeout or a
 full batch may make a task take the queue at any moment, and a task may be cancelled at any
 moment.
 */
module Batcher {
  import opened Prelude
  import opened Records
  import opened Combiner
  import opened Requests
  import opened FanOut
  import opened FanProofs
  import opened AcksZero

  /** `BatchResponse`. */
  datatype Slot = Waker | Response(response: ProduceResponse)

  /** The requests that one task took from the queue, and what it made of them. */
  datatype Send = Send(requests: seq<BatchRequest>, forwarded: ProduceRequest, combined: CombinedRun)

  datatype Outcome = InFlight | Replied(origin: ProduceResponse, answers: map<Uuid, ProduceResponse>) | Lost

  /** Where a queued request is. After the queue, `n` is the index of the send that took it. */
  datatype Status =
    | Queued
    | Taken(n: nat)
    | Stored(n: nat)
    | Delivered(n: nat)
    | Dropped(n: nat)
    | Unanswered(n: nat)

  /** A request as the origin gets it: past the queue, or for send `n`. */
  datatype Outgoing = Direct(request: ProduceRequest) | FromSend(n: nat, request: ProduceRequest)

  datatype Delivery = Delivery(owner: Uuid, response: ProduceResponse)

  /**
   `requests` and `responses` are the shared fields of the service, `active` are the tasks that are
   still in `serve`, and `sends` has those that wait for the origin. The rest is history.
   */
  datatype State = State(
    requests: seq<BatchRequest>,
    responses: map<Uuid, Slot>,
    active: set<Uuid>,
    sends: map<Uuid, nat>,
    status: map<Uuid, Status>,
    log: seq<Send>,
    outcomes: seq<Outcome>,
    deliveries: seq<Delivery>,
    origin: seq<Outgoing>,
    polls: map<Uuid, nat>)

  datatype Event =
    | Submit(id: Uuid, request: ProduceRequest, batched: bool)
    | TakeAll(caller: Uuid, forwarded: ProduceRequest, combined: CombinedRun)
    | Reply(caller: Uuid, origin: ProduceResponse, answers: map<Uuid, ProduceResponse>)
    | Fail(caller: Uuid)
    | Poll(id: Uuid)
    | Cancel(id: Uuid)

  const NO_PARTITIONS := ProduceResponse(Some([]), Some(0), None)

  function RequestIds(requests: seq<BatchRequest>): set<Uuid> {
    set i | 0 <= i < |requests| :: requests[i].id
  }

  /** What `produce_request` makes of the taken requests. */
  ghost predicate IsSend(codec: RecordCodec, send: Send) {
    && IsCombined(codec, send.requests, send.combined)
    && ForwardedBy(send.combined, Entries(send.forwarded))
    && send.forwarded.acks == BatchAcks(send.requests)
    && send.forwarded.timeoutMs == 5000 && send.forwarded.transactionalId.None?
    && send.forwarded.topicData.Some? && Grouped(send.forwarded.topicData.value)
  }

  predicate Sendless(request: ProduceRequest) {
    OrEmpty(request.topicData) == []
  }

  function Initial(): State {
    State([], map[], {}, map[], map[], [], [], [], [], map[])
  }

  // ------------------------------------------------------------------ the steps

  /** The layers above the service pass a request on, and `serve` enqueues it or bypasses the queue. */
  function Submitted(s: State, id: Uuid, request: ProduceRequest, batched: bool): State {
    var passed := ToOrigin(request);
    if !batched || !Mergeable(passed) then s.(origin := s.origin + [Direct(passed)])
    else
      s.(requests := s.requests + [BatchRequest(id, passed)],
         active := s.active + {id},
         status := s.status[id := Queued],
         polls := s.polls[id := 0])
  }

  /** All of `ids` move to `to`. */
  function Moved(status: map<Uuid, Status>, ids: set<Uuid>, to: Status): map<Uuid, Status> {
    map id | id in status :: if id in ids then to else status[id]
  }

  /** The first half of `send_pending_batch`, up to the call of the origin. */
  function TakenAll(s: State, caller: Uuid, forwarded: ProduceRequest, combined: CombinedRun): State {
    if s.requests == [] then s
    else
      s.(requests := [],
         sends := s.sends[caller := |s.log|],
         status := Moved(s.status, RequestIds(s.requests), Taken(|s.log|)),
         log := s.log + [Send(s.requests, forwarded, combined)],
         outcomes := s.outcomes + [InFlight],
         origin := if Sendless(forwarded) then s.origin else s.origin + [FromSend(|s.log|, forwarded)])
  }

  /** The response map after the answers of a send are in, all but the caller's own. */
  function Store(responses: map<Uuid, Slot>, caller: Uuid, answers: map<Uuid, ProduceResponse>): map<Uuid, Slot> {
    map id | id in responses.Keys + answers.Keys && !(id == caller && caller in answers) ::
      if id in answers then Response(answers[id]) else responses[id]
  }

  function Settle(status: map<Uuid, Status>, ids: set<Uuid>, n: nat, caller: Uuid,
                  answers: map<Uuid, ProduceResponse>): map<Uuid, Status> {
    map id | id in status ::
      if id !in ids then status[id]
      else if id !in answers then Unanswered(n)
      else if id == caller then Delivered(n)
      else Stored(n)
  }

  /** The second half of `send_pending_batch`. */
  function RepliedTo(s: State, caller: Uuid, origin: ProduceResponse, answers: map<Uuid, ProduceResponse>): State
    requires caller in s.sends && s.sends[caller] < |s.log| == |s.outcomes|
  {
    var n := s.sends[caller];
    s.(responses := Store(s.responses, caller, answers),
       sends := s.sends - {caller},
       outcomes := s.outcomes[n := Replied(origin, answers)],
       status := Settle(s.status, RequestIds(s.log[n].requests), n, caller, answers),
       active := if caller in answers then s.active - {caller} else s.active,
       deliveries := if caller in answers then s.deliveries + [Delivery(caller, answers[caller])] else s.deliveries)
  }

  /** The send of `caller` ends with nothing stored: the origin failed, or the task was cancelled. */
  function Losing(s: State, caller: Uuid): State
    requires caller in s.sends && s.sends[caller] < |s.log| == |s.outcomes|
  {
    var n := s.sends[caller];
    s.(sends := s.sends - {caller},
       outcomes := s.outcomes[n := Lost],
       status := Moved(s.status, RequestIds(s.log[n].requests), Dropped(n)))
  }

  /** What `Ticket::poll` does to the response map. */
  function PollSlot(responses: map<Uuid, Slot>, id: Uuid): map<Uuid, Slot> {
    if id in responses then responses - {id} else responses[id := Waker]
  }

  function Delivering(status: Status): Status {
    if status.Queued? then status else Delivered(status.n)
  }

  predicate Ready(responses: map<Uuid, Slot>, id: Uuid) {
    id in responses && responses[id].Response?
  }

  function PolledReady(s: State, id: Uuid): State
    requires id in s.polls && id in s.status && Ready(s.responses, id)
  {
    s.(responses := PollSlot(s.responses, id),
       active := s.active - {id},
       status := s.status[id := Delivering(s.status[id])],
       deliveries := s.deliveries + [Delivery(id, s.responses[id].response)],
       polls := s.polls[id := s.polls[id] + 1])
  }

  function PolledPending(s: State, id: Uuid): State
    requires id in s.polls
  {
    s.(responses := PollSlot(s.responses, id), polls := s.polls[id := s.polls[id] + 1])
  }

  function Polled(s: State, id: Uuid): State
    requires id in s.polls && id in s.status
  {
    if Ready(s.responses, id) then PolledReady(s, id) else PolledPending(s, id)
  }

  function Cancelled(s: State, id: Uuid): State
    requires id in s.sends ==> s.sends[id] < |s.log| == |s.outcomes|
  {
    var left := s.(active := s.active - {id});
    if id in s.sends then Losing(left, id) else left
  }

  // ------------------------------------------------------------------ runs

  /** The bookkeeping that the steps rely on. */
  ghost predicate Coherent(s: State) {
    && |s.log| == |s.outcomes|
    && (forall c :: c in s.sends ==> s.sends[c] < |s.log|)
    && s.polls.Keys == s.status.Keys
    && s.active <= s.status.Keys
  }

  ghost predicate Enabled(codec: RecordCodec, s: State, e: Event)
    requires Coherent(s)
  {
    match e
    case Submit(id, _, _) => id !in s.status
    case TakeAll(caller, forwarded, combined) =>
      && caller in s.active && caller !in s.sends
      && (s.requests != [] ==> IsSend(codec, Send(s.requests, forwarded, combined)))
    case Reply(caller, origin, answers) =>
      && caller in s.sends
      && (Sendless(s.log[s.sends[caller]].forwarded) ==> origin == NO_PARTITIONS)
      && SplitOf(s.log[s.sends[caller]].combined, s.log[s.sends[caller]].requests, origin, answers)
    case Fail(caller) => caller in s.sends && !Sendless(s.log[s.sends[caller]].forwarded)
    case Poll(id) => id in s.active && id !in s.sends
    case Cancel(id) => id in s.active
  }

  ghost function Next(codec: RecordCodec, s: State, e: Event): State
    requires Coherent(s) && Enabled(codec, s, e)
  {
    match e
    case Submit(id, request, batched) => Submitted(s, id, request, batched)
    case TakeAll(caller, forwarded, combined) => TakenAll(s, caller, forwarded, combined)
    case Reply(caller, origin, answers) => RepliedTo(s, caller, origin, answers)
    case Fail(caller) => Losing(s, caller)
    case Poll(id) => Polled(s, id)
    case Cancel(id) => Cancelled(s, id)
  }

  /**
   Event `e` takes `s` to `next`. The guard is there because `Next` is not defined without it, and it
   excludes nothing: each state of a run is coherent (`BatcherProofs.RunCoherent`).
   */
  ghost predicate Step(codec: RecordCodec, s: State, e: Event, next: State) {
    Coherent(s) ==> Enabled(codec, s, e) && next == Next(codec, s, e)
  }

  /** `states` is a run of the protocol under `events`. */
  ghost predicate IsRun(codec: RecordCodec, events: seq<Event>, states: seq<State>) {
    && |states| == |events| + 1
    && states[0] == Initial()
    && forall i :: 0 <= i < |events| ==> Step(codec, states[i], events[i], states[i + 1])
  }

  /** `s` is the last state of some run. */
  ghost predicate Reachable(codec: RecordCodec, s: State) {
    exists events, states :: IsRun(codec, events, states) && states[|events|] == s
  }

  /** `later` comes at or after `s` in some run. */
  ghost predicate Continues(codec: RecordCodec, s: State, later: State) {
    exists events, states, i :: IsRun(codec, events, states) && 0 <= i <= |events| && states[i] == s && states[|events|] == later
  }
}
