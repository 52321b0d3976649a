/**
 The batching service itself (nisshi-proxy/src/produce.rs, `BatchProduceService` and `Ticket`): its
 two shared fields, and the critical sections that update them. Each method refines the event of the
 same name: from fields that show a state `s` of `Batcher`, it ends in fields that show a state to which
 that event takes `s`.
 */
module BatchService {
  import opened Prelude
  import opened Records
  import opened Combiner
  import opened Requests
  import opened FanOut
  import opened FanProofs
  import opened AcksZero
  import opened Batcher

  /** `owners` stands for what `send` took, with its rejections applied. */
  ghost predicate Stands(owners: Owner, send: Send)
    reads owners
  {
    && RowsStand(owners.topition, owners.rejections, send)
    && (forall i :: 0 <= i < |owners.rejections| ==> owners.rejections[i].response.index == owners.rejections[i].topition.partition)
  }

  ghost predicate RowsStand(topition: Listing, rejections: seq<Rejection>, send: Send) {
    && RejectedBy(send.combined, rejections)
    && (forall o, t :: o in OwnersOf(topition, t) <==>
          && o in ListedBy(send.requests, t)
          && !(exists k :: 0 <= k < |rejections| && rejections[k].owner == o && rejections[k].topition == t))
  }

  lemma RejectionsIndexed(combined: CombinedRun, rejections: seq<Rejection>)
    requires RejectedBy(combined, rejections)
    ensures forall i :: 0 <= i < |rejections| ==> rejections[i].response.index == rejections[i].topition.partition
  {
    forall i | 0 <= i < |rejections| ensures rejections[i].response.index == rejections[i].topition.partition {
      assert rejections[i] in rejections;
      assert Rejects(CombinedGet(combined, rejections[i].topition), rejections[i]);
    }
  }

  lemma StandsSplits(topition: Listing, rejections: seq<Rejection>, send: Send, origin: ProduceResponse,
                     answers: map<Uuid, ProduceResponse>)
    requires RowsStand(topition, rejections, send)
    requires SplitBy(topition, rejections, origin, answers)
    ensures SplitOf(send.combined, send.requests, origin, answers)
  {
    RowsAgree(send.combined, send.requests, topition, rejections, Rows(origin));
    SplitByIsSplitOf(send.combined, send.requests, topition, rejections, origin, answers);
  }

  lemma StoreWithout(responses: map<Uuid, Slot>, id: Uuid, answers: map<Uuid, ProduceResponse>)
    ensures id in answers ==> Store(responses - {id}, id, answers) == Store(responses, id, answers)
  {
  }

  lemma TakeStep(codec: RecordCodec, s: State, caller: Uuid, send: Send)
    requires Coherent(s) && caller in s.active && caller !in s.sends
    requires s.requests != [] && send.requests == s.requests && IsSend(codec, send)
    ensures
      var taken := TakenAll(s, caller, send.forwarded, send.combined);
      && Step(codec, s, Event.TakeAll(caller, send.forwarded, send.combined), taken)
      && Coherent(taken) && caller in taken.sends && taken.log[taken.sends[caller]] == send
  {
  }

  lemma ReplyStep(codec: RecordCodec, s: State, caller: Uuid, origin: ProduceResponse,
                  answers: map<Uuid, ProduceResponse>)
    requires Coherent(s) && caller in s.sends
    requires Sendless(s.log[s.sends[caller]].forwarded) ==> origin == NO_PARTITIONS
    requires SplitOf(s.log[s.sends[caller]].combined, s.log[s.sends[caller]].requests, origin, answers)
    ensures Step(codec, s, Event.Reply(caller, origin, answers), RepliedTo(s, caller, origin, answers))
  {
  }

  class BatchProduceService {
    var requests: seq<BatchRequest>
    var responses: map<Uuid, Slot>

    constructor ()
      ensures requests == [] && responses == map[]
      ensures Shows(Initial())
    {
      requests, responses := [], map[];
    }

    /** The shared fields are those of `s`. */
    ghost predicate Shows(s: State)
      reads this
    {
      requests == s.requests && responses == s.responses
    }

    /** The start of `serve`, for what the layers above made of `sent`: a request that cannot merge bypasses the queue. */
    method Submit(ghost codec: RecordCodec, id: Uuid, request: ProduceRequest, ghost sent: ProduceRequest,
                  ghost s: State)
      returns (bypassed: bool)
      requires Shows(s) && id !in s.status && request == ToOrigin(sent)
      modifies this`requests
      ensures bypassed <==> !Mergeable(request)
      ensures requests == if bypassed then old(requests) else old(requests) + [BatchRequest(id, request)]
      ensures Step(codec, s, Event.Submit(id, sent, true), Submitted(s, id, sent, true))
      ensures Shows(Submitted(s, id, sent, true))
    {
      bypassed := !Mergeable(request);
      if !bypassed {
        requests := requests + [BatchRequest(id, request)];
      }
    }

    /** `send_pending_batch` up to the call of the origin. */
    method TakeAll(codec: RecordCodec, caller: Uuid, ghost s: State) returns (send: Option<Send>, owners: Owner?)
      requires Shows(s) && Coherent(s) && caller in s.active && caller !in s.sends
      modifies this`requests
      ensures requests == []
      ensures old(requests) == [] ==> send == None && Shows(s)
      ensures old(requests) != [] ==>
                && send.Some? && send.value.requests == old(requests) && IsSend(codec, send.value)
                && owners != null && fresh(owners) && Stands(owners, send.value)
      ensures send.Some? ==>
                var taken := TakenAll(s, caller, send.value.forwarded, send.value.combined);
                Step(codec, s, Event.TakeAll(caller, send.value.forwarded, send.value.combined), taken) && Shows(taken)
    {
      var taken := requests;
      requests := [];
      send, owners := None, null;
      if taken == [] {
        return;
      }
      var listing := new Owner.From(taken);
      var forwarded, rejections, combined := ProduceRequestFor(codec, taken);
      listing.RejectAll(rejections);
      send, owners := Some(Send(taken, forwarded, combined)), listing;
      RejectionsIndexed(combined, rejections);
      assert listing.rejections == rejections;
      TakeStep(codec, s, caller, send.value);
    }

    /** The loop of `send_pending_batch` that stores the answers of the other tasks. */
    method StoreAll(id: Uuid, answers: map<Uuid, ProduceResponse>)
      requires id in answers ==> id !in responses
      modifies this`responses
      ensures responses == Store(old(responses), id, answers)
    {
      var rest := answers.Keys - {id};
      while rest != {}
        invariant rest <= answers.Keys - {id}
        invariant responses.Keys == old(responses).Keys + (answers.Keys - {id} - rest)
        invariant forall o :: o in responses ==>
                    responses[o] == if o in answers && o != id && o !in rest then Response(answers[o]) else old(responses)[o]
        decreases rest
      {
        var o :| o in rest;
        responses := responses[o := Response(answers[o])];
        rest := rest - {o};
      }
    }

    /** `send_pending_batch` after the origin answered. */
    method Reply(ghost codec: RecordCodec, id: Uuid, owners: Owner, origin: ProduceResponse, ghost s: State)
      returns (own: Option<ProduceResponse>, answers: map<Uuid, ProduceResponse>)
      requires Shows(s) && Coherent(s) && id in s.sends && Stands(owners, s.log[s.sends[id]])
      requires Sendless(s.log[s.sends[id]].forwarded) ==> origin == NO_PARTITIONS
      modifies this`responses
      ensures SplitOf(s.log[s.sends[id]].combined, s.log[s.sends[id]].requests, origin, answers)
      ensures own == if id in answers then Some(answers[id]) else None
      ensures responses == Store(old(responses), id, answers)
      ensures Step(codec, s, Event.Reply(id, origin, answers), RepliedTo(s, id, origin, answers))
      ensures Shows(RepliedTo(s, id, origin, answers))
    {
      answers := owners.Split(origin);
      StandsSplits(owners.topition, owners.rejections, s.log[s.sends[id]], origin, answers);
      own := None;
      if id in answers {
        own := Some(answers[id]);
        responses := responses - {id};
      }
      StoreAll(id, answers);
      StoreWithout(old(responses), id, answers);
      ReplyStep(codec, s, id, origin, answers);
    }

    /** `Ticket::poll`. */
    method Poll(ghost codec: RecordCodec, id: Uuid, ghost s: State) returns (response: Option<ProduceResponse>)
      requires Shows(s) && Coherent(s) && id in s.active && id !in s.sends
      modifies this`responses
      ensures response == if Ready(old(responses), id) then Some(old(responses)[id].response) else None
      ensures responses == PollSlot(old(responses), id)
      ensures Step(codec, s, Event.Poll(id), Polled(s, id)) && Shows(Polled(s, id))
    {
      response := None;
      if id in responses {
        if responses[id].Response? {
          response := Some(responses[id].response);
        }
        responses := responses - {id};
      } else {
        responses := responses[id := Waker];
      }
    }

    /**
     `send_pending_batch` of a task that no other task interrupts, where `outcome` is what the
     origin does with the forwarded request. Nothing is stored when the origin fails, and the
     origin is not called when nothing is forwarded.
     */
    method SendPendingBatch(codec: RecordCodec, id: Uuid, outcome: Result<ProduceResponse, string>, ghost s: State)
      returns (result: Result<Option<ProduceResponse>, string>, send: Option<Send>, answers: map<Uuid, ProduceResponse>,
               ghost taken: State, ghost next: State)
      requires Shows(s) && Coherent(s) && id in s.active && id !in s.sends
      modifies this
      ensures requests == []
      ensures old(requests) == [] ==> send == None
      ensures old(requests) != [] ==> send.Some? && send.value.requests == old(requests) && IsSend(codec, send.value)
      ensures send.None? ==> result == Ok(None) && responses == old(responses) && next == taken == s
      ensures send.Some? ==> Step(codec, s, Event.TakeAll(id, send.value.forwarded, send.value.combined), taken)
      ensures send.Some? && !Sendless(send.value.forwarded) && outcome.Err? ==>
                && result == Err(outcome.error) && responses == old(responses)
                && Step(codec, taken, Event.Fail(id), next)
      ensures send.Some? && (Sendless(send.value.forwarded) || outcome.Ok?) ==>
                var origin := if Sendless(send.value.forwarded) then NO_PARTITIONS else outcome.value;
                && SplitOf(send.value.combined, send.value.requests, origin, answers)
                && result == Ok(if id in answers then Some(answers[id]) else None)
                && responses == Store(old(responses), id, answers)
                && Step(codec, taken, Event.Reply(id, origin, answers), next)
      ensures Shows(next)
    {
      var owners;
      answers, taken, next := map[], s, s;
      send, owners := TakeAll(codec, id, s);
      if send.None? {
        return Ok(None), send, answers, taken, next;
      }
      taken := TakenAll(s, id, send.value.forwarded, send.value.combined);
      TakeStep(codec, s, id, send.value);
      var origin := NO_PARTITIONS;
      if !Sendless(send.value.forwarded) {
        if outcome.Err? {
          next := Losing(taken, id);
          return Err(outcome.error), send, answers, taken, next;
        }
        origin := outcome.value;
      }
      var own;
      own, answers := Reply(codec, id, owners, origin, taken);
      next := RepliedTo(taken, id, origin, answers);
      result := Ok(own);
    }
  }
}
