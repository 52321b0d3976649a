/**
 The fan-out of the batching proxy: the one response of the origin is split back to the requests
 (nisshi-proxy/src/produce.rs, `Owner::from`, `Owner::reject`, `Owner::split`).
 */
module FanOut {
  import opened Prelude
  import opened Combiner
  import opened Ordering
  import opened Requests

  datatype TopicProduceResponse = TopicProduceResponse(
    name: string,
    partitionResponses: Option<seq<PartitionProduceResponse>>)

  datatype NodeEndpoint = NodeEndpoint(nodeId: i32, host: string, port: i32, rack: Option<string>)

  datatype ProduceResponse = ProduceResponse(
    responses: Option<seq<TopicProduceResponse>>,
    throttleTimeMs: Option<i32>,
    nodeEndpoints: Option<seq<NodeEndpoint>>)

  // ------------------------------------------------------------------ reading a response

  datatype Answered = Answered(topition: Topition, row: PartitionProduceResponse)

  function PartitionRows(name: string, rows: seq<PartitionProduceResponse>): seq<Answered> {
    seq(|rows|, i requires 0 <= i < |rows| => Answered(Topition(name, rows[i].index), rows[i]))
  }

  function TopicRows(topics: seq<TopicProduceResponse>): seq<Answered> {
    if topics == [] then []
    else
      var n := |topics| - 1;
      TopicRows(topics[..n]) + PartitionRows(topics[n].name, OrEmpty(topics[n].partitionResponses))
  }

  /** The partition rows of a response, in the order the response lists them. */
  function Rows(response: ProduceResponse): seq<Answered> {
    TopicRows(OrEmpty(response.responses))
  }

  /** The last row for a partition, which is the one that counts when there are several. */
  function LastRow(rows: seq<Answered>, t: Topition): Option<PartitionProduceResponse> {
    if rows == [] then None
    else
      var n := |rows| - 1;
      if rows[n].topition == t then Some(rows[n].row) else LastRow(rows[..n], t)
  }

  function LastRejection(rejections: seq<Rejection>, o: Uuid, t: Topition): Option<PartitionProduceResponse> {
    if rejections == [] then None
    else
      var n := |rejections| - 1;
      if rejections[n].owner == o && rejections[n].topition == t then Some(rejections[n].response)
      else LastRejection(rejections[..n], o, t)
  }

  // ------------------------------------------------------------------ who gets which row

  type Listing = map<Topition, set<Uuid>>

  function OwnersOf(topition: Listing, t: Topition): set<Uuid> {
    if t in topition then topition[t] else {}
  }

  /** The requests that list a partition. */
  function ListedBy(requests: seq<BatchRequest>, t: Topition): set<Uuid> {
    set i | 0 <= i < |requests| && t in Listed(requests[i].request) :: requests[i].id
  }

  /** The row that owner `o` gets for partition `t`: the origin's, where it still counts as an owner. */
  function RowOf(topition: Listing, rejections: seq<Rejection>, rows: seq<Answered>, o: Uuid, t: Topition)
    : Option<PartitionProduceResponse>
  {
    if o in OwnersOf(topition, t) && LastRow(rows, t).Some? then LastRow(rows, t)
    else LastRejection(rejections, o, t)
  }

  // ------------------------------------------------------------------ building the answers

  type Answer = map<string, map<i32, PartitionProduceResponse>>

  function AnswerGet(answer: Answer, t: Topition): Option<PartitionProduceResponse> {
    if t.topic in answer && t.partition in answer[t.topic] then Some(answer[t.topic][t.partition]) else None
  }

  function AnswersGet(answers: map<Uuid, Answer>, o: Uuid, t: Topition): Option<PartitionProduceResponse> {
    if o in answers then AnswerGet(answers[o], t) else None
  }

  /** No owner without a row. */
  ghost predicate NoneEmpty(answers: map<Uuid, Answer>) {
    forall o :: o in answers ==> exists t :: AnswerGet(answers[o], t).Some?
  }

  /** Each key is the index of its row. */
  ghost predicate Indexed(answers: map<Uuid, Answer>) {
    forall o, t :: AnswersGet(answers, o, t).Some? ==> AnswersGet(answers, o, t).value.index == t.partition
  }

  function AnswerPut(answer: Answer, t: Topition, row: PartitionProduceResponse): (r: Answer)
    ensures forall u :: AnswerGet(r, u) == if u == t then Some(row) else AnswerGet(answer, u)
  {
    var partitions: map<i32, PartitionProduceResponse> := if t.topic in answer then answer[t.topic] else map[];
    answer[t.topic := partitions[t.partition := row]]
  }

  function AnswersPut(answers: map<Uuid, Answer>, o: Uuid, t: Topition,
                      row: PartitionProduceResponse): (r: map<Uuid, Answer>)
    ensures forall p, u :: AnswersGet(r, p, u) == if p == o && u == t then Some(row) else AnswersGet(answers, p, u)
  {
    answers[o := AnswerPut(if o in answers then answers[o] else map[], t, row)]
  }

  /** Every owner still has a row, under the index of the row. */
  lemma AnswersPutKeeps(answers: map<Uuid, Answer>, o: Uuid, t: Topition, row: PartitionProduceResponse)
    requires row.index == t.partition
    requires NoneEmpty(answers) && Indexed(answers)
    ensures NoneEmpty(AnswersPut(answers, o, t, row)) && Indexed(AnswersPut(answers, o, t, row))
  {
    var r := AnswersPut(answers, o, t, row);
    forall p | p in r ensures exists u :: AnswerGet(r[p], u).Some? {
      if p == o {
        assert AnswerGet(r[o], t).Some?;
      } else {
        assert r[p] == answers[p];
      }
    }
  }

  /** The innermost loop of `split`: one row for every owner of its partition. */
  method AnswerOwners(before: map<Uuid, Answer>, owners: set<Uuid>, t: Topition, row: PartitionProduceResponse)
    returns (answers: map<Uuid, Answer>)
    requires row.index == t.partition
    requires NoneEmpty(before) && Indexed(before)
    ensures NoneEmpty(answers) && Indexed(answers)
    ensures forall o, u :: AnswersGet(answers, o, u)
                           == if u == t && o in owners then Some(row) else AnswersGet(before, o, u)
  {
    answers := before;
    var rest := owners;
    while rest != {}
      invariant rest <= owners
      invariant NoneEmpty(answers) && Indexed(answers)
      invariant forall o, u :: AnswersGet(answers, o, u)
                               == if u == t && o in owners - rest then Some(row) else AnswersGet(before, o, u)
      decreases rest
    {
      var o :| o in rest;
      AnswersPutKeeps(answers, o, t, row);
      answers := AnswersPut(answers, o, t, row);
      rest := rest - {o};
    }
  }

  /** The first loop of `split`: the rejections. */
  method AnswerRejections(rejections: seq<Rejection>) returns (answers: map<Uuid, Answer>)
    requires forall i :: 0 <= i < |rejections| ==> rejections[i].response.index == rejections[i].topition.partition
    ensures NoneEmpty(answers) && Indexed(answers)
    ensures forall o, t :: AnswersGet(answers, o, t) == LastRejection(rejections, o, t)
  {
    answers := map[];
    var i := 0;
    while i < |rejections|
      invariant 0 <= i <= |rejections|
      invariant NoneEmpty(answers) && Indexed(answers)
      invariant forall o, t :: AnswersGet(answers, o, t) == LastRejection(rejections[..i], o, t)
    {
      assert rejections[..i + 1][..i] == rejections[..i];
      AnswersPutKeeps(answers, rejections[i].owner, rejections[i].topition, rejections[i].response);
      answers := AnswersPut(answers, rejections[i].owner, rejections[i].topition, rejections[i].response);
      i := i + 1;
    }
    assert rejections[..i] == rejections;
  }

  /** The second loop of `split`: the rows of the origin, read in order. */
  method AnswerRows(topition: Listing, rejections: seq<Rejection>, rows: seq<Answered>, before: map<Uuid, Answer>)
    returns (answers: map<Uuid, Answer>)
    requires forall i :: 0 <= i < |rows| ==> rows[i].row.index == rows[i].topition.partition
    requires NoneEmpty(before) && Indexed(before)
    requires forall o, t :: AnswersGet(before, o, t) == LastRejection(rejections, o, t)
    ensures NoneEmpty(answers) && Indexed(answers)
    ensures forall o, t :: AnswersGet(answers, o, t) == RowOf(topition, rejections, rows, o, t)
  {
    answers := before;
    var i := 0;
    while i < |rows|
      invariant 0 <= i <= |rows|
      invariant NoneEmpty(answers) && Indexed(answers)
      invariant forall o, t :: AnswersGet(answers, o, t) == RowOf(topition, rejections, rows[..i], o, t)
    {
      assert rows[..i + 1][..i] == rows[..i];
      answers := AnswerOwners(answers, OwnersOf(topition, rows[i].topition), rows[i].topition, rows[i].row);
      i := i + 1;
    }
    assert rows[..i] == rows;
  }

  // ------------------------------------------------------------------ the responses

  ghost predicate RowsOrdered(rows: seq<Answered>) {
    forall i, j :: 0 <= i < j < |rows| ==> Before(rows[i].topition, rows[j].topition)
  }

  /** `rows` has the rows of the topics in `done`, each once, ascending. */
  ghost predicate RowsListed(answer: Answer, done: set<string>, rows: seq<Answered>) {
    && RowsOrdered(rows)
    && (forall i :: 0 <= i < |rows| ==>
          rows[i].topition.topic in done && AnswerGet(answer, rows[i].topition) == Some(rows[i].row))
    && (forall t: Topition :: t.topic in done && AnswerGet(answer, t).Some? ==>
          exists i :: 0 <= i < |rows| && rows[i].topition == t)
  }

  lemma RowsListedConcat(answer: Answer, done: set<string>, rows: seq<Answered>, name: string, more: seq<Answered>)
    requires forall other :: other in done ==> StringLess(other, name)
    requires RowsListed(answer, done, rows)
    requires RowsListed(answer, {name}, more)
    ensures RowsListed(answer, done + {name}, rows + more)
  {
    var all := rows + more;
    forall i, j | 0 <= i < j < |all|
      ensures Before(all[i].topition, all[j].topition)
    {
      if j < |rows| {
        assert all[i] == rows[i] && all[j] == rows[j];
      } else if i < |rows| {
        assert all[i].topition.topic in done && all[j].topition.topic == name;
      } else {
        assert all[i] == more[i - |rows|] && all[j] == more[j - |rows|];
      }
    }
    forall t: Topition | t.topic in done + {name} && AnswerGet(answer, t).Some?
      ensures exists i :: 0 <= i < |all| && all[i].topition == t
    {
      if t.topic == name {
        var k :| 0 <= k < |more| && more[k].topition == t;
        assert all[|rows| + k].topition == t;
      } else {
        var i :| 0 <= i < |rows| && rows[i].topition == t;
        assert all[i].topition == t;
      }
    }
  }

  /** `BatchPartitionProduceResponse::into_iter`: the rows of one topic by ascending index. */
  method PartitionResponses(partitions: map<i32, PartitionProduceResponse>) returns (rows: seq<PartitionProduceResponse>)
    requires forall p :: p in partitions ==> partitions[p].index == p
    ensures forall i, j :: 0 <= i < j < |rows| ==> rows[i].index < rows[j].index
    ensures forall i :: 0 <= i < |rows| ==> rows[i].index in partitions && partitions[rows[i].index] == rows[i]
    ensures forall p :: p in partitions ==> exists i :: 0 <= i < |rows| && rows[i].index == p
  {
    IntLessIsTotal();
    var indices := AscendingKeys(partitions.Keys, (a: i32, b: i32) => a < b);
    rows := seq(|indices|, i requires 0 <= i < |indices| => partitions[indices[i]]);
    forall p | p in partitions ensures exists i :: 0 <= i < |rows| && rows[i].index == p {
      var i :| 0 <= i < |indices| && indices[i] == p;
      assert rows[i].index == p;
    }
  }

  lemma PartitionRowsListed(answer: Answer, name: string, rows: seq<PartitionProduceResponse>)
    requires name in answer
    requires forall i, j :: 0 <= i < j < |rows| ==> rows[i].index < rows[j].index
    requires forall i :: 0 <= i < |rows| ==> rows[i].index in answer[name] && answer[name][rows[i].index] == rows[i]
    requires forall p :: p in answer[name] ==> exists i :: 0 <= i < |rows| && rows[i].index == p
    ensures RowsListed(answer, {name}, PartitionRows(name, rows))
  {
    var all := PartitionRows(name, rows);
    forall t: Topition | t.topic in {name} && AnswerGet(answer, t).Some?
      ensures exists i :: 0 <= i < |all| && all[i].topition == t
    {
      var k :| 0 <= k < |rows| && rows[k].index == t.partition;
      assert all[k].topition == t;
    }
  }

  /** Each topic is there once, ascending. */
  ghost predicate TopicsOnce(topics: seq<TopicProduceResponse>) {
    && (forall i, j :: 0 <= i < j < |topics| ==> StringLess(topics[i].name, topics[j].name))
    && (forall i :: 0 <= i < |topics| ==> topics[i].partitionResponses.Some?)
  }

  ghost predicate TopicsIn(topics: seq<TopicProduceResponse>, done: set<string>) {
    forall i :: 0 <= i < |topics| ==> topics[i].name in done
  }

  /** One round of `BatchTopicProduceResponse::into_iter`. */
  method TopicResponse(answer: Answer, ghost done: set<string>, name: string, before: seq<TopicProduceResponse>)
    returns (topics: seq<TopicProduceResponse>)
    requires name in answer
    requires forall t :: AnswerGet(answer, t).Some? ==> AnswerGet(answer, t).value.index == t.partition
    requires forall other :: other in done ==> StringLess(other, name)
    requires TopicsOnce(before) && TopicsIn(before, done)
    requires RowsListed(answer, done, TopicRows(before))
    ensures TopicsOnce(topics) && TopicsIn(topics, done + {name})
    ensures RowsListed(answer, done + {name}, TopicRows(topics))
  {
    forall p | p in answer[name] ensures answer[name][p].index == p {
      assert AnswerGet(answer, Topition(name, p)).Some?;
    }
    var rows := PartitionResponses(answer[name]);
    PartitionRowsListed(answer, name, rows);
    RowsListedConcat(answer, done, TopicRows(before), name, PartitionRows(name, rows));
    topics := before + [TopicProduceResponse(name, Some(rows))];
    assert topics[..|before|] == before;
  }

  /** The loop of `BatchTopicProduceResponse::into_iter`, over the topics in order. */
  method AllTopicResponses(answer: Answer, names: seq<string>) returns (topics: seq<TopicProduceResponse>)
    requires forall t :: AnswerGet(answer, t).Some? ==> AnswerGet(answer, t).value.index == t.partition
    requires forall i, j :: 0 <= i < j < |names| ==> StringLess(names[i], names[j])
    requires answer.Keys == set k | 0 <= k < |names| :: names[k]
    ensures TopicsOnce(topics) && RowsListed(answer, answer.Keys, TopicRows(topics))
  {
    topics := [];
    var i := 0;
    ghost var done := {};
    while i < |names|
      invariant 0 <= i <= |names|
      invariant done == set k | 0 <= k < i :: names[k]
      invariant done <= answer.Keys
      invariant TopicsOnce(topics) && TopicsIn(topics, done)
      invariant RowsListed(answer, done, TopicRows(topics))
    {
      topics := TopicResponse(answer, done, names[i], topics);
      done := done + {names[i]};
      i := i + 1;
    }
    assert done == answer.Keys;
  }

  /** `BatchTopicProduceResponse::into_iter`: the topics of one owner's response, ascending. */
  method TopicResponses(answer: Answer) returns (topics: seq<TopicProduceResponse>)
    requires forall t :: AnswerGet(answer, t).Some? ==> AnswerGet(answer, t).value.index == t.partition
    ensures TopicsOnce(topics) && RowsListed(answer, answer.Keys, TopicRows(topics))
  {
    TextLessIsTotal();
    var names := AscendingKeys(answer.Keys, TextLess());
    topics := AllTopicResponses(answer, names);
  }

  /** `response` carries exactly the rows of `answer`, each once, ascending. */
  ghost predicate Carries(response: ProduceResponse, answer: Answer) {
    && response.responses.Some? && TopicsOnce(response.responses.value)
    && RowsOrdered(Rows(response))
    && (forall i :: 0 <= i < |Rows(response)| ==>
          AnswerGet(answer, Rows(response)[i].topition) == Some(Rows(response)[i].row))
    && (forall t :: AnswerGet(answer, t).Some? ==>
          exists i :: 0 <= i < |Rows(response)| && Rows(response)[i].topition == t)
  }

  /** The last part of `split`: one response for each owner. */
  method Responses(answers: map<Uuid, Answer>, origin: ProduceResponse) returns (responses: map<Uuid, ProduceResponse>)
    requires Indexed(answers)
    ensures responses.Keys == answers.Keys
    ensures forall o :: o in responses ==>
              && Carries(responses[o], answers[o])
              && responses[o].throttleTimeMs == origin.throttleTimeMs
              && responses[o].nodeEndpoints == origin.nodeEndpoints
  {
    responses := map[];
    var rest := answers.Keys;
    while rest != {}
      invariant rest <= answers.Keys
      invariant responses.Keys == answers.Keys - rest
      invariant forall o :: o in responses ==>
                  && Carries(responses[o], answers[o])
                  && responses[o].throttleTimeMs == origin.throttleTimeMs
                  && responses[o].nodeEndpoints == origin.nodeEndpoints
      decreases rest
    {
      var o :| o in rest;
      assert forall t :: AnswerGet(answers[o], t) == AnswersGet(answers, o, t);
      var topics := TopicResponses(answers[o]);
      var response := ProduceResponse(Some(topics), origin.throttleTimeMs, origin.nodeEndpoints);
      assert Carries(response, answers[o]);
      responses := responses[o := response];
      rest := rest - {o};
    }
  }

  // ------------------------------------------------------------------ Owner

  /** `response` has exactly the rows that `o` gets, each once, ascending. */
  ghost predicate ResponseFor(topition: Listing, rejections: seq<Rejection>, origin: ProduceResponse, o: Uuid,
                              response: ProduceResponse) {
    && response.responses.Some? && TopicsOnce(response.responses.value)
    && RowsOrdered(Rows(response))
    && (forall i :: 0 <= i < |Rows(response)| ==>
          RowOf(topition, rejections, Rows(origin), o, Rows(response)[i].topition) == Some(Rows(response)[i].row))
    && (forall t :: RowOf(topition, rejections, Rows(origin), o, t).Some? ==>
          exists i :: 0 <= i < |Rows(response)| && Rows(response)[i].topition == t)
    && response.throttleTimeMs == origin.throttleTimeMs
    && response.nodeEndpoints == origin.nodeEndpoints
  }

  ghost predicate SplitBy(topition: Listing, rejections: seq<Rejection>, origin: ProduceResponse,
                          responses: map<Uuid, ProduceResponse>) {
    && (forall o :: o in responses <==> exists t :: RowOf(topition, rejections, Rows(origin), o, t).Some?)
    && (forall o :: o in responses ==> ResponseFor(topition, rejections, origin, o, responses[o]))
  }

  lemma CarriesFor(topition: Listing, rejections: seq<Rejection>, origin: ProduceResponse, o: Uuid, answer: Answer,
                   response: ProduceResponse)
    requires Carries(response, answer)
    requires forall t :: AnswerGet(answer, t) == RowOf(topition, rejections, Rows(origin), o, t)
    requires response.throttleTimeMs == origin.throttleTimeMs && response.nodeEndpoints == origin.nodeEndpoints
    ensures ResponseFor(topition, rejections, origin, o, response)
  {
  }

  lemma {:induction false} RowsIndexed(topics: seq<TopicProduceResponse>)
    ensures forall i :: 0 <= i < |TopicRows(topics)| ==> TopicRows(topics)[i].row.index == TopicRows(topics)[i].topition.partition
  {
    if topics != [] {
      RowsIndexed(topics[..|topics| - 1]);
    }
  }

  /** The rounds of `Owner::from` for one request. */
  method ListRequest(before: Listing, request: BatchRequest) returns (topition: Listing)
    ensures forall t :: OwnersOf(topition, t)
                        == OwnersOf(before, t) + if t in Listed(request.request) then {request.id} else {}
  {
    var entries := Entries(request.request);
    topition := before;
    var i := 0;
    while i < |entries|
      invariant 0 <= i <= |entries|
      invariant forall t :: OwnersOf(topition, t)
                            == OwnersOf(before, t)
                               + if exists k :: 0 <= k < i && entries[k].topition == t then {request.id} else {}
    {
      var t := entries[i].topition;
      topition := topition[t := OwnersOf(topition, t) + {request.id}];
      i := i + 1;
    }
  }

  /** Which requests own which partition, and the partitions that the proxy answers itself. */
  class Owner {
    var topition: Listing
    var rejections: seq<Rejection>

    /** `Owner::from`. */
    constructor From(requests: seq<BatchRequest>)
      ensures forall t :: OwnersOf(topition, t) == ListedBy(requests, t)
      ensures rejections == []
    {
      topition, rejections := map[], [];
      new;
      var i := 0;
      while i < |requests|
        invariant 0 <= i <= |requests|
        invariant forall t :: OwnersOf(topition, t) == ListedBy(requests[..i], t)
        invariant rejections == []
      {
        var listed := ListRequest(topition, requests[i]);
        forall t ensures ListedBy(requests[..i + 1], t)
                         == ListedBy(requests[..i], t) + if t in Listed(requests[i].request) then {requests[i].id} else {}
        {
          ListedBySnoc(requests, i, t);
        }
        topition := listed;
        i := i + 1;
      }
      assert requests[..i] == requests;
    }

    /** `Owner::reject`: the owner no longer gets the origin's row for that partition. */
    method Reject(rejection: Rejection)
      modifies this
      ensures rejections == old(rejections) + [rejection]
      ensures forall t :: OwnersOf(topition, t)
                          == OwnersOf(old(topition), t) - if t == rejection.topition then {rejection.owner} else {}
    {
      if rejection.topition in topition {
        topition := topition[rejection.topition := topition[rejection.topition] - {rejection.owner}];
      }
      rejections := rejections + [rejection];
    }

    /** The loop of `send_pending_batch` that applies the rejections of the fan-in. */
    method RejectAll(more: seq<Rejection>)
      modifies this
      ensures rejections == old(rejections) + more
      ensures forall o, t :: o in OwnersOf(topition, t) <==>
                             && o in OwnersOf(old(topition), t)
                             && !(exists k :: 0 <= k < |more| && more[k].owner == o && more[k].topition == t)
    {
      var i := 0;
      while i < |more|
        invariant 0 <= i <= |more|
        invariant rejections == old(rejections) + more[..i]
        invariant forall o, t :: o in OwnersOf(topition, t) <==>
                                 && o in OwnersOf(old(topition), t)
                                 && !(exists k :: 0 <= k < i && more[k].owner == o && more[k].topition == t)
      {
        Reject(more[i]);
        i := i + 1;
      }
      assert more[..i] == more;
    }

    /** `Owner::split`. */
    method Split(origin: ProduceResponse) returns (responses: map<Uuid, ProduceResponse>)
      requires forall i :: 0 <= i < |rejections| ==> rejections[i].response.index == rejections[i].topition.partition
      ensures SplitBy(topition, rejections, origin, responses)
    {
      RowsIndexed(OrEmpty(origin.responses));
      var rejected := AnswerRejections(rejections);
      var answers := AnswerRows(topition, rejections, Rows(origin), rejected);
      responses := Responses(answers, origin);
      forall o ensures o in responses <==> exists t :: RowOf(topition, rejections, Rows(origin), o, t).Some? {
        if o in responses {
          var t :| AnswerGet(answers[o], t).Some?;
          assert AnswersGet(answers, o, t) == RowOf(topition, rejections, Rows(origin), o, t);
        }
        if t :| RowOf(topition, rejections, Rows(origin), o, t).Some? {
          assert AnswersGet(answers, o, t).Some?;
        }
      }
      forall o | o in responses ensures ResponseFor(topition, rejections, origin, o, responses[o]) {
        forall t ensures AnswerGet(answers[o], t) == RowOf(topition, rejections, Rows(origin), o, t) {
          assert AnswersGet(answers, o, t) == AnswerGet(answers[o], t);
        }
        CarriesFor(topition, rejections, origin, o, answers[o], responses[o]);
      }
    }
  }

  lemma ListedBySnoc(requests: seq<BatchRequest>, i: nat, t: Topition)
    requires i < |requests|
    ensures ListedBy(requests[..i + 1], t)
            == ListedBy(requests[..i], t) + if t in Listed(requests[i].request) then {requests[i].id} else {}
  {
    var more := requests[..i + 1];
    assert more[i] == requests[i];
    assert forall k :: 0 <= k < i ==> more[k] == requests[..i][k];
    assert ListedBy(more, t) <= ListedBy(requests[..i], t) + if t in Listed(requests[i].request) then {requests[i].id} else {};
  }
}
