/**
 The fan-out undoes the fan-in: what each request of a batch gets back, in terms of what it sent
 (nisshi-proxy/src/produce.rs:222-296, 494-595, 644-765).
 */
module FanProofs {
  import opened Prelude
  import opened Records
  import opened Combiner
  import opened CombinerProofs
  import opened Requests
  import opened FanOut

  /**
   The row that request `o` gets for partition `t`: its rejection, or else the origin's row, where
   it lists the partition.
   */
  function AnswerRow(combined: CombinedRun, requests: seq<BatchRequest>, rows: seq<Answered>, o: Uuid, t: Topition)
    : Option<PartitionProduceResponse>
  {
    var rejected := CombinedGet(combined, t).rejected;
    if o in rejected then Some(RejectedRow(t.partition, ErrorCode(rejected[o])))
    else if o in ListedBy(requests, t) then LastRow(rows, t)
    else None
  }

  /** `response` has exactly the rows that `o` gets, each once, ascending. */
  ghost predicate Answers(combined: CombinedRun, requests: seq<BatchRequest>, origin: ProduceResponse, o: Uuid,
                          response: ProduceResponse) {
    && response.responses.Some? && TopicsOnce(response.responses.value)
    && RowsOrdered(Rows(response))
    && (forall i :: 0 <= i < |Rows(response)| ==>
          AnswerRow(combined, requests, Rows(origin), o, Rows(response)[i].topition) == Some(Rows(response)[i].row))
    && (forall t :: AnswerRow(combined, requests, Rows(origin), o, t).Some? ==>
          exists i :: 0 <= i < |Rows(response)| && Rows(response)[i].topition == t)
    && response.throttleTimeMs == origin.throttleTimeMs
    && response.nodeEndpoints == origin.nodeEndpoints
  }

  /** `responses` answers exactly the requests with a row. */
  ghost predicate SplitOf(combined: CombinedRun, requests: seq<BatchRequest>, origin: ProduceResponse,
                          responses: map<Uuid, ProduceResponse>) {
    && (forall o :: o in responses <==> exists t :: AnswerRow(combined, requests, Rows(origin), o, t).Some?)
    && (forall o :: o in responses ==> Answers(combined, requests, origin, o, responses[o]))
  }

  // ------------------------------------------------------------------ the fan-out meets the fan-in

  lemma {:induction false} LastRejectionIs(rejections: seq<Rejection>, o: Uuid, t: Topition)
    ensures LastRejection(rejections, o, t).Some? <==>
            exists k :: 0 <= k < |rejections| && rejections[k].owner == o && rejections[k].topition == t
    ensures LastRejection(rejections, o, t).Some? ==>
            Rejection(o, t, LastRejection(rejections, o, t).value) in rejections
  {
    if rejections != [] {
      var n := |rejections| - 1;
      LastRejectionIs(rejections[..n], o, t);
      if rejections[n].owner == o && rejections[n].topition == t {
        assert rejections[n] == Rejection(o, t, rejections[n].response);
      } else {
        assert forall k :: 0 <= k < n ==> rejections[..n][k] == rejections[k];
        if LastRejection(rejections[..n], o, t).Some? {
          var k :| 0 <= k < n && rejections[..n][k].owner == o && rejections[..n][k].topition == t;
          assert rejections[k].owner == o && rejections[k].topition == t;
        }
      }
    }
  }

  /** After the fan-in's rejections are applied, each owner gets the row it should. */
  lemma RowOfIsAnswerRow(combined: CombinedRun, requests: seq<BatchRequest>, topition: Listing,
                         rejections: seq<Rejection>, rows: seq<Answered>, o: Uuid, t: Topition)
    requires RejectedBy(combined, rejections)
    requires o in OwnersOf(topition, t) <==>
             && o in ListedBy(requests, t)
             && !(exists k :: 0 <= k < |rejections| && rejections[k].owner == o && rejections[k].topition == t)
    ensures RowOf(topition, rejections, rows, o, t) == AnswerRow(combined, requests, rows, o, t)
  {
    LastRejectionIs(rejections, o, t);
    var rejected := CombinedGet(combined, t).rejected;
    if o in rejected {
      var r := Rejection(o, t, RejectedRow(t.partition, ErrorCode(rejected[o])));
      assert r in rejections;
      var k :| 0 <= k < |rejections| && rejections[k] == r;
    }
  }

  lemma RowsAgree(combined: CombinedRun, requests: seq<BatchRequest>, topition: Listing, rejections: seq<Rejection>,
                  rows: seq<Answered>)
    requires RejectedBy(combined, rejections)
    requires forall o, t :: o in OwnersOf(topition, t) <==>
               && o in ListedBy(requests, t)
               && !(exists k :: 0 <= k < |rejections| && rejections[k].owner == o && rejections[k].topition == t)
    ensures forall o, t :: RowOf(topition, rejections, rows, o, t) == AnswerRow(combined, requests, rows, o, t)
  {
    forall o, t ensures RowOf(topition, rejections, rows, o, t) == AnswerRow(combined, requests, rows, o, t) {
      RowOfIsAnswerRow(combined, requests, topition, rejections, rows, o, t);
    }
  }

  lemma ResponseForAnswers(combined: CombinedRun, requests: seq<BatchRequest>, topition: Listing,
                           rejections: seq<Rejection>,
                           origin: ProduceResponse, o: Uuid, response: ProduceResponse)
    requires forall t :: RowOf(topition, rejections, Rows(origin), o, t) == AnswerRow(combined, requests, Rows(origin), o, t)
    requires ResponseFor(topition, rejections, origin, o, response)
    ensures Answers(combined, requests, origin, o, response)
  {
  }

  lemma SplitAnswers(combined: CombinedRun, requests: seq<BatchRequest>, topition: Listing, rejections: seq<Rejection>,
                     origin: ProduceResponse, responses: map<Uuid, ProduceResponse>, o: Uuid)
    requires forall t :: RowOf(topition, rejections, Rows(origin), o, t) == AnswerRow(combined, requests, Rows(origin), o, t)
    requires SplitBy(topition, rejections, origin, responses)
    ensures o in responses <==> exists t :: AnswerRow(combined, requests, Rows(origin), o, t).Some?
    ensures o in responses ==> Answers(combined, requests, origin, o, responses[o])
  {
    if o in responses {
      var t :| RowOf(topition, rejections, Rows(origin), o, t).Some?;
      assert AnswerRow(combined, requests, Rows(origin), o, t).Some?;
      ResponseForAnswers(combined, requests, topition, rejections, origin, o, responses[o]);
    }
    if t :| AnswerRow(combined, requests, Rows(origin), o, t).Some? {
      assert RowOf(topition, rejections, Rows(origin), o, t).Some?;
    }
  }

  /** What `Owner::split` computes is what the fan-in calls for. */
  lemma SplitByIsSplitOf(combined: CombinedRun, requests: seq<BatchRequest>, topition: Listing,
                         rejections: seq<Rejection>,
                         origin: ProduceResponse, responses: map<Uuid, ProduceResponse>)
    requires forall o, t :: RowOf(topition, rejections, Rows(origin), o, t) == AnswerRow(combined, requests, Rows(origin), o, t)
    requires SplitBy(topition, rejections, origin, responses)
    ensures SplitOf(combined, requests, origin, responses)
  {
    forall o
      ensures o in responses <==> exists t :: AnswerRow(combined, requests, Rows(origin), o, t).Some?
      ensures o in responses ==> Answers(combined, requests, origin, o, responses[o])
    {
      SplitAnswers(combined, requests, topition, rejections, origin, responses, o);
    }
  }

  // ------------------------------------------------------------------ where a row comes from

  /** Row `j` of topic `i` is for partition `t`. */
  predicate RowAt(topics: seq<TopicProduceResponse>, t: Topition, i: nat, j: nat) {
    && i < |topics| && topics[i].name == t.topic
    && j < |OrEmpty(topics[i].partitionResponses)| && OrEmpty(topics[i].partitionResponses)[j].index == t.partition
  }

  /** No row for `t` comes after row `j` of topic `i`. */
  ghost predicate LastRowAt(topics: seq<TopicProduceResponse>, t: Topition, i: nat, j: nat) {
    && RowAt(topics, t, i, j)
    && forall k: nat, l: nat :: RowAt(topics, t, k, l) ==> k < i || (k == i && l <= j)
  }

  /** `row` is the last row for `t`. */
  ghost predicate IsLastRow(topics: seq<TopicProduceResponse>, t: Topition, row: PartitionProduceResponse) {
    exists i: nat, j: nat :: LastRowAt(topics, t, i, j) && OrEmpty(topics[i].partitionResponses)[j] == row
  }

  ghost predicate HasRow(topics: seq<TopicProduceResponse>, t: Topition) {
    exists i: nat, j: nat :: RowAt(topics, t, i, j)
  }

  lemma {:induction false} LastRowConcat(a: seq<Answered>, b: seq<Answered>, t: Topition)
    ensures LastRow(a + b, t) == if LastRow(b, t).Some? then LastRow(b, t) else LastRow(a, t)
  {
    if b == [] {
      assert a + b == a;
    } else {
      var n := |b| - 1;
      assert (a + b)[..|a| + n] == a + b[..n];
      LastRowConcat(a, b[..n], t);
    }
  }

  /** Row `j` is the last of `rows` with that index. */
  predicate LastIn(rows: seq<PartitionProduceResponse>, index: i32, j: nat) {
    j < |rows| && rows[j].index == index && forall l :: j < l < |rows| ==> rows[l].index != index
  }

  /** The last row for a partition, of the rows of its topic. */
  lemma {:induction false} LastRowOfTopic(rows: seq<PartitionProduceResponse>, t: Topition)
    ensures
      var last := LastRow(PartitionRows(t.topic, rows), t);
      && (last.None? <==> forall j :: 0 <= j < |rows| ==> rows[j].index != t.partition)
      && (last.Some? ==> exists j: nat :: LastIn(rows, t.partition, j) && rows[j] == last.value)
  {
    if rows != [] {
      var n := |rows| - 1;
      var last := LastRow(PartitionRows(t.topic, rows), t);
      LastRowOfTopic(rows[..n], t);
      assert PartitionRows(t.topic, rows)[..n] == PartitionRows(t.topic, rows[..n]);
      if rows[n].index == t.partition {
        assert LastIn(rows, t.partition, n);
      } else if last.Some? {
        var j: nat :| LastIn(rows[..n], t.partition, j) && rows[..n][j] == last.value;
        assert LastIn(rows, t.partition, j);
      }
    }
  }

  lemma {:induction false} NoRowOfOther(name: string, rows: seq<PartitionProduceResponse>, t: Topition)
    requires name != t.topic
    ensures LastRow(PartitionRows(name, rows), t).None?
  {
    if rows != [] {
      var n := |rows| - 1;
      NoRowOfOther(name, rows[..n], t);
      assert PartitionRows(name, rows)[..n] == PartitionRows(name, rows[..n]);
    }
  }

  /** The last topic has a row for `t`: the last row is in it. */
  lemma LastTopicHas(topics: seq<TopicProduceResponse>, t: Topition, j: nat)
    requires topics != [] && topics[|topics| - 1].name == t.topic
    requires LastIn(OrEmpty(topics[|topics| - 1].partitionResponses), t.partition, j)
    ensures IsLastRow(topics, t, OrEmpty(topics[|topics| - 1].partitionResponses)[j])
  {
    assert LastRowAt(topics, t, |topics| - 1, j);
  }

  lemma RowAtButLast(topics: seq<TopicProduceResponse>, t: Topition, i: nat, j: nat)
    requires i < |topics| - 1
    ensures RowAt(topics, t, i, j) <==> RowAt(topics[..|topics| - 1], t, i, j)
  {
  }

  /** The last topic has no row for `t`: a row for it is in the topics before. */
  lemma HasRowBefore(topics: seq<TopicProduceResponse>, t: Topition)
    requires topics != [] && forall i: nat, j: nat :: RowAt(topics, t, i, j) ==> i < |topics| - 1
    ensures HasRow(topics[..|topics| - 1], t) <==> HasRow(topics, t)
  {
    var n := |topics| - 1;
    if i: nat, j: nat :| RowAt(topics[..n], t, i, j) {
      RowAtButLast(topics, t, i, j);
    }
    if i: nat, j: nat :| RowAt(topics, t, i, j) {
      RowAtButLast(topics, t, i, j);
    }
  }

  /** ... and so is the last one. */
  lemma LastRowBefore(topics: seq<TopicProduceResponse>, t: Topition, row: PartitionProduceResponse)
    requires topics != [] && forall i: nat, j: nat :: RowAt(topics, t, i, j) ==> i < |topics| - 1
    requires IsLastRow(topics[..|topics| - 1], t, row)
    ensures IsLastRow(topics, t, row)
  {
    var n := |topics| - 1;
    var i: nat, j: nat :| LastRowAt(topics[..n], t, i, j) && OrEmpty(topics[..n][i].partitionResponses)[j] == row;
    RowAtButLast(topics, t, i, j);
    forall k: nat, l: nat | RowAt(topics, t, k, l) ensures k < i || (k == i && l <= j) {
      RowAtButLast(topics, t, k, l);
    }
    assert LastRowAt(topics, t, i, j);
  }

  /** The row that counts for `t` is the last row for `t` in the response, and there is none exactly if it has none. */
  lemma {:induction false} LastRowIs(topics: seq<TopicProduceResponse>, t: Topition)
    ensures LastRow(TopicRows(topics), t).Some? <==> HasRow(topics, t)
    ensures LastRow(TopicRows(topics), t).Some? ==> IsLastRow(topics, t, LastRow(TopicRows(topics), t).value)
  {
    if topics != [] {
      var n := |topics| - 1;
      var rows, last := OrEmpty(topics[n].partitionResponses), LastRow(TopicRows(topics), t);
      LastRowIs(topics[..n], t);
      LastRowConcat(TopicRows(topics[..n]), PartitionRows(topics[n].name, rows), t);
      if topics[n].name == t.topic {
        LastRowOfTopic(rows, t);
      } else {
        NoRowOfOther(topics[n].name, rows, t);
      }
      if LastRow(PartitionRows(topics[n].name, rows), t).Some? {
        var j: nat :| LastIn(rows, t.partition, j) && rows[j] == last.value;
        LastTopicHas(topics, t, j);
        assert RowAt(topics, t, n, j);
      } else {
        HasRowBefore(topics, t);
        if last.Some? {
          LastRowBefore(topics, t, last.value);
        }
      }
    }
  }

  /** Row `j` of topic `i`, with its partition. */
  function RowIn(topics: seq<TopicProduceResponse>, i: nat, j: nat): Option<Answered> {
    if i < |topics| && j < |OrEmpty(topics[i].partitionResponses)| then
      var row := OrEmpty(topics[i].partitionResponses)[j];
      Some(Answered(Topition(topics[i].name, row.index), row))
    else None
  }

  /** The rows of a response are the partition rows of its topics. */
  lemma {:induction false} RowsIff(topics: seq<TopicProduceResponse>, a: Answered)
    ensures a in TopicRows(topics) <==> exists i: nat, j: nat :: RowIn(topics, i, j) == Some(a)
  {
    if topics != [] {
      var n := |topics| - 1;
      RowsIff(topics[..n], a);
      var last := PartitionRows(topics[n].name, OrEmpty(topics[n].partitionResponses));
      assert a in TopicRows(topics) <==> a in TopicRows(topics[..n]) || a in last;
      if a in last {
        var j :| 0 <= j < |last| && last[j] == a;
        assert RowIn(topics, n, j) == Some(a);
      }
      if i: nat, j: nat :| RowIn(topics[..n], i, j) == Some(a) {
        assert RowIn(topics, i, j) == Some(a);
      }
      if i: nat, j: nat :| RowIn(topics, i, j) == Some(a) {
        assert if i < n then RowIn(topics[..n], i, j) == Some(a) else last[j] == a;
      }
    }
  }

  /** The row of a rejection has its error code, and the values of a partition to which nothing was written. */
  predicate SaysRejected(row: PartitionProduceResponse, t: Topition, code: i16) {
    && row.index == t.partition && row.errorCode == code
    && row.baseOffset == -1 && row.logAppendTimeMs == Some(-1) && row.logStartOffset == Some(-1)
    && row.recordErrors == Some([]) && row.errorMessage.None? && row.currentLeader.None?
  }

  /** `row` is what `o` gets for `t`: its rejection, or the last row for `t` that the origin gave, untouched. */
  ghost predicate RowSource(combined: CombinedRun, requests: seq<BatchRequest>, origin: ProduceResponse, o: Uuid,
                            t: Topition, row: PartitionProduceResponse) {
    var rejected, topics := CombinedGet(combined, t).rejected, OrEmpty(origin.responses);
    if o in rejected then SaysRejected(row, t, ErrorCode(rejected[o]))
    else
      && o in ListedBy(requests, t)
      && IsLastRow(topics, t, row)
  }

  /**
   Every row of every response that a split gives is the owner's rejection, or the origin's own row for that
   partition, the last one if there are several, for a partition that the owner lists.
   */
  lemma RowsFromOrigin(combined: CombinedRun, requests: seq<BatchRequest>, origin: ProduceResponse, o: Uuid,
                       response: ProduceResponse, k: nat)
    requires Answers(combined, requests, origin, o, response) && k < |Rows(response)|
    ensures RowSource(combined, requests, origin, o, Rows(response)[k].topition, Rows(response)[k].row)
  {
    LastRowIs(OrEmpty(origin.responses), Rows(response)[k].topition);
  }

  /** A split answers an owner if and only if it is rejected somewhere, or lists a partition for which the origin has a row. */
  lemma SplitAnswersIff(combined: CombinedRun, requests: seq<BatchRequest>, origin: ProduceResponse,
                        responses: map<Uuid, ProduceResponse>, o: Uuid)
    requires SplitOf(combined, requests, origin, responses)
    ensures o in responses <==>
            exists t :: || o in CombinedGet(combined, t).rejected
                        || (o in ListedBy(requests, t) && HasRow(OrEmpty(origin.responses), t))
  {
    forall t ensures AnswerRow(combined, requests, Rows(origin), o, t).Some? <==>
                     || o in CombinedGet(combined, t).rejected
                     || (o in ListedBy(requests, t) && HasRow(OrEmpty(origin.responses), t))
    {
      LastRowIs(OrEmpty(origin.responses), t);
    }
  }

  // ------------------------------------------------------------------ who sent what

  /** Whether a request has a batch for a partition. */
  predicate HasBatch(request: ProduceRequest, t: Topition) {
    BatchesOf(0, Entries(request), t) != []
  }

  /** Request `o` of the batch has a batch for partition `t`. */
  ghost predicate Sends(requests: seq<BatchRequest>, o: Uuid, t: Topition) {
    exists i :: 0 <= i < |requests| && requests[i].id == o && HasBatch(requests[i].request, t)
  }

  lemma {:induction false} BatchesOfOwner(owner: Uuid, entries: seq<Entry>, t: Topition)
    ensures |BatchesOf(owner, entries, t)| == |BatchesOf(0, entries, t)|
    ensures forall i :: 0 <= i < |BatchesOf(owner, entries, t)| ==> BatchesOf(owner, entries, t)[i].owner == owner
    ensures BatchesOf(owner, entries, t) != [] ==> exists k :: 0 <= k < |entries| && entries[k].topition == t
  {
    if entries != [] {
      var n := |entries| - 1;
      BatchesOfOwner(owner, entries[..n], t);
      if BatchesOf(owner, entries[..n], t) != [] {
        var k :| 0 <= k < n && entries[..n][k].topition == t;
        assert entries[k].topition == t;
      }
    }
  }

  lemma BatchesOfOwners(request: BatchRequest, t: Topition)
    ensures Owners(BatchesOf(request.id, Entries(request.request), t)) == if HasBatch(request.request, t) then {request.id} else {}
  {
    BatchesOfOwner(request.id, Entries(request.request), t);
    var batches := BatchesOf(request.id, Entries(request.request), t);
    if batches != [] {
      assert batches[0].owner == request.id;
    }
  }

  /** The owners of a partition's batches are the requests with a batch for it. */
  lemma {:induction false} BatchesForOwners(requests: seq<BatchRequest>, t: Topition, o: Uuid)
    ensures o in Owners(BatchesFor(requests, t)) <==> Sends(requests, o, t)
  {
    if requests != [] {
      var n := |requests| - 1;
      BatchesForOwners(requests[..n], t, o);
      BatchesOfOwners(requests[n], t);
      OwnersConcat(BatchesFor(requests[..n], t), BatchesOf(requests[n].id, Entries(requests[n].request), t));
      SendsSnoc(requests, t, o);
    }
  }

  lemma SendsSnoc(requests: seq<BatchRequest>, t: Topition, o: Uuid)
    requires requests != []
    ensures
      var n := |requests| - 1;
      Sends(requests, o, t) <==> Sends(requests[..n], o, t) || (requests[n].id == o && HasBatch(requests[n].request, t))
  {
    var n := |requests| - 1;
    if i :| 0 <= i < n && requests[..n][i].id == o && HasBatch(requests[..n][i].request, t) {
      assert requests[i].id == o && HasBatch(requests[i].request, t);
    }
    if i :| 0 <= i < |requests| && requests[i].id == o && HasBatch(requests[i].request, t) {
      assert i < n ==> requests[..n][i].id == o && HasBatch(requests[..n][i].request, t);
    }
  }

  lemma OwnersConcat(a: seq<OwnedBatch>, b: seq<OwnedBatch>)
    ensures Owners(a + b) == Owners(a) + Owners(b)
  {
    var all := a + b;
    assert forall i :: 0 <= i < |a| ==> all[i] == a[i];
    assert forall i :: 0 <= i < |b| ==> all[|a| + i] == b[i];
  }

  /** A request with a batch for a partition lists it. */
  lemma HasBatchListed(request: ProduceRequest, t: Topition)
    requires HasBatch(request, t)
    ensures t in Listed(request)
  {
    BatchesOfOwner(0, Entries(request), t);
  }

  /**
   Only a request with a batch for a partition is rejected there, and one that is not rejected has
   something forwarded.
   */
  ghost predicate Settled(requests: seq<BatchRequest>, combined: CombinedRun) {
    && (forall o, t :: o in CombinedGet(combined, t).rejected ==> Sends(requests, o, t))
    && (forall o, t :: Sends(requests, o, t) && CombinedGet(combined, t).forwarded == [] ==>
          o in CombinedGet(combined, t).rejected)
  }

  lemma PartitionSettled(codec: RecordCodec, requests: seq<BatchRequest>, combined: Combined, o: Uuid, t: Topition)
    requires combined == Combining(codec, BatchesFor(requests, t))
    ensures o in combined.rejected ==> Sends(requests, o, t)
    ensures Sends(requests, o, t) && combined.forwarded == [] ==> o in combined.rejected
  {
    CombinePartitionsOwners(codec, BatchesFor(requests, t));
    BatchesForOwners(requests, t, o);
    assert Owners([]) == {};
  }

  /** Combining settles every request of the batch at every partition. */
  lemma CombinedSettled(codec: RecordCodec, requests: seq<BatchRequest>, combined: CombinedRun)
    requires IsCombined(codec, requests, combined)
    ensures Settled(requests, combined)
  {
    forall o: Uuid, t: Topition
      ensures o in CombinedGet(combined, t).rejected ==> Sends(requests, o, t)
      ensures Sends(requests, o, t) && CombinedGet(combined, t).forwarded == [] ==> o in CombinedGet(combined, t).rejected
    {
      PartitionSettled(codec, requests, CombinedGet(combined, t), o, t);
    }
  }

  // ------------------------------------------------------------------ main results

  ghost predicate DistinctIds(requests: seq<BatchRequest>) {
    forall i, j :: 0 <= i < j < |requests| ==> requests[i].id != requests[j].id
  }

  /** The origin answered each partition it was sent. */
  ghost predicate AnswersAll(rows: seq<Answered>, forwarded: ProduceRequest) {
    forall i :: 0 <= i < |Entries(forwarded)| ==> LastRow(rows, Entries(forwarded)[i].topition).Some?
  }

  /** The origin answered no partition it was not sent. */
  ghost predicate AnswersOnly(rows: seq<Answered>, forwarded: ProduceRequest) {
    forall t :: LastRow(rows, t).Some? ==> exists i :: 0 <= i < |Entries(forwarded)| && Entries(forwarded)[i].topition == t
  }

  lemma SendsOwn(requests: seq<BatchRequest>, k: nat, t: Topition)
    requires DistinctIds(requests) && k < |requests|
    ensures Sends(requests, requests[k].id, t) <==> HasBatch(requests[k].request, t)
    ensures requests[k].id in ListedBy(requests, t) <==> t in Listed(requests[k].request)
  {
    if i :| 0 <= i < |requests| && requests[i].id == requests[k].id && HasBatch(requests[i].request, t) {
      assert i == k;
    }
  }

  /** A row of a request is for a partition it lists, where it has a batch if the row rejects it. */
  lemma RowOwn(requests: seq<BatchRequest>, combined: CombinedRun, rows: seq<Answered>, k: nat, t: Topition)
    requires DistinctIds(requests) && k < |requests|
    requires Settled(requests, combined)
    requires AnswerRow(combined, requests, rows, requests[k].id, t).Some?
    ensures t in Listed(requests[k].request)
    ensures requests[k].id in CombinedGet(combined, t).rejected ==> HasBatch(requests[k].request, t)
  {
    SendsOwn(requests, k, t);
    if HasBatch(requests[k].request, t) {
      HasBatchListed(requests[k].request, t);
    }
  }

  /** A listed partition has a row exactly if the request is rejected there or the origin answers it. */
  lemma RowExists(requests: seq<BatchRequest>, combined: CombinedRun, rows: seq<Answered>, k: nat, t: Topition)
    requires DistinctIds(requests) && k < |requests|
    requires t in Listed(requests[k].request)
    ensures AnswerRow(combined, requests, rows, requests[k].id, t)
            == (var rejected := CombinedGet(combined, t).rejected;
                if requests[k].id in rejected then Some(RejectedRow(t.partition, ErrorCode(rejected[requests[k].id])))
                else LastRow(rows, t))
  {
    SendsOwn(requests, k, t);
  }

  lemma RowsDistinct(rows: seq<Answered>)
    requires RowsOrdered(rows)
    ensures forall i, j :: 0 <= i < j < |rows| ==> rows[i].topition != rows[j].topition
  {
    forall i, j | 0 <= i < j < |rows|
      ensures rows[i].topition != rows[j].topition
    {
      assert Before(rows[i].topition, rows[j].topition);
      Ordering.StringIrreflexive(rows[i].topition.topic);
    }
  }

  /**
   Whatever the origin answers, a request gets rows only for partitions that it lists, at most
   one for each, and a rejected partition keeps its rejection.
   */
  lemma SplitOwnRows(requests: seq<BatchRequest>, combined: CombinedRun,
                     origin: ProduceResponse, response: ProduceResponse, k: nat)
    requires DistinctIds(requests) && k < |requests|
    requires Settled(requests, combined)
    requires Answers(combined, requests, origin, requests[k].id, response)
    ensures
      var o, rows := requests[k].id, Rows(response);
      && (forall i :: 0 <= i < |rows| ==> rows[i].topition in Listed(requests[k].request))
      && (forall i, j :: 0 <= i < j < |rows| ==> rows[i].topition != rows[j].topition)
      && (forall i :: 0 <= i < |rows| && o in CombinedGet(combined, rows[i].topition).rejected ==>
            rows[i].row == RejectedRow(rows[i].topition.partition,
                                       ErrorCode(CombinedGet(combined, rows[i].topition).rejected[o])))
  {
    var rows := Rows(response);
    RowsDistinct(rows);
    forall i | 0 <= i < |rows|
      ensures rows[i].topition in Listed(requests[k].request)
    {
      RowOwn(requests, combined, Rows(origin), k, rows[i].topition);
    }
  }

  /** Request `k` lists `t`, and has a batch for it or something is forwarded. */
  ghost predicate CoveredBy(requests: seq<BatchRequest>, combined: CombinedRun, k: nat, t: Topition)
    requires k < |requests|
  {
    t in Listed(requests[k].request) && (HasBatch(requests[k].request, t) || CombinedGet(combined, t).forwarded != [])
  }

  lemma ForwardedAnswered(combined: CombinedRun, forwarded: ProduceRequest, rows: seq<Answered>, t: Topition)
    requires ForwardedBy(combined, Entries(forwarded))
    requires AnswersAll(rows, forwarded)
    ensures CombinedGet(combined, t).forwarded != [] ==> LastRow(rows, t).Some?
    ensures AnswersOnly(rows, forwarded) && LastRow(rows, t).Some? ==> CombinedGet(combined, t).forwarded != []
  {
  }

  lemma CoveredRow(requests: seq<BatchRequest>, combined: CombinedRun, forwarded: ProduceRequest,
                   rows: seq<Answered>, k: nat, t: Topition)
    requires DistinctIds(requests) && k < |requests|
    requires Settled(requests, combined)
    requires ForwardedBy(combined, Entries(forwarded))
    requires AnswersAll(rows, forwarded)
    ensures CoveredBy(requests, combined, k, t) ==> AnswerRow(combined, requests, rows, requests[k].id, t).Some?
    ensures AnswersOnly(rows, forwarded) && AnswerRow(combined, requests, rows, requests[k].id, t).Some? ==>
            CoveredBy(requests, combined, k, t)
  {
    ForwardedAnswered(combined, forwarded, rows, t);
    SendsOwn(requests, k, t);
    if t in Listed(requests[k].request) {
      RowExists(requests, combined, rows, k, t);
    }
    if AnswerRow(combined, requests, rows, requests[k].id, t).Some? {
      RowOwn(requests, combined, rows, k, t);
    }
  }

  /** `rows` has for `t` the rejection of `o`, or else the origin's row. */
  ghost predicate AnsweredAs(combined: CombinedRun, origin: ProduceResponse, rows: seq<Answered>, o: Uuid,
                             t: Topition) {
    var rejected := CombinedGet(combined, t).rejected;
    exists i :: 0 <= i < |rows| && rows[i].topition == t
                && Some(rows[i].row)
                   == if o in rejected then Some(RejectedRow(t.partition, ErrorCode(rejected[o]))) else LastRow(Rows(origin), t)
  }

  /**
   If the origin answers each partition that it is sent, then a request gets exactly one row for
   each partition where it has a batch: its rejection, or the origin's row.
   */
  lemma SplitComplete(requests: seq<BatchRequest>, combined: CombinedRun, forwarded: ProduceRequest,
                      origin: ProduceResponse, response: ProduceResponse, k: nat, t: Topition)
    requires DistinctIds(requests) && k < |requests|
    requires Settled(requests, combined)
    requires ForwardedBy(combined, Entries(forwarded))
    requires AnswersAll(Rows(origin), forwarded)
    requires HasBatch(requests[k].request, t)
    requires Answers(combined, requests, origin, requests[k].id, response)
    ensures AnsweredAs(combined, origin, Rows(response), requests[k].id, t)
  {
    HasBatchListed(requests[k].request, t);
    CoveredRow(requests, combined, forwarded, Rows(origin), k, t);
    RowExists(requests, combined, Rows(origin), k, t);
  }

  /** `response` answers each partition of request `k` once, and no other. */
  ghost predicate AnswersEach(requests: seq<BatchRequest>, combined: CombinedRun, origin: ProduceResponse,
                              response: ProduceResponse, k: nat)
    requires k < |requests|
  {
    var o, rows := requests[k].id, Rows(response);
    && (forall i, j :: 0 <= i < j < |rows| ==> rows[i].topition != rows[j].topition)
    && (forall i :: 0 <= i < |rows| ==> rows[i].topition in Listed(requests[k].request))
    && (forall t :: t in Listed(requests[k].request) ==> AnsweredAs(combined, origin, rows, o, t))
  }

  /**
   The round trip: if each partition entry of a request has a batch, and the origin answers each
   partition it is sent, then the request is answered, with exactly its own partitions.
   */
  lemma FanRoundTrip(requests: seq<BatchRequest>, combined: CombinedRun, forwarded: ProduceRequest,
                     origin: ProduceResponse, responses: map<Uuid, ProduceResponse>, k: nat)
    requires DistinctIds(requests) && k < |requests|
    requires Settled(requests, combined)
    requires ForwardedBy(combined, Entries(forwarded))
    requires SplitOf(combined, requests, origin, responses)
    requires AnswersAll(Rows(origin), forwarded)
    requires Listed(requests[k].request) != {}
    requires forall t :: t in Listed(requests[k].request) ==> HasBatch(requests[k].request, t)
    ensures requests[k].id in responses
    ensures AnswersEach(requests, combined, origin, responses[requests[k].id], k)
  {
    var t :| t in Listed(requests[k].request);
    CoveredRow(requests, combined, forwarded, Rows(origin), k, t);
    var response := responses[requests[k].id];
    assert Answers(combined, requests, origin, requests[k].id, response);
    SplitOwnRows(requests, combined, origin, response, k);
    forall t | t in Listed(requests[k].request)
      ensures AnsweredAs(combined, origin, Rows(response), requests[k].id, t)
    {
      SplitComplete(requests, combined, forwarded, origin, response, k, t);
    }
  }

  lemma AnsweredIfCovered(requests: seq<BatchRequest>, combined: CombinedRun, forwarded: ProduceRequest,
                          origin: ProduceResponse, responses: map<Uuid, ProduceResponse>, k: nat)
    requires DistinctIds(requests) && k < |requests|
    requires Settled(requests, combined)
    requires ForwardedBy(combined, Entries(forwarded))
    requires SplitOf(combined, requests, origin, responses)
    requires AnswersAll(Rows(origin), forwarded) && AnswersOnly(Rows(origin), forwarded)
    ensures requests[k].id in responses <==> exists t :: CoveredBy(requests, combined, k, t)
  {
    var o := requests[k].id;
    if o in responses {
      var t :| AnswerRow(combined, requests, Rows(origin), o, t).Some?;
      CoveredRow(requests, combined, forwarded, Rows(origin), k, t);
    }
    if t :| CoveredBy(requests, combined, k, t) {
      CoveredRow(requests, combined, forwarded, Rows(origin), k, t);
    }
  }

  /** Request `k` lists a partition for which it has a batch, or some owner's batch is accepted. */
  ghost predicate Covered(codec: RecordCodec, requests: seq<BatchRequest>, k: nat, t: Topition)
    requires k < |requests|
  {
    t in Listed(requests[k].request) && (HasBatch(requests[k].request, t) || Accepted(codec, BatchesFor(requests, t)) != [])
  }

  lemma PartitionCovered(codec: RecordCodec, requests: seq<BatchRequest>, combined: Combined, t: Topition)
    requires combined == Combining(codec, BatchesFor(requests, t))
    ensures combined.forwarded != [] <==> Accepted(codec, BatchesFor(requests, t)) != []
  {
    CombinePartitionsOwners(codec, BatchesFor(requests, t));
  }

  lemma CoveredAgrees(codec: RecordCodec, requests: seq<BatchRequest>, combined: CombinedRun, k: nat)
    requires IsCombined(codec, requests, combined) && k < |requests|
    ensures forall t :: Covered(codec, requests, k, t) <==> CoveredBy(requests, combined, k, t)
  {
    forall t ensures Covered(codec, requests, k, t) <==> CoveredBy(requests, combined, k, t) {
      PartitionCovered(codec, requests, CombinedGet(combined, t), t);
    }
  }

  lemma SomeCovered(codec: RecordCodec, requests: seq<BatchRequest>, combined: CombinedRun, k: nat)
    requires k < |requests|
    requires forall t :: Covered(codec, requests, k, t) <==> CoveredBy(requests, combined, k, t)
    ensures (exists t :: Covered(codec, requests, k, t)) <==> (exists t :: CoveredBy(requests, combined, k, t))
  {
    if t :| Covered(codec, requests, k, t) {
      assert CoveredBy(requests, combined, k, t);
    }
    if t :| CoveredBy(requests, combined, k, t) {
      assert Covered(codec, requests, k, t);
    }
  }

  /**
   Not every request is answered. With an origin that answers exactly what it is sent, a request
   is answered if and only if it lists a partition for which it has a batch, or for which some
   owner's batch is accepted.
   */
  lemma AnsweredIff(codec: RecordCodec, requests: seq<BatchRequest>, combined: CombinedRun, forwarded: ProduceRequest,
                    origin: ProduceResponse, responses: map<Uuid, ProduceResponse>, k: nat)
    requires DistinctIds(requests) && k < |requests|
    requires IsCombined(codec, requests, combined)
    requires ForwardedBy(combined, Entries(forwarded))
    requires SplitOf(combined, requests, origin, responses)
    requires AnswersAll(Rows(origin), forwarded) && AnswersOnly(Rows(origin), forwarded)
    ensures requests[k].id in responses <==> exists t :: Covered(codec, requests, k, t)
  {
    CombinedSettled(codec, requests, combined);
    AnsweredIfCovered(requests, combined, forwarded, origin, responses, k);
    CoveredAgrees(codec, requests, combined, k);
    SomeCovered(codec, requests, combined, k);
  }

  /** A request that names a partition but carries no batch, alone in the queue, gets no answer. */
  lemma EmptyRequestUnanswered(o: Uuid, combined: CombinedRun, responses: map<Uuid, ProduceResponse>)
    requires Settled([Unbatched(o)], combined)
    requires SplitOf(combined, [Unbatched(o)], ProduceResponse(Some([]), Some(0), None), responses)
    ensures o !in responses
  {
    var requests, origin := [Unbatched(o)], ProduceResponse(Some([]), Some(0), None);
    if o in responses {
      var t :| AnswerRow(combined, requests, Rows(origin), o, t).Some?;
      UnbatchedHasNone(o, t);
      RowOwn(requests, combined, Rows(origin), 0, t);
      RowExists(requests, combined, Rows(origin), 0, t);
      assert false;
    }
  }

  function Unbatched(o: Uuid): BatchRequest {
    var topics := [TopicProduceData("orders", Some([PartitionProduceData(0, None)]))];
    BatchRequest(o, ProduceRequest(None, ACKS_LEADER, 5000, Some(topics)))
  }

  lemma UnbatchedHasNone(o: Uuid, t: Topition)
    ensures !HasBatch(Unbatched(o).request, t)
  {
    var partitions := [PartitionProduceData(0, None)];
    var topics := [TopicProduceData("orders", Some(partitions))];
    assert topics[..0] == [] && partitions[..0] == [];
    var entries := Entries(Unbatched(o).request);
    assert entries == [Entry(Topition("orders", 0), None)];
    assert entries[..0] == [];
    assert BatchesOf(0, entries[..0], t) == [];
    assert |Own(0, OrEmpty(entries[0].records))| == 0;
  }
}
