/**
 The fan-in of the batching proxy: many Produce requests become one
 (nisshi-proxy/src/produce.rs, `mergeable`, `batch_acks`, `produce_request`, `into_topic_data`).
 */
module Requests {
  import opened Prelude
  import opened Records
  import opened Combiner
  import opened Ordering

  datatype PartitionProduceData = PartitionProduceData(index: i32, records: Option<seq<Deflated>>)

  datatype TopicProduceData = TopicProduceData(name: string, partitionData: Option<seq<PartitionProduceData>>)

  datatype ProduceRequest = ProduceRequest(
    transactionalId: Option<string>,
    acks: i16,
    timeoutMs: i32,
    topicData: Option<seq<TopicProduceData>>)

  /** A queued request. */
  datatype BatchRequest = BatchRequest(id: Uuid, request: ProduceRequest)

  datatype Topition = Topition(topic: string, partition: i32)

  datatype RecordError = RecordError(batchIndex: i32, message: Option<string>)

  datatype PartitionProduceResponse = PartitionProduceResponse(
    index: i32,
    errorCode: i16,
    baseOffset: i64,
    logAppendTimeMs: Option<i64>,
    logStartOffset: Option<i64>,
    recordErrors: Option<seq<RecordError>>,
    errorMessage: Option<string>,
    currentLeader: Option<(i32, i32)>)

  /** The error row that `owner` gets for `topition`, instead of a row from the origin. */
  datatype Rejection = Rejection(owner: Uuid, topition: Topition, response: PartitionProduceResponse)

  const ACKS_FULL_ISR: i16 := -1
  const ACKS_NONE: i16 := 0
  const ACKS_LEADER: i16 := 1
  const NO_PRODUCER_ID: i64 := -1

  // ------------------------------------------------------------------ reading a request

  /** One partition entry of a request. */
  datatype Entry = Entry(topition: Topition, records: Option<seq<Deflated>>)

  function PartitionEntries(name: string, partitions: seq<PartitionProduceData>): seq<Entry> {
    seq(|partitions|, i requires 0 <= i < |partitions| =>
      Entry(Topition(name, partitions[i].index), partitions[i].records))
  }

  function TopicEntries(topics: seq<TopicProduceData>): seq<Entry> {
    if topics == [] then []
    else
      var n := |topics| - 1;
      TopicEntries(topics[..n]) + PartitionEntries(topics[n].name, OrEmpty(topics[n].partitionData))
  }

  /** The partition entries of a request, in the order the request lists them. */
  function Entries(request: ProduceRequest): seq<Entry> {
    TopicEntries(OrEmpty(request.topicData))
  }

  /** The partitions that a request lists, with or without records. */
  function Listed(request: ProduceRequest): set<Topition> {
    var entries := Entries(request);
    set i | 0 <= i < |entries| :: entries[i].topition
  }

  predicate MergeableBatch(batch: Deflated) {
    && batch.header.producerId == NO_PRODUCER_ID
    && !batch.header.attributes.transactional
    && !batch.header.attributes.control
    && TimestampTypeOf(batch.header.attributes) == CreateTime
  }

  /** `mergeable`. */
  predicate Mergeable(request: ProduceRequest) {
    var entries := Entries(request);
    forall i :: 0 <= i < |entries| ==>
                  forall k :: 0 <= k < |OrEmpty(entries[i].records)| ==> MergeableBatch(OrEmpty(entries[i].records)[k])
  }

  /** `batch_acks`. */
  function BatchAcks(requests: seq<BatchRequest>): (acks: i16)
    ensures acks == ACKS_FULL_ISR || acks == ACKS_LEADER
    ensures acks == ACKS_FULL_ISR <==> exists i :: 0 <= i < |requests| && requests[i].request.acks == ACKS_FULL_ISR
  {
    if exists i :: 0 <= i < |requests| && requests[i].request.acks == ACKS_FULL_ISR then ACKS_FULL_ISR
    else ACKS_LEADER
  }

  function Own(owner: Uuid, batches: seq<Deflated>): seq<OwnedBatch> {
    seq(|batches|, i requires 0 <= i < |batches| => OwnedBatch(owner, batches[i]))
  }

  /** The batches of `entries` for one partition. */
  function BatchesOf(owner: Uuid, entries: seq<Entry>, t: Topition): seq<OwnedBatch> {
    if entries == [] then []
    else
      var n := |entries| - 1;
      var before := BatchesOf(owner, entries[..n], t);
      if entries[n].topition == t then before + Own(owner, OrEmpty(entries[n].records)) else before
  }

  /** The batches of all `requests` for one partition, in queue order. */
  function BatchesFor(requests: seq<BatchRequest>, t: Topition): seq<OwnedBatch> {
    if requests == [] then []
    else
      var n := |requests| - 1;
      BatchesFor(requests[..n], t) + BatchesOf(requests[n].id, Entries(requests[n].request), t)
  }

  lemma {:induction false} BatchesOfConcat(owner: Uuid, a: seq<Entry>, b: seq<Entry>, t: Topition)
    ensures BatchesOf(owner, a + b, t) == BatchesOf(owner, a, t) + BatchesOf(owner, b, t)
  {
    if b == [] {
      assert a + b == a;
    } else {
      var n := |b| - 1;
      assert (a + b)[..|a + b| - 1] == a + b[..n];
      BatchesOfConcat(owner, a, b[..n], t);
    }
  }

  /** The row of a rejection: an error code, and the values that stand for nothing written. */
  function RejectedRow(index: i32, errorCode: i16): PartitionProduceResponse {
    PartitionProduceResponse(index, errorCode, -1, Some(-1), Some(-1), Some([]), None, None)
  }

  // ------------------------------------------------------------------ gathering the batches

  type Run = map<string, map<i32, seq<OwnedBatch>>>

  function RunGet(run: Run, t: Topition): seq<OwnedBatch> {
    if t.topic in run && t.partition in run[t.topic] then run[t.topic][t.partition] else []
  }

  function RunExtend(run: Run, t: Topition, batches: seq<OwnedBatch>): (r: Run)
    ensures forall u :: RunGet(r, u) == if u == t then RunGet(run, u) + batches else RunGet(run, u)
  {
    var partitions := if t.topic in run then run[t.topic] else map[];
    run[t.topic := partitions[t.partition := RunGet(run, t) + batches]]
  }

  /** `run` is `before` with the batches of `entries` added. */
  ghost predicate Gathered(before: Run, run: Run, owner: Uuid, entries: seq<Entry>) {
    forall t :: RunGet(run, t) == RunGet(before, t) + BatchesOf(owner, entries, t)
  }

  lemma Assoc<T>(a: seq<T>, b: seq<T>, c: seq<T>)
    ensures (a + b) + c == a + (b + c)
  {
  }

  lemma GatherMore(before: Run, was: Run, run: Run, owner: Uuid, entries: seq<Entry>, more: seq<Entry>)
    requires Gathered(before, was, owner, entries)
    requires Gathered(was, run, owner, more)
    ensures Gathered(before, run, owner, entries + more)
  {
    forall t ensures RunGet(run, t) == RunGet(before, t) + BatchesOf(owner, entries + more, t) {
      BatchesOfConcat(owner, entries, more, t);
      assert RunGet(was, t) == RunGet(before, t) + BatchesOf(owner, entries, t);
      Assoc(RunGet(before, t), BatchesOf(owner, entries, t), BatchesOf(owner, more, t));
    }
  }

  lemma GatherPartition(before: Run, was: Run, run: Run, owner: Uuid, name: string,
                        partitions: seq<PartitionProduceData>, k: nat)
    requires k < |partitions|
    requires Gathered(before, was, owner, PartitionEntries(name, partitions[..k]))
    requires
      run == if partitions[k].records.Some?
             then RunExtend(was, Topition(name, partitions[k].index), Own(owner, partitions[k].records.value))
             else was
    ensures Gathered(before, run, owner, PartitionEntries(name, partitions[..k + 1]))
  {
    var entry := Entry(Topition(name, partitions[k].index), partitions[k].records);
    forall t ensures RunGet(run, t) == RunGet(was, t) + BatchesOf(owner, [entry], t) {
      assert [entry][..0] == [];
      assert BatchesOf(owner, [entry], t) == if t == entry.topition then Own(owner, OrEmpty(entry.records)) else [];
    }
    GatherMore(before, was, run, owner, PartitionEntries(name, partitions[..k]), [entry]);
    assert PartitionEntries(name, partitions[..k + 1]) == PartitionEntries(name, partitions[..k]) + [entry];
  }

  /** The inner loop of `produce_request`: the partitions of one topic of one request. */
  method GatherTopic(before: Run, owner: Uuid, name: string, partitions: seq<PartitionProduceData>) returns (run: Run)
    ensures Gathered(before, run, owner, PartitionEntries(name, partitions))
  {
    run := before;
    var k := 0;
    while k < |partitions|
      invariant 0 <= k <= |partitions|
      invariant Gathered(before, run, owner, PartitionEntries(name, partitions[..k]))
    {
      ghost var was := run;
      if partitions[k].records.Some? {
        run := RunExtend(run, Topition(name, partitions[k].index), Own(owner, partitions[k].records.value));
      }
      GatherPartition(before, was, run, owner, name, partitions, k);
      k := k + 1;
    }
    assert partitions[..k] == partitions;
  }

  lemma TopicEntriesStep(topics: seq<TopicProduceData>, j: nat)
    requires j < |topics|
    ensures TopicEntries(topics[..j + 1])
            == TopicEntries(topics[..j]) + PartitionEntries(topics[j].name, OrEmpty(topics[j].partitionData))
  {
    assert topics[..j + 1][..j] == topics[..j];
  }

  /** One round of the middle loop: topic `j` of a request. */
  method GatherNextTopic(ghost before: Run, was: Run, owner: Uuid, topics: seq<TopicProduceData>,
                         j: nat) returns (run: Run)
    requires j < |topics|
    requires Gathered(before, was, owner, TopicEntries(topics[..j]))
    ensures Gathered(before, run, owner, TopicEntries(topics[..j + 1]))
  {
    run := GatherTopic(was, owner, topics[j].name, OrEmpty(topics[j].partitionData));
    GatherMore(before, was, run, owner, TopicEntries(topics[..j]),
               PartitionEntries(topics[j].name, OrEmpty(topics[j].partitionData)));
    TopicEntriesStep(topics, j);
  }

  /** The middle loop: the topics of one request. */
  method GatherRequest(before: Run, request: BatchRequest) returns (run: Run)
    ensures Gathered(before, run, request.id, Entries(request.request))
  {
    var topics := OrEmpty(request.request.topicData);
    run := before;
    var j := 0;
    while j < |topics|
      invariant 0 <= j <= |topics|
      invariant Gathered(before, run, request.id, TopicEntries(topics[..j]))
    {
      run := GatherNextTopic(before, run, request.id, topics, j);
      j := j + 1;
    }
    assert topics[..j] == topics;
  }

  /** The outer loop: every request in queue order. */
  method Gather(requests: seq<BatchRequest>) returns (run: Run)
    ensures forall t :: RunGet(run, t) == BatchesFor(requests, t)
  {
    run := map[];
    var i := 0;
    while i < |requests|
      invariant 0 <= i <= |requests|
      invariant forall t :: RunGet(run, t) == BatchesFor(requests[..i], t)
    {
      assert requests[..i + 1][..i] == requests[..i];
      run := GatherRequest(run, requests[i]);
      i := i + 1;
    }
    assert requests[..i] == requests;
  }

  // ------------------------------------------------------------------ the forwarded request

  /** `data` has the partitions in `done` with something to forward, each once, ascending. */
  ghost predicate PartitionsForwarded(combined: map<i32, Combined>, done: set<i32>, data: seq<PartitionProduceData>)
    requires done <= combined.Keys
  {
    && (forall i, j :: 0 <= i < j < |data| ==> data[i].index < data[j].index)
    && (forall i :: 0 <= i < |data| ==>
          && data[i].index in done
          && data[i].records == Some(combined[data[i].index].forwarded)
          && data[i].records.value != [])
    && (forall p :: p in done && combined[p].forwarded != [] ==>
          exists i :: 0 <= i < |data| && data[i].index == p)
  }

  /** `r` rejects an owner of a partition, with the error code of its rejection. */
  ghost predicate Rejects(c: Combined, r: Rejection) {
    r.owner in c.rejected && r.response == RejectedRow(r.topition.partition, ErrorCode(c.rejected[r.owner]))
  }

  ghost predicate PartitionsRejected(name: string, combined: map<i32, Combined>, done: set<i32>,
                                     rejections: seq<Rejection>)
    requires done <= combined.Keys
  {
    forall r :: r in rejections <==>
                && r.topition.topic == name
                && r.topition.partition in done
                && Rejects(combined[r.topition.partition], r)
  }

  /** No owner is rejected twice for a partition. */
  ghost predicate Unrepeated(rejections: seq<Rejection>) {
    forall i, j :: 0 <= i < j < |rejections| ==>
      rejections[i].owner != rejections[j].owner || rejections[i].topition != rejections[j].topition
  }

  lemma UnrepeatedConcat(a: seq<Rejection>, b: seq<Rejection>)
    requires Unrepeated(a) && Unrepeated(b)
    requires forall i, j :: 0 <= i < |a| && 0 <= j < |b| ==> a[i].topition != b[j].topition
    ensures Unrepeated(a + b)
  {
  }

  function RejectionOf(t: Topition, c: Combined, owner: Uuid): Rejection
    requires owner in c.rejected
  {
    Rejection(owner, t, RejectedRow(t.partition, ErrorCode(c.rejected[owner])))
  }

  lemma RejectedOnce(t: Topition, c: Combined, owners: seq<Uuid>, rejections: seq<Rejection>)
    requires forall o :: o in owners <==> o in c.rejected
    requires forall i, j :: 0 <= i < j < |owners| ==> owners[i] != owners[j]
    requires |rejections| == |owners|
    requires forall k :: 0 <= k < |owners| ==> owners[k] in c.rejected && rejections[k] == RejectionOf(t, c, owners[k])
    ensures forall r :: r in rejections <==> r.topition == t && Rejects(c, r)
    ensures Unrepeated(rejections)
  {
    forall r ensures r in rejections <==> r.topition == t && Rejects(c, r) {
      if r.topition == t && Rejects(c, r) {
        var k :| 0 <= k < |owners| && owners[k] == r.owner;
        assert rejections[k] == r;
      }
    }
  }

  /** The innermost loop of `into_topic_data`: the owners that one partition rejects. */
  method RejectOwners(t: Topition, c: Combined) returns (rejections: seq<Rejection>)
    ensures forall r :: r in rejections <==> r.topition == t && Rejects(c, r)
    ensures Unrepeated(rejections)
  {
    IntLessIsTotal();
    var owners := AscendingKeys(c.rejected.Keys, (a: Uuid, b: Uuid) => a < b);
    rejections := [];
    var i := 0;
    while i < |owners|
      invariant 0 <= i <= |owners| && |rejections| == i
      invariant forall k :: 0 <= k < i ==> owners[k] in c.rejected && rejections[k] == RejectionOf(t, c, owners[k])
    {
      assert owners[i] in owners;
      rejections := rejections + [RejectionOf(t, c, owners[i])];
      i := i + 1;
    }
    RejectedOnce(t, c, owners, rejections);
  }

  lemma ForwardOne(combined: map<i32, Combined>, done: set<i32>, data: seq<PartitionProduceData>, p: i32)
    requires done <= combined.Keys && p in combined
    requires PartitionsForwarded(combined, done, data)
    requires forall q :: q in done ==> q < p
    ensures
      var forwarded := combined[p].forwarded;
      PartitionsForwarded(combined, done + {p},
                          if forwarded != [] then data + [PartitionProduceData(p, Some(forwarded))] else data)
  {
    var forwarded := combined[p].forwarded;
    if forwarded != [] {
      var all := data + [PartitionProduceData(p, Some(forwarded))];
      forall q | q in done + {p} && combined[q].forwarded != []
        ensures exists i :: 0 <= i < |all| && all[i].index == q
      {
        if q == p {
          assert all[|data|].index == p;
        } else {
          var i :| 0 <= i < |data| && data[i].index == q;
          assert all[i].index == q;
        }
      }
    }
  }

  lemma RejectOne(name: string, combined: map<i32, Combined>, done: set<i32>, rejections: seq<Rejection>, p: i32,
                  more: seq<Rejection>)
    requires done <= combined.Keys && p in combined
    requires PartitionsRejected(name, combined, done, rejections)
    requires forall r :: r in more <==> r.topition == Topition(name, p) && Rejects(combined[p], r)
    ensures PartitionsRejected(name, combined, done + {p}, rejections + more)
  {
    forall r ensures r in rejections + more <==>
                     && r.topition.topic == name
                     && r.topition.partition in done + {p}
                     && Rejects(combined[r.topition.partition], r)
    {
      assert r in rejections + more <==> r in rejections || r in more;
    }
  }

  lemma PartitionApart(name: string, combined: map<i32, Combined>, done: set<i32>, rejections: seq<Rejection>, p: i32,
                       more: seq<Rejection>)
    requires done <= combined.Keys && p !in done
    requires PartitionsRejected(name, combined, done, rejections) && Unrepeated(rejections) && Unrepeated(more)
    requires forall r :: r in more ==> r.topition == Topition(name, p)
    ensures Unrepeated(rejections + more)
  {
    forall i, j | 0 <= i < |rejections| && 0 <= j < |more| ensures rejections[i].topition != more[j].topition {
      assert rejections[i] in rejections && more[j] in more;
    }
    UnrepeatedConcat(rejections, more);
  }

  /** One round of the middle loop of `into_topic_data`: one combined partition. */
  method PartitionBatch(name: string, combined: map<i32, Combined>, ghost done: set<i32>, index: i32,
                        before: seq<PartitionProduceData>, rejected: seq<Rejection>)
    returns (data: seq<PartitionProduceData>, rejections: seq<Rejection>)
    requires done <= combined.Keys && index in combined
    requires forall q :: q in done ==> q < index
    requires PartitionsForwarded(combined, done, before)
    requires PartitionsRejected(name, combined, done, rejected) && Unrepeated(rejected)
    ensures PartitionsForwarded(combined, done + {index}, data)
    ensures PartitionsRejected(name, combined, done + {index}, rejections) && Unrepeated(rejections)
  {
    var more := RejectOwners(Topition(name, index), combined[index]);
    PartitionApart(name, combined, done, rejected, index, more);
    RejectOne(name, combined, done, rejected, index, more);
    rejections := rejected + more;
    ForwardOne(combined, done, before, index);
    data := before;
    if combined[index].forwarded != [] {
      data := data + [PartitionProduceData(index, Some(combined[index].forwarded))];
    }
  }

  /** The middle loop of `into_topic_data`: the combined partitions of one topic. */
  method TopicBatches(name: string, combined: map<i32, Combined>)
    returns (data: seq<PartitionProduceData>, rejections: seq<Rejection>)
    ensures PartitionsForwarded(combined, combined.Keys, data)
    ensures PartitionsRejected(name, combined, combined.Keys, rejections) && Unrepeated(rejections)
  {
    IntLessIsTotal();
    var indices := AscendingKeys(combined.Keys, (a: i32, b: i32) => a < b);
    data, rejections := [], [];
    var i := 0;
    ghost var done := {};
    while i < |indices|
      invariant 0 <= i <= |indices|
      invariant done == set k | 0 <= k < i :: indices[k]
      invariant done <= combined.Keys
      invariant PartitionsForwarded(combined, done, data)
      invariant PartitionsRejected(name, combined, done, rejections) && Unrepeated(rejections)
    {
      data, rejections := PartitionBatch(name, combined, done, indices[i], data, rejections);
      done := done + {indices[i]};
      i := i + 1;
    }
    assert done == combined.Keys;
  }

  type CombinedRun = map<string, map<i32, Combined>>

  function CombinedGet(combined: CombinedRun, t: Topition): Combined {
    if t.topic in combined && t.partition in combined[t.topic] then combined[t.topic][t.partition]
    else Combined([], map[])
  }

  predicate Before(a: Topition, b: Topition) {
    StringLess(a.topic, b.topic) || (a.topic == b.topic && a.partition < b.partition)
  }

  ghost predicate Ordered(entries: seq<Entry>) {
    forall i, j :: 0 <= i < j < |entries| ==> Before(entries[i].topition, entries[j].topition)
  }

  /** `entries` has the partitions of the topics in `done` with something to forward, each once, ascending. */
  ghost predicate TopicsForwarded(combined: CombinedRun, done: set<string>, entries: seq<Entry>) {
    && Ordered(entries)
    && (forall i :: 0 <= i < |entries| ==>
          && entries[i].topition.topic in done
          && entries[i].records == Some(CombinedGet(combined, entries[i].topition).forwarded)
          && entries[i].records.value != [])
    && (forall t: Topition :: t.topic in done && CombinedGet(combined, t).forwarded != [] ==>
          exists i :: 0 <= i < |entries| && entries[i].topition == t)
  }

  ghost predicate TopicsRejected(combined: CombinedRun, done: set<string>, rejections: seq<Rejection>)
    requires done <= combined.Keys
  {
    forall r :: r in rejections <==>
                && r.topition.topic in done
                && r.topition.partition in combined[r.topition.topic]
                && Rejects(combined[r.topition.topic][r.topition.partition], r)
  }

  /** Each topic is there once, ascending, and has a partition. */
  ghost predicate Grouped(data: seq<TopicProduceData>) {
    && (forall i, j :: 0 <= i < j < |data| ==> StringLess(data[i].name, data[j].name))
    && (forall i :: 0 <= i < |data| ==> data[i].partitionData.Some? && data[i].partitionData.value != [])
  }

  ghost predicate NamesIn(data: seq<TopicProduceData>, done: set<string>) {
    forall i :: 0 <= i < |data| ==> data[i].name in done
  }

  /** One round of the outer loop of `into_topic_data`: one topic. */
  method TopicBatch(combined: CombinedRun, ghost done: set<string>, name: string,
                    before: seq<TopicProduceData>, rejected: seq<Rejection>)
    returns (data: seq<TopicProduceData>, rejections: seq<Rejection>)
    requires done <= combined.Keys && name in combined
    requires forall other :: other in done ==> StringLess(other, name)
    requires Grouped(before) && NamesIn(before, done)
    requires TopicsForwarded(combined, done, TopicEntries(before))
    requires TopicsRejected(combined, done, rejected) && Unrepeated(rejected)
    ensures Grouped(data) && NamesIn(data, done + {name})
    ensures TopicsForwarded(combined, done + {name}, TopicEntries(data))
    ensures TopicsRejected(combined, done + {name}, rejections) && Unrepeated(rejections)
  {
    var partitions, more := TopicBatches(name, combined[name]);
    TopicApart(combined, done, rejected, name, more);
    RejectTopic(combined, done, rejected, name, more);
    rejections := rejected + more;
    PartitionsForwardedEntries(combined, name, partitions);
    ForwardTopic(combined, done, TopicEntries(before), name, PartitionEntries(name, partitions));
    if partitions != [] {
      data := before + [TopicProduceData(name, Some(partitions))];
      assert data[..|before|] == before;
    } else {
      assert TopicEntries(before) + PartitionEntries(name, partitions) == TopicEntries(before);
      data := before;
    }
  }

  lemma TopicApart(combined: CombinedRun, done: set<string>, rejected: seq<Rejection>, name: string,
                   more: seq<Rejection>)
    requires done <= combined.Keys && name in combined
    requires forall other :: other in done ==> StringLess(other, name)
    requires TopicsRejected(combined, done, rejected) && Unrepeated(rejected) && Unrepeated(more)
    requires PartitionsRejected(name, combined[name], combined[name].Keys, more)
    ensures Unrepeated(rejected + more)
  {
    StringIrreflexive(name);
    forall i, j | 0 <= i < |rejected| && 0 <= j < |more| ensures rejected[i].topition != more[j].topition {
      assert rejected[i] in rejected && more[j] in more;
    }
    UnrepeatedConcat(rejected, more);
  }

  lemma RejectTopic(combined: CombinedRun, done: set<string>, rejected: seq<Rejection>, name: string,
                    more: seq<Rejection>)
    requires done <= combined.Keys && name in combined
    requires TopicsRejected(combined, done, rejected)
    requires PartitionsRejected(name, combined[name], combined[name].Keys, more)
    ensures TopicsRejected(combined, done + {name}, rejected + more)
  {
    forall r ensures r in rejected + more <==>
                     && r.topition.topic in done + {name}
                     && r.topition.partition in combined[r.topition.topic]
                     && Rejects(combined[r.topition.topic][r.topition.partition], r)
    {
      assert r in rejected + more <==> r in rejected || r in more;
    }
  }

  lemma OrderedConcat(a: seq<Entry>, b: seq<Entry>)
    requires Ordered(a) && Ordered(b)
    requires forall x, y :: x in a && y in b ==> Before(x.topition, y.topition)
    ensures Ordered(a + b)
  {
    var all := a + b;
    forall i, j | 0 <= i < j < |all|
      ensures Before(all[i].topition, all[j].topition)
    {
      if j < |a| {
        assert all[i] == a[i] && all[j] == a[j];
      } else if i < |a| {
        assert all[i] in a && all[j] in b;
      } else {
        assert all[i] == b[i - |a|] && all[j] == b[j - |a|];
      }
    }
  }

  /** The entries of one topic, as a block. */
  lemma PartitionsForwardedEntries(combined: CombinedRun, name: string, partitions: seq<PartitionProduceData>)
    requires name in combined
    requires PartitionsForwarded(combined[name], combined[name].Keys, partitions)
    ensures TopicsForwarded(combined, {name}, PartitionEntries(name, partitions))
  {
    var entries := PartitionEntries(name, partitions);
    forall t: Topition | t.topic in {name} && CombinedGet(combined, t).forwarded != []
      ensures exists i :: 0 <= i < |entries| && entries[i].topition == t
    {
      var k :| 0 <= k < |partitions| && partitions[k].index == t.partition;
      assert entries[k].topition == t;
    }
  }

  /** The next topic's partitions go on the end. */
  lemma ForwardTopic(combined: CombinedRun, done: set<string>, entries: seq<Entry>, name: string, more: seq<Entry>)
    requires forall other :: other in done ==> StringLess(other, name)
    requires TopicsForwarded(combined, done, entries)
    requires TopicsForwarded(combined, {name}, more)
    ensures TopicsForwarded(combined, done + {name}, entries + more)
  {
    var all := entries + more;
    OrderedConcat(entries, more);
    forall t: Topition | t.topic in done + {name} && CombinedGet(combined, t).forwarded != []
      ensures exists i :: 0 <= i < |all| && all[i].topition == t
    {
      if t.topic == name {
        var k :| 0 <= k < |more| && more[k].topition == t;
        assert all[|entries| + k].topition == t;
      } else {
        var i :| 0 <= i < |entries| && entries[i].topition == t;
        assert all[i].topition == t;
      }
    }
  }

  /** The outer loop of `into_topic_data`: all topics, ascending. */
  method AllTopicBatches(combined: CombinedRun, names: seq<string>)
    returns (data: seq<TopicProduceData>, rejections: seq<Rejection>)
    requires forall i, j :: 0 <= i < j < |names| ==> StringLess(names[i], names[j])
    requires combined.Keys == set k | 0 <= k < |names| :: names[k]
    ensures Grouped(data)
    ensures TopicsForwarded(combined, combined.Keys, TopicEntries(data))
    ensures TopicsRejected(combined, combined.Keys, rejections) && Unrepeated(rejections)
  {
    data, rejections := [], [];
    var i := 0;
    ghost var done := {};
    while i < |names|
      invariant 0 <= i <= |names|
      invariant done == set k | 0 <= k < i :: names[k]
      invariant done <= combined.Keys
      invariant Grouped(data) && NamesIn(data, done)
      invariant TopicsForwarded(combined, done, TopicEntries(data))
      invariant TopicsRejected(combined, done, rejections) && Unrepeated(rejections)
    {
      data, rejections := TopicBatch(combined, done, names[i], data, rejections);
      done := done + {names[i]};
      i := i + 1;
    }
    assert done == combined.Keys;
  }

  /** `into_topic_data`, once each partition is combined. */
  method IntoTopicData(combined: CombinedRun) returns (data: seq<TopicProduceData>, rejections: seq<Rejection>)
    ensures Grouped(data) && ForwardedBy(combined, TopicEntries(data))
    ensures RejectedBy(combined, rejections) && Unrepeated(rejections)
  {
    TextLessIsTotal();
    var names := AscendingKeys(combined.Keys, TextLess());
    data, rejections := AllTopicBatches(combined, names);
    AllTopics(combined, TopicEntries(data), rejections);
  }

  lemma AllTopics(combined: CombinedRun, entries: seq<Entry>, rejections: seq<Rejection>)
    requires TopicsForwarded(combined, combined.Keys, entries)
    requires TopicsRejected(combined, combined.Keys, rejections)
    ensures ForwardedBy(combined, entries)
    ensures RejectedBy(combined, rejections)
  {
    forall r ensures r in rejections <==> Rejects(CombinedGet(combined, r.topition), r) {
    }
  }

  /** The entries of a forwarded request: each partition with something to forward, once, ascending. */
  ghost predicate ForwardedBy(combined: CombinedRun, entries: seq<Entry>) {
    && Ordered(entries)
    && (forall i :: 0 <= i < |entries| ==>
          && entries[i].records == Some(CombinedGet(combined, entries[i].topition).forwarded)
          && entries[i].records.value != [])
    && (forall t :: CombinedGet(combined, t).forwarded != [] ==>
          exists i :: 0 <= i < |entries| && entries[i].topition == t)
  }

  ghost predicate RejectedBy(combined: CombinedRun, rejections: seq<Rejection>) {
    forall r :: r in rejections <==> Rejects(CombinedGet(combined, r.topition), r)
  }

  /** The calls of `combine` in `into_topic_data`, for the partitions of one topic. */
  method CombinePartitions(codec: RecordCodec,
                           partitions: map<i32, seq<OwnedBatch>>) returns (combined: map<i32, Combined>)
    ensures combined.Keys == partitions.Keys
    ensures forall p :: p in partitions ==> combined[p] == Combining(codec, partitions[p])
  {
    combined := map[];
    var rest := partitions.Keys;
    while rest != {}
      invariant rest <= partitions.Keys
      invariant combined.Keys == partitions.Keys - rest
      invariant forall p :: p in combined ==> combined[p] == Combining(codec, partitions[p])
      decreases rest
    {
      var p :| p in rest;
      var c := Combine(codec, partitions[p]);
      combined := combined[p := c];
      rest := rest - {p};
    }
  }

  /** The calls of `combine` in `into_topic_data`. */
  method CombineRun(codec: RecordCodec, run: Run) returns (combined: CombinedRun)
    ensures combined.Keys == run.Keys
    ensures forall name :: name in run ==> combined[name].Keys == run[name].Keys
    ensures forall name, p :: name in run && p in run[name] ==> combined[name][p] == Combining(codec, run[name][p])
  {
    combined := map[];
    var rest := run.Keys;
    while rest != {}
      invariant rest <= run.Keys
      invariant combined.Keys == run.Keys - rest
      invariant forall name :: name in combined ==> combined[name].Keys == run[name].Keys
      invariant forall name, p :: name in combined && p in run[name] ==> combined[name][p] == Combining(codec, run[name][p])
      decreases rest
    {
      var name :| name in rest;
      var c := CombinePartitions(codec, run[name]);
      combined := combined[name := c];
      rest := rest - {name};
    }
  }

  // ------------------------------------------------------------------ produce_request

  /** `combined` is what combining each partition of the queued requests gives. */
  ghost predicate IsCombined(codec: RecordCodec, requests: seq<BatchRequest>, combined: CombinedRun) {
    forall t :: CombinedGet(combined, t) == Combining(codec, BatchesFor(requests, t))
  }

  /**
   `produce_request`: the request that the proxy forwards for `requests`, and the partitions it
   answers itself.
   */
  method ProduceRequestFor(codec: RecordCodec, requests: seq<BatchRequest>)
    returns (request: ProduceRequest, rejections: seq<Rejection>, combined: CombinedRun)
    ensures request.acks == BatchAcks(requests) && request.timeoutMs == 5000 && request.transactionalId == None
    ensures request.topicData.Some? && Grouped(request.topicData.value)
    ensures IsCombined(codec, requests, combined)
    ensures ForwardedBy(combined, Entries(request))
    ensures RejectedBy(combined, rejections) && Unrepeated(rejections)
  {
    var run := Gather(requests);
    var c := CombineRun(codec, run);
    combined := c;
    CombinedRunIs(codec, requests, run, c);
    var data;
    data, rejections := IntoTopicData(c);
    request := ProduceRequest(None, BatchAcks(requests), 5000, Some(data));
  }

  lemma CombinedRunIs(codec: RecordCodec, requests: seq<BatchRequest>, run: Run, combined: CombinedRun)
    requires forall t :: RunGet(run, t) == BatchesFor(requests, t)
    requires combined.Keys == run.Keys
    requires forall name :: name in run ==> combined[name].Keys == run[name].Keys
    requires forall name, p :: name in run && p in run[name] ==> combined[name][p] == Combining(codec, run[name][p])
    ensures IsCombined(codec, requests, combined)
  {
    forall t ensures CombinedGet(combined, t) == Combining(codec, BatchesFor(requests, t)) {
      assert RunGet(run, t) == BatchesFor(requests, t);
      if t.topic in run && t.partition in run[t.topic] {
        assert combined[t.topic][t.partition] == Combining(codec, run[t.topic][t.partition]);
      } else {
        CombiningNothing(codec);
      }
    }
  }

  lemma CombiningNothing(codec: RecordCodec)
    ensures Combining(codec, []) == Combined([], map[])
  {
    assert AsSent([]) == [];
  }
}
