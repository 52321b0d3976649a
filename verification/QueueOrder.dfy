/**
 The order in which the batches of the queued requests reach the origin (nisshi-proxy/src/produce.rs:644-671), told
 by their places in the requests: by request, then by topic, partition and batch as each request lists them.
 */
module QueueOrder {
  import opened Prelude
  import opened Records
  import opened Combiner
  import opened CombinerProofs
  import opened Requests

  datatype Place = Place(request: nat, topic: nat, partition: nat, batch: nat)

  predicate Precedes(a: Place, b: Place) {
    if a.request != b.request then a.request < b.request
    else if a.topic != b.topic then a.topic < b.topic
    else if a.partition != b.partition then a.partition < b.partition
    else a.batch < b.batch
  }

  function Topics(request: ProduceRequest): seq<TopicProduceData> {
    OrEmpty(request.topicData)
  }

  function Partitions(topic: TopicProduceData): seq<PartitionProduceData> {
    OrEmpty(topic.partitionData)
  }

  /** The batches of one partition entry, if it is for `t`. */
  function EntryBatches(topic: TopicProduceData, k: nat, t: Topition): seq<Deflated>
    requires k < |Partitions(topic)|
  {
    if Topition(topic.name, Partitions(topic)[k].index) == t then OrEmpty(Partitions(topic)[k].records) else []
  }

  /** The batch at a place, if there is one, and it is for `t`. */
  function BatchAt(requests: seq<BatchRequest>, t: Topition, p: Place): Option<OwnedBatch> {
    if p.request < |requests| && p.topic < |Topics(requests[p.request].request)| then
      var topic := Topics(requests[p.request].request)[p.topic];
      if p.partition < |Partitions(topic)| && p.batch < |EntryBatches(topic, p.partition, t)| then
        Some(OwnedBatch(requests[p.request].id, EntryBatches(topic, p.partition, t)[p.batch]))
      else None
    else None
  }

  ghost predicate Ascending(places: seq<Place>) {
    forall i, j :: 0 <= i < j < |places| ==> Precedes(places[i], places[j])
  }

  /** `batches` are at `places`. */
  ghost predicate AreAt(requests: seq<BatchRequest>, t: Topition, batches: seq<OwnedBatch>, places: seq<Place>) {
    && |places| == |batches|
    && (forall i :: 0 <= i < |places| ==> BatchAt(requests, t, places[i]) == Some(batches[i]))
  }

  /** `batches` are the batches for `t` at the places before `end`, in order. */
  ghost predicate ListsUpTo(requests: seq<BatchRequest>, t: Topition, end: Place, batches: seq<OwnedBatch>,
                            places: seq<Place>) {
    && Ascending(places) && AreAt(requests, t, batches, places)
    && (forall i :: 0 <= i < |places| ==> Precedes(places[i], end))
    && (forall p :: Precedes(p, end) && BatchAt(requests, t, p).Some? ==> p in places)
  }

  lemma AscendingConcat(a: seq<Place>, b: seq<Place>, end: Place)
    requires Ascending(a) && Ascending(b)
    requires forall i :: 0 <= i < |a| ==> Precedes(a[i], end)
    requires forall j :: 0 <= j < |b| ==> !Precedes(b[j], end)
    ensures Ascending(a + b)
  {
  }

  /** The next partition entry: its batches come next. */
  lemma ListPartition(requests: seq<BatchRequest>, t: Topition, at: Place, batches: seq<OwnedBatch>,
                      places: seq<Place>) returns (more: seq<Place>)
    requires at.request < |requests| && at.topic < |Topics(requests[at.request].request)| && at.batch == 0
    requires at.partition < |Partitions(Topics(requests[at.request].request)[at.topic])|
    requires ListsUpTo(requests, t, at, batches, places)
    ensures
      var entry := EntryBatches(Topics(requests[at.request].request)[at.topic], at.partition, t);
      ListsUpTo(requests, t, at.(partition := at.partition + 1), batches + Own(requests[at.request].id, entry), more)
  {
    var entry := EntryBatches(Topics(requests[at.request].request)[at.topic], at.partition, t);
    var added := seq(|entry|, b requires 0 <= b < |entry| => at.(batch := b));
    AscendingConcat(places, added, at);
    more := places + added;
    var end := at.(partition := at.partition + 1);
    forall p | Precedes(p, end) && BatchAt(requests, t, p).Some? ensures p in more {
      if !Precedes(p, at) {
        assert p == at.(batch := p.batch) && p == added[p.batch];
      }
    }
  }

  /** An end can move over places with no batch for `t`. */
  lemma MoveEnd(requests: seq<BatchRequest>, t: Topition, end: Place, next: Place, batches: seq<OwnedBatch>,
                places: seq<Place>)
    requires ListsUpTo(requests, t, end, batches, places)
    requires forall p :: Precedes(p, end) ==> Precedes(p, next)
    requires forall p :: Precedes(p, next) && !Precedes(p, end) ==> BatchAt(requests, t, p).None?
    ensures ListsUpTo(requests, t, next, batches, places)
  {
  }

  lemma PartitionBatches(owner: Uuid, topic: TopicProduceData, k: nat, t: Topition)
    requires k < |Partitions(topic)|
    ensures BatchesOf(owner, PartitionEntries(topic.name, Partitions(topic)[..k + 1]), t)
            == BatchesOf(owner, PartitionEntries(topic.name, Partitions(topic)[..k]), t) + Own(owner, EntryBatches(topic, k, t))
  {
    var partitions := Partitions(topic);
    var before := PartitionEntries(topic.name, partitions[..k]);
    var entry := Entry(Topition(topic.name, partitions[k].index), partitions[k].records);
    assert PartitionEntries(topic.name, partitions[..k + 1]) == before + [entry];
    assert (before + [entry])[..|before|] == before;
    assert Own(owner, []) == [];
  }

  /** The first `k` partition entries of a topic. */
  lemma {:induction false} ListPartitions(requests: seq<BatchRequest>, t: Topition, r: nat, i: nat, k: nat,
                                          batches: seq<OwnedBatch>, places: seq<Place>) returns (all: seq<Place>)
    requires r < |requests| && i < |Topics(requests[r].request)|
    requires k <= |Partitions(Topics(requests[r].request)[i])|
    requires ListsUpTo(requests, t, Place(r, i, 0, 0), batches, places)
    ensures
      var topic := Topics(requests[r].request)[i];
      ListsUpTo(requests, t, Place(r, i, k, 0),
                batches + BatchesOf(requests[r].id, PartitionEntries(topic.name, Partitions(topic)[..k]), t), all)
  {
    var owner, topic := requests[r].id, Topics(requests[r].request)[i];
    if k == 0 {
      assert batches + BatchesOf(owner, PartitionEntries(topic.name, Partitions(topic)[..0]), t) == batches;
      all := places;
    } else {
      var before := ListPartitions(requests, t, r, i, k - 1, batches, places);
      var listed := BatchesOf(owner, PartitionEntries(topic.name, Partitions(topic)[..k - 1]), t);
      all := ListPartition(requests, t, Place(r, i, k - 1, 0), batches + listed, before);
      PartitionBatches(owner, topic, k - 1, t);
      Assoc(batches, listed, Own(owner, EntryBatches(topic, k - 1, t)));
    }
  }

  /** The first `i` topics of a request. */
  lemma {:induction false} ListTopics(requests: seq<BatchRequest>, t: Topition, r: nat, i: nat,
                                      batches: seq<OwnedBatch>, places: seq<Place>) returns (all: seq<Place>)
    requires r < |requests| && i <= |Topics(requests[r].request)|
    requires ListsUpTo(requests, t, Place(r, 0, 0, 0), batches, places)
    ensures ListsUpTo(requests, t, Place(r, i, 0, 0),
                      batches + BatchesOf(requests[r].id, TopicEntries(Topics(requests[r].request)[..i]), t), all)
  {
    var owner, topics := requests[r].id, Topics(requests[r].request);
    if i == 0 {
      assert batches + BatchesOf(owner, TopicEntries(topics[..0]), t) == batches;
      all := places;
    } else {
      var h := i - 1;
      var before := ListTopics(requests, t, r, h, batches, places);
      var listed, partitions := TopicEntries(topics[..h]), Partitions(topics[h]);
      var entries := PartitionEntries(topics[h].name, partitions);
      all := ListPartitions(requests, t, r, h, |partitions|, batches + BatchesOf(owner, listed, t), before);
      assert partitions[..|partitions|] == partitions;
      TopicEntriesStep(topics, h);
      BatchesOfConcat(owner, listed, entries, t);
      Assoc(batches, BatchesOf(owner, listed, t), BatchesOf(owner, entries, t));
      MoveEnd(requests, t, Place(r, h, |partitions|, 0), Place(r, i, 0, 0), batches + BatchesOf(owner, listed + entries, t), all);
    }
  }

  /** The first `r` requests. */
  lemma {:induction false} ListRequests(requests: seq<BatchRequest>, t: Topition, r: nat) returns (all: seq<Place>)
    requires r <= |requests|
    ensures ListsUpTo(requests, t, Place(r, 0, 0, 0), BatchesFor(requests[..r], t), all)
  {
    if r == 0 {
      all := [];
    } else {
      var h := r - 1;
      var before := ListRequests(requests, t, h);
      var topics := Topics(requests[h].request);
      all := ListTopics(requests, t, h, |topics|, BatchesFor(requests[..h], t), before);
      assert topics[..|topics|] == topics && requests[..r][..h] == requests[..h];
      MoveEnd(requests, t, Place(h, |topics|, 0, 0), Place(r, 0, 0, 0), BatchesFor(requests[..r], t), all);
    }
  }

  /** `batches` are batches for `t` in the order of the queue, and all that their owners have. */
  ghost predicate InQueueOrder(requests: seq<BatchRequest>, t: Topition, batches: seq<OwnedBatch>) {
    exists places ::
      && Ascending(places) && AreAt(requests, t, batches, places)
      && forall p :: BatchAt(requests, t, p).Some? && BatchAt(requests, t, p).value.owner in Owners(batches) ==> p in places
  }

  /**
   The batches gathered for a partition are those that the requests have for it, each with the id of its
   request, in the order of the queue and within a request in the order in which it lists them.
   */
  lemma GatheredInOrder(requests: seq<BatchRequest>, t: Topition) returns (places: seq<Place>)
    ensures Ascending(places) && AreAt(requests, t, BatchesFor(requests, t), places)
    ensures forall p :: BatchAt(requests, t, p).Some? <==> p in places
    ensures InQueueOrder(requests, t, BatchesFor(requests, t))
  {
    places := ListRequests(requests, t, |requests|);
    assert requests[..|requests|] == requests;
    forall p | p in places ensures BatchAt(requests, t, p).Some? {
      var i :| 0 <= i < |places| && places[i] == p;
    }
    forall p | BatchAt(requests, t, p).Some? ensures p in places {
      assert Precedes(p, Place(|requests|, 0, 0, 0));
    }
  }

  // ------------------------------------------------------------------ the entries of a request

  /** Partition `k` of topic `i`, as an entry. */
  function EntryAt(topics: seq<TopicProduceData>, i: nat, k: nat): Option<Entry> {
    if i < |topics| && k < |Partitions(topics[i])| then
      Some(Entry(Topition(topics[i].name, Partitions(topics[i])[k].index), Partitions(topics[i])[k].records))
    else None
  }

  ghost predicate HasEntry(topics: seq<TopicProduceData>, e: Entry) {
    exists i: nat, k: nat :: EntryAt(topics, i, k) == Some(e)
  }

  /** The entries of a request are the partitions of its topics. */
  lemma {:induction false} EntriesIff(topics: seq<TopicProduceData>, e: Entry)
    ensures e in TopicEntries(topics) <==> HasEntry(topics, e)
  {
    if topics != [] {
      var n := |topics| - 1;
      EntriesIff(topics[..n], e);
      var last := PartitionEntries(topics[n].name, Partitions(topics[n]));
      assert e in TopicEntries(topics) <==> e in TopicEntries(topics[..n]) || e in last;
      if e in last {
        var k :| 0 <= k < |last| && last[k] == e;
        assert EntryAt(topics, n, k) == Some(e);
      }
      if i: nat, k: nat :| EntryAt(topics[..n], i, k) == Some(e) {
        assert EntryAt(topics, i, k) == Some(e);
      }
      if i: nat, k: nat :| EntryAt(topics, i, k) == Some(e) {
        assert if i < n then EntryAt(topics[..n], i, k) == Some(e) else last[k] == e;
      }
    }
  }

  /** A request lists a partition exactly if one of its topics does. */
  lemma ListedIff(request: ProduceRequest, t: Topition)
    ensures t in Listed(request) <==>
            exists i: nat, k: nat :: EntryAt(Topics(request), i, k).Some? && EntryAt(Topics(request), i, k).value.topition == t
  {
    var entries := Entries(request);
    if t in Listed(request) {
      var e :| 0 <= e < |entries| && entries[e].topition == t;
      EntriesIff(Topics(request), entries[e]);
      var i: nat, k: nat :| EntryAt(Topics(request), i, k) == Some(entries[e]);
    }
    if i: nat, k: nat :| EntryAt(Topics(request), i, k).Some? && EntryAt(Topics(request), i, k).value.topition == t {
      EntriesIff(Topics(request), EntryAt(Topics(request), i, k).value);
    }
  }

  /** The header of the batch has nothing that a merged batch could not have. */
  predicate PlainHeader(h: BatchHeader) {
    h.producerId == -1 && !h.attributes.transactional && !h.attributes.control && !h.attributes.logAppendTime
  }

  ghost predicate PlainEntry(e: Entry) {
    forall b :: 0 <= b < |OrEmpty(e.records)| ==> PlainHeader(OrEmpty(e.records)[b].header)
  }

  /** Every batch of the request is free of a producer id, a transaction, a control bit and a log append time. */
  ghost predicate PlainRequest(request: ProduceRequest) {
    forall i: nat, k: nat :: EntryAt(Topics(request), i, k).Some? ==> PlainEntry(EntryAt(Topics(request), i, k).value)
  }

  lemma MergeableEntries(request: ProduceRequest)
    ensures Mergeable(request) <==> forall e :: 0 <= e < |Entries(request)| ==> PlainEntry(Entries(request)[e])
  {
    var entries := Entries(request);
    if Mergeable(request) {
      forall e | 0 <= e < |entries| ensures PlainEntry(entries[e]) {
        assert forall b :: 0 <= b < |OrEmpty(entries[e].records)| ==> MergeableBatch(OrEmpty(entries[e].records)[b]);
      }
    }
    if forall e :: 0 <= e < |entries| ==> PlainEntry(entries[e]) {
      forall e, b | 0 <= e < |entries| && 0 <= b < |OrEmpty(entries[e].records)|
        ensures MergeableBatch(OrEmpty(entries[e].records)[b])
      {
        assert PlainEntry(entries[e]);
      }
    }
  }

  lemma MergeableIff(request: ProduceRequest)
    ensures Mergeable(request) <==> PlainRequest(request)
  {
    var entries := Entries(request);
    MergeableEntries(request);
    if Mergeable(request) {
      forall i: nat, k: nat | EntryAt(Topics(request), i, k).Some? ensures PlainEntry(EntryAt(Topics(request), i, k).value) {
        EntriesIff(Topics(request), EntryAt(Topics(request), i, k).value);
      }
    }
    if PlainRequest(request) {
      forall e | 0 <= e < |entries| ensures PlainEntry(entries[e]) {
        EntriesIff(Topics(request), entries[e]);
        var i: nat, k: nat :| EntryAt(Topics(request), i, k) == Some(entries[e]);
      }
    }
  }

  /** A grouped request has topics exactly if it has entries. */
  lemma GroupedEntries(data: seq<TopicProduceData>)
    requires Grouped(data)
    ensures data == [] <==> TopicEntries(data) == []
  {
    if data != [] {
      EntriesIff(data, EntryAt(data, 0, 0).value);
    }
  }

  // ------------------------------------------------------------------ what is kept of them

  lemma AscendingSnoc(places: seq<Place>, p: Place)
    requires Ascending(places) && forall q :: q in places ==> Precedes(q, p)
    ensures Ascending(places + [p])
  {
  }

  lemma AreAtButLast(requests: seq<BatchRequest>, t: Topition, batches: seq<OwnedBatch>, places: seq<Place>)
    requires batches != [] && Ascending(places) && AreAt(requests, t, batches, places)
    ensures
      var n := |batches| - 1;
      && Ascending(places[..n]) && AreAt(requests, t, batches[..n], places[..n])
      && (forall q :: q in places[..n] ==> Precedes(q, places[n]))
  {
  }

  /** Keeping the batches of some owners keeps their order. */
  lemma {:induction false} KeepPlaces(requests: seq<BatchRequest>, t: Topition, batches: seq<OwnedBatch>,
                                      places: seq<Place>, ids: set<Uuid>) returns (kept: seq<Place>)
    requires Ascending(places) && AreAt(requests, t, batches, places)
    ensures Ascending(kept) && AreAt(requests, t, Keep(batches, ids), kept)
    ensures forall p :: p in kept ==> p in places
    ensures forall p :: p in places && BatchAt(requests, t, p).value.owner in ids ==> p in kept
  {
    if batches == [] {
      kept := [];
    } else {
      var n := |batches| - 1;
      AreAtButLast(requests, t, batches, places);
      kept := KeepPlaces(requests, t, batches[..n], places[..n], ids);
      assert places == places[..n] + [places[n]];
      if batches[n].owner in ids {
        AscendingSnoc(kept, places[n]);
        kept := kept + [places[n]];
      }
    }
  }

  lemma KeptPlace(requests: seq<BatchRequest>, t: Topition, batches: seq<OwnedBatch>, ids: set<Uuid>, p: Place)
    requires BatchAt(requests, t, p).Some? && BatchAt(requests, t, p).value.owner in Owners(Keep(batches, ids))
    ensures BatchAt(requests, t, p).value.owner in ids
  {
    KeptOwners(batches, ids);
  }

  lemma KeepInOrder(requests: seq<BatchRequest>, t: Topition, ids: set<Uuid>)
    ensures InQueueOrder(requests, t, Keep(BatchesFor(requests, t), ids))
  {
    var batches := BatchesFor(requests, t);
    var places := GatheredInOrder(requests, t);
    var kept := KeepPlaces(requests, t, batches, places, ids);
    forall p | BatchAt(requests, t, p).Some? && BatchAt(requests, t, p).value.owner in Owners(Keep(batches, ids))
      ensures p in kept
    {
      KeptPlace(requests, t, batches, ids, p);
    }
  }

  /** The batches for a partition of two queues, one after the other. */
  lemma {:induction false} BatchesForConcat(a: seq<BatchRequest>, b: seq<BatchRequest>, t: Topition)
    ensures BatchesFor(a + b, t) == BatchesFor(a, t) + BatchesFor(b, t)
  {
    if b == [] {
      assert a + b == a;
    } else {
      var n := |b| - 1;
      assert (a + b)[..|a| + n] == a + b[..n];
      BatchesForConcat(a, b[..n], t);
      Assoc(BatchesFor(a, t), BatchesFor(b[..n], t), BatchesOf(b[n].id, Entries(b[n].request), t));
    }
  }

  /** Accepted batches go to the origin in the order of the queue. */
  lemma AcceptedInOrder(codec: RecordCodec, requests: seq<BatchRequest>, t: Topition)
    ensures InQueueOrder(requests, t, Accepted(codec, BatchesFor(requests, t)))
  {
    KeepInOrder(requests, t, AcceptedIds(codec, BatchesFor(requests, t)));
  }
}
