# A verified model of Nisshi

This project models the parts of Nisshi, a Kafka-compatible broker, proxy and client, whose
correctness is hardest to see from the code, and proves what they promise.

- **The batching proxy.** Many Produce requests wait in a queue. One task takes the queue, merges the
  batches of each partition into one, sends one request to the origin, and splits the one response
  back to the requests. `Records`, `Combiner`, `CombinerProofs` and `CombinerReasons` have the merge,
  `Requests` and `QueueOrder` the fan-in, `FanOut` and `FanProofs` the fan-out. `Batcher` is the protocol as a state machine over the
  critical sections of any number of tasks, `BatcherProofs` has what every run keeps, and
  `BatchService` has the service's own methods, which refine the steps of the protocol. `AcksZero` and
  `TopicConfig` are the layers around it. `CombinerWitness` and `BatcherWitness` have the inputs and runs
  that show what is not promised.
- **The pooled client connection.** `Client` reads and writes one request, byte by byte.
  `ConnectionPool` is the life of a connection, with a timeout or a cancellation possible anywhere, and
  `ConnectionServe` says that the two agree.
- **The consumer group member.** `Consumer` is the machine, `ConsumerProofs` has what its runs keep, and
  `ConsumerWitness` has a run that loses a claim.
- **The message code generator.** `Schema` has the decisions on versions, `Mezzanine` the two generated
  conversions, and `IntoVersion` the fitting of a message to a version.
- **The SASL stage of a connection**, in `Sasl`.

Bytes on the wire, the SASL library, the partition assignors, the clock, the network and fresh ids are
parameters: codecs are function values whose law is that decoding undoes encoding, and what the
environment does is an argument or an event. Integers are unbounded in Dafny, so that the source's
checked and wrapping arithmetic is written out.

## What the proofs found

Some expected properties do not hold of the code. The model keeps the code as it is, and states when
the property holds.

- A batch that the proxy merges can be too large to decode. It decodes if and only if it has one owner
  or the decoded sizes of its parts add up to no more than 100 MiB (`CombinerProofs.CombineMeaning`,
  `CombinerWitness.SomeMergedTooLarge`).
- A batch can pass the check of its offset range though `last_offset_delta + 1` is not its record count: the
  check compares nothing with nothing if neither fits into an `i32`. A mismatch is rejected as such if and only
  if one of them fits, and any other is rejected because it does not decode
  (`CombinerReasons.MismatchRejected`, `CombinerWitness.SomeRangeUnchecked`).
- A request can go without an answer for good. If the origin answers just what it is sent, a request is
  answered if and only if it lists a partition for which it has a batch or some owner's batch is accepted,
  and otherwise no continuation of the run answers it (`FanProofs.AnsweredIff`,
  `BatcherProofs.UnansweredIff`, `BatcherWitness.SomeNeverAnswered`). The same goes for the requests of a
  send that an origin error or a cancellation ends (`BatcherProofs.FinalNeverAnswered`).
- A stored answer wakes its task if and only if the task has polled its ticket an odd number of times
  (`BatcherProofs.WokenIff`, `BatcherWitness.SomeUnwoken`). The batch timeout polls again.
- A slot of the response map can stay for good. Of a task that is not waiting for the origin, a slot is never
  freed, in any continuation of the run, if and only if the task was cancelled
  (`BatcherProofs.NeverFreedIff`, `BatcherWitness.SomeNeverFreed`).
- A JoinGroup carries the partitions that a member owns if and only if the installed assignment has a
  version above 0 or is empty, because the claim is encoded at the version of the assignment
  (`ConsumerProofs.RunClaims`, `ConsumerWitness.SomeClaimLost`).
- A tagged field that does not encode is dropped without an error, so that a message comes back from
  its mezzanine form if and only if every tagged field that is set encodes, at every level
  (`Mezzanine.StructRoundTrip`, `IntoVersion.LostTag`).
- Fitting a message to a version does not reach nested tagged fields. A fitted message has only tagged
  fields of the version, at every level, if and only if this held before below each field that is kept
  (`IntoVersion.FittedCleanIff`, `IntoVersion.NestedTagStays`, `IntoVersion.SomeFitUnclean`).
- A field that exists at every version of its parent can still be generated as an `Option`, if it
  outlasts the parent (`Schema.PlainIff`, `Schema.OptionalThoughPresent`).

## Model

| member | source | states |
|---|---|---|
| `Records.InflateDeflate` | nisshi-sans-io/src/record/deflated.rs:491-624 | Decoding an encoded uncompressed batch gives back its records exactly if they are within the decode budget, and the size limit error otherwise. |
| `Records.InflateDeflateView` | nisshi-sans-io/src/record/deflated.rs:491-624 | Encoding keeps the offset range, the record count and what a consumer reads. |
| `Records.InflateIff` | nisshi-sans-io/src/record/deflated.rs:517-556 | A batch decodes if and only if its compression is one of five, its record count is plausible and within the decode budget, and its bytes read; it then has the records read, and its header but for the compression and the unused bits. |
| `Records.DeflateIff` | nisshi-sans-io/src/record/deflated.rs:491-508 | A batch encodes if and only if its compression is known, its records write and the counts fit; the length and the checksum are then those of its own header and bytes, and the rest of the header is kept. |
| `Records.RebasedTimestamp` | nisshi-sans-io/src/record/inflated.rs:208-246 | A wrapped timestamp delta, rebased from one base to another, names the same 64-bit timestamp for all bases and deltas. |
| `Records.AppendRebasedFails` | nisshi-sans-io/src/record/inflated.rs:208-345 | An append succeeds if and only if the merged last offset delta and every appended offset delta stay in the `i32` range; the only error is the overflow. |
| `Records.AppendRebasedHeader` | nisshi-sans-io/src/record/inflated.rs:309-345 | An append adds up the offset ranges, keeps the rest of the sink's header, and takes the larger of the two maximum timestamps. |
| `Records.AppendRebasedView` | nisshi-sans-io/src/record/inflated.rs:286-345 | A consumer reads from the merged batch what it reads from the sink and then from the other batch, with the same timestamps and payloads. |
| `Records.AppendRebasedContiguous` | nisshi-sans-io/src/record/inflated.rs:309-345 | Contiguous offset deltas stay contiguous. |
| `Records.AppendRebasedDecodedSize` | nisshi-sans-io/src/record/inflated.rs:347-381 | The decoded sizes add up. |
| `Combiner.AppendOwners` | nisshi-proxy/src/produce.rs:956-979 | The loop that appends each decoded batch to the sink: the sink, the merged owners and the owners rejected because their batch does not append. |
| `Combiner.RejectMerged` | nisshi-proxy/src/produce.rs:985-994 | All owners merged into a sink that does not encode are rejected, and the others keep their verdict. |
| `Combiner.Merge` | nisshi-proxy/src/produce.rs:956-995 | The merge forwards one batch, or the first owner's own if it is alone, or none. |
| `Combiner.CountByOwner` | nisshi-proxy/src/produce.rs:903-908 | The number of batches of each owner, for exactly the owners. |
| `Combiner.HasOneOwner` | nisshi-proxy/src/produce.rs:891-899 | Whether all batches have one owner. |
| `Combiner.RejectRepeated` | nisshi-proxy/src/produce.rs:901-914 | Exactly the owners with several batches are rejected for that. |
| `Combiner.DecodeOwners` | nisshi-proxy/src/produce.rs:916-952 | The loop that decodes each remaining owner's batch, or rejects the owner for the reason that decoding gives. |
| `Combiner.Combine` | nisshi-proxy/src/produce.rs:888-939 | `combine`, against the specification that the lemmas below are about. |
| `CombinerProofs.CombinePartitionsOwners` | nisshi-proxy/src/produce.rs:888-995 | Accepted and rejected owners partition the owners; nothing is forwarded exactly if nobody is accepted; several owners give at most one batch. |
| `CombinerProofs.OneOwnerIff` | nisshi-proxy/src/produce.rs:891-894 | The test of neighbouring pairs holds if and only if all batches have one owner. |
| `CombinerProofs.OneOwnerForwarded` | nisshi-proxy/src/produce.rs:891-899 | The batches of one owner go as sent, in order, and nobody is rejected. |
| `CombinerProofs.CountIs` | nisshi-proxy/src/produce.rs:903-908 | The count of an owner is the number of its batches. |
| `CombinerProofs.CombineStable` | nisshi-proxy/src/produce.rs:888-995 | Combining only the accepted owners' batches forwards the same batches and rejects nobody, so a rejected owner never alters what is forwarded for the others. |
| `CombinerProofs.CombineMeaning` | nisshi-proxy/src/produce.rs:888-995 | The merged batch has `last_offset_delta + 1 == record_count`; it decodes if and only if one owner was accepted or the decoded sizes fit the limit; it then reads as the accepted batches in queue order, timestamps and payloads unchanged; its offset deltas are contiguous if theirs are. |
| `CombinerProofs.ReadAllConcat` | nisshi-proxy/src/produce.rs:956-995 | What is read of accepted batches is what is read of the first ones and then of the others. |
| `CombinerProofs.CombineHeader` | nisshi-proxy/src/produce.rs:888-995 | Several owners: one accepted batch goes as sent; a merged one has the first accepted header, with the compression and the unused attribute bits cleared, the largest maximum timestamp of the accepted batches, its own offset range, and the length and checksum of its own header and bytes. |
| `CombinerProofs.MergedTooLarge` | nisshi-proxy/src/produce.rs:888-995 | Batches that each decode, with nobody rejected, merge into one that does not decode if their decoded sizes add up to more than the limit. |
| `CombinerWitness.SomeMergedTooLarge` | nisshi-proxy/src/produce.rs:888-995 | A lawful codec and two batches of two owners that each decode and that nobody is rejected for, and whose merged batch fails to decode with the size limit error. |
| `CombinerWitness.SomeRangeUnchecked` | nisshi-proxy/src/produce.rs:942-947 | A batch whose range does not match its record count, and whose owner is not rejected for its range. |
| `CombinerProofs.CombineReasons` | nisshi-proxy/src/produce.rs:829-995 | The reason that each owner is rejected for: several batches first, then what decoding says, and otherwise the append or the encoding. |
| `CombinerReasons.CombineReasonsExactly` | nisshi-proxy/src/produce.rs:888-995 | Of an owner whose only batch decodes: it is rejected because the batch does not append if and only if its offsets do not fit behind the batches that joined before; otherwise it is rejected if and only if two or more joined and the merged batch does not encode, with that error. |
| `CombinerReasons.CombineVerdicts` | nisshi-proxy/src/produce.rs:901-952 | Of several owners, told from the batch alone: one is rejected for its number of batches, with that number, if and only if it has another batch; else for its offset range if and only if the range neither matches the record count nor escapes the check; else because it does not decode, with that error, if and only if it does not inflate; and it reaches the merge if and only if it inflates. |
| `CombinerReasons.MismatchRejected` | nisshi-proxy/src/produce.rs:942-952 | A batch whose range does not match its record count is always rejected: for that, unless neither side of the check is an `i32`, and then because it does not decode. |
| `CombinerReasons.RejectionCode` | nisshi-proxy/src/produce.rs:829-861 | The error code of a rejected owner is 10 if and only if its batch decodes to too much, -1 if and only if its batch joined and the merged batch does not encode, and 87 otherwise. |
| `CombinerProofs.FittingBatchesAppend` | nisshi-proxy/src/produce.rs:966-979 | If the batches have contiguous offset deltas and no more than `i32::MAX` records in all, then nobody is rejected because a batch does not append. |
| `Ordering.AscendingKeys` | nisshi-proxy/src/produce.rs:716-719 | Iterating a `BTreeMap` gives each key once, ascending. |
| `Ordering.TextLessIsTotal` | nisshi-proxy/src/produce.rs:703-706 | The order of topic names is a strict total order. |
| `Requests.BatchAcks` | nisshi-proxy/src/produce.rs:692-701 | The acks of a batch ask for the full ISR if and only if some request does, and for the leader otherwise. |
| `Requests.Gather` | nisshi-proxy/src/produce.rs:649-673 | The fan-in map has for every partition the batches of all requests, with their owners, as the rows below say. |
| `QueueOrder.GatheredInOrder` | nisshi-proxy/src/produce.rs:649-673 | The batches of a partition are exactly those that the requests have for it, each with the id of its request, by position: by request in the queue, then by topic, partition and batch as the request lists them. |
| `QueueOrder.BatchesForConcat` | nisshi-proxy/src/produce.rs:649-673 | The batches of two queues, one after the other, are those of the first and then those of the second. |
| `QueueOrder.AcceptedInOrder` | nisshi-proxy/src/produce.rs:649-720 | The accepted batches are in the order of the queue, and are all that their owners have. |
| `QueueOrder.ListedIff` | nisshi-proxy/src/produce.rs:494-518 | A request lists a partition if and only if it is in one of its topics, with or without records. |
| `QueueOrder.MergeableIff` | nisshi-proxy/src/produce.rs:168-182 | A request is mergeable if and only if no batch of it, in any topic and partition, has a producer id, a transaction, a control bit or a log append time. |
| `Requests.RejectOwners` | nisshi-proxy/src/produce.rs:722-744 | The rejection rows of a partition are exactly those of its rejected owners, one each, with the error code of its reason. |
| `Requests.IntoTopicData` | nisshi-proxy/src/produce.rs:712-765 | One entry for each partition with something forwarded and no other, ascending, under one entry for each topic; exactly one rejection for each rejected owner of each partition and no other. |
| `Requests.CombineRun` | nisshi-proxy/src/produce.rs:716-720 | Each partition is combined on its own. |
| `Requests.ProduceRequestFor` | nisshi-proxy/src/produce.rs:644-684 | The forwarded request and the rejections, in terms of combining each partition's batches. |
| `FanOut.Owner.From` | nisshi-proxy/src/produce.rs:494-525 | Each partition has exactly the requests that list it as owners. |
| `FanOut.Owner.Reject` | nisshi-proxy/src/produce.rs:527-536 | A rejected owner leaves that partition and no other. |
| `FanOut.Owner.RejectAll` | nisshi-proxy/src/produce.rs:226-231 | After all rejections, an owner is left where it listed the partition and was not rejected. |
| `FanOut.Owner.Split` | nisshi-proxy/src/produce.rs:538-595 | An owner gets a response if and only if it has a row; the response has each of its rows once, ascending, under one entry for each topic, and the origin's throttle time and endpoints. |
| `FanProofs.LastRowIs` | nisshi-proxy/src/produce.rs:553-577 | The row that counts for a partition is the last one that the origin gives for it, by position in its response, and there is none exactly if it gives none. |
| `FanProofs.RowsFromOrigin` | nisshi-proxy/src/produce.rs:538-595 | Each row of each response that a split gives is the owner's rejection, with its error code and the values of nothing written, or the origin's own row for that partition, untouched, the last if there are several. |
| `FanProofs.RowsIff` | nisshi-proxy/src/produce.rs:553-577 | The rows of a response are the partition rows of its topics. |
| `FanProofs.SplitAnswersIff` | nisshi-proxy/src/produce.rs:538-595 | An owner is answered if and only if it is rejected somewhere or lists a partition for which the origin gives a row. |
| `FanProofs.RowsAgree` | nisshi-proxy/src/produce.rs:222-231 | Once the rejections of the fan-in are applied, the row that the split gives an owner is its rejection where combining rejected it, and the origin's last row where it lists the partition. |
| `BatchService.StandsSplits` | nisshi-proxy/src/produce.rs:222-296 | So what the split answers is what the fan-in calls for: exactly the owners with a row, each with exactly its rows. |
| `FanProofs.BatchesForOwners` | nisshi-proxy/src/produce.rs:649-673 | The owners of a partition's batches are exactly the requests with a batch for it. |
| `FanProofs.CombinedSettled` | nisshi-proxy/src/produce.rs:644-765 | Combining rejects a request only where it has a batch, and where it has one and is not rejected something is forwarded. |
| `FanProofs.SplitOwnRows` | nisshi-proxy/src/produce.rs:494-595 | For any origin response, a request gets rows only for partitions it lists, at most one each, and a rejection row is never replaced. |
| `FanProofs.SplitComplete` | nisshi-proxy/src/produce.rs:222-296 | If the origin answers what it is sent, a request has a row for every partition where it has a batch: the rejection or the origin's row. |
| `FanProofs.FanRoundTrip` | nisshi-proxy/src/produce.rs:222-296 | If each listed partition of a request has a batch and the origin answers what it is sent, the request is answered with exactly its own partitions, each once. |
| `FanProofs.AnsweredIff` | nisshi-proxy/src/produce.rs:222-296 | With an origin that answers exactly what it is sent, a request is answered if and only if it lists a partition for which it has a batch or some owner's batch is accepted. |
| `FanProofs.EmptyRequestUnanswered` | nisshi-proxy/src/produce.rs:649-673 | A request that carries no batch, alone in the queue, gets no answer. |
| `AcksZero.FirstFailing` | nisshi-proxy/src/acks_zero.rs:104-121 | The first row with an error code, and none exactly if no row has one. |
| `AcksZero.ToOrigin` | nisshi-proxy/src/acks_zero.rs:74-86 | An acks=0 request is passed on with acks 1 and nothing else changed, and any other as it is. |
| `AcksZero.ResponseMarker.Mark` | nisshi-sans-io/src/input.rs:185-189 | Marking sets the flag. |
| `AcksZero.ResponseMarker.Take` | nisshi-sans-io/src/input.rs:193-197 | Taking reads the flag and clears it. |
| `AcksZero.Serve` | nisshi-proxy/src/acks_zero.rs:70-102 | An acks=0 request that fails anywhere ends the connection; it marks the flag exactly if every partition succeeded. |
| `AcksZero.Passed` | nisshi-proxy/src/acks_zero.rs:70-102 | Nothing that a connection passes to the layers below has acks 0. |
| `AcksZero.PassedConcat` | nisshi-service/src/stream.rs:1013-1103 | Requests are passed on in the order in which they come. |
| `AcksZero.PassedOne` | nisshi-proxy/src/acks_zero.rs:70-86 | Every Produce is passed on, with nothing but acks 0 changed to 1, and nothing else is. |
| `AcksZero.ServeConnection` | nisshi-service/src/stream.rs:1013-1103 | Over any sequence of requests, taking the marker after request k is true exactly if k was an acks=0 Produce all of whose partitions succeeded; the connection ends at its first fatal request, or after the first whose response cannot be written or that asks to close. |
| `BatchService.BatchProduceService.Submit` | nisshi-proxy/src/produce.rs:355-396 | A request is queued at the end if it is mergeable, and bypasses the queue otherwise, as the Submit event of the protocol does. |
| `BatchService.BatchProduceService.TakeAll` | nisshi-proxy/src/produce.rs:211-231 | The whole queue is taken at once and combined, and its owners are listed with their rejections, as the TakeAll event does. |
| `BatchService.BatchProduceService.StoreAll` | nisshi-proxy/src/produce.rs:268-293 | Each answer but the caller's own is stored, over a waker if there is one. |
| `BatchService.BatchProduceService.Reply` | nisshi-proxy/src/produce.rs:258-296 | The origin's response is split, the caller's own answer is returned and its slot freed, and the others are stored, as the Reply event does. |
| `BatchService.BatchProduceService.Poll` | nisshi-proxy/src/produce.rs:1049-1064 | A stored response is taken out and delivered, a waker is taken out, and an empty slot gets a waker, as the Poll event does. |
| `BatchService.BatchProduceService.SendPendingBatch` | nisshi-proxy/src/produce.rs:202-297 | Without interruption: an empty queue does nothing, nothing forwarded means no call of the origin, an origin error drops what was taken and stores nothing. The call is a TakeAll event and then a Reply or a Fail. |
| `BatcherProofs.SubmittedKeeps` | nisshi-proxy/src/produce.rs:355-396 | Enqueueing keeps the invariant of the protocol. |
| `BatcherProofs.TakenAllKeeps` | nisshi-proxy/src/produce.rs:211-255 | Taking the queue keeps it. |
| `BatcherProofs.RepliedToKeeps` | nisshi-proxy/src/produce.rs:258-296 | Storing the answers keeps it. |
| `BatcherProofs.LosingKeeps` | nisshi-proxy/src/produce.rs:236-256 | An origin error keeps it. |
| `BatcherProofs.PolledKeeps` | nisshi-proxy/src/produce.rs:1049-1064 | A poll keeps it. |
| `BatcherProofs.CancelledKeeps` | nisshi-proxy/src/produce.rs:398-440 | Dropping a task at any point keeps it. |
| `BatcherProofs.RunKeeps` | nisshi-proxy/src/produce.rs:202-440 | Every state of every interleaving meets the invariant. |
| `BatcherProofs.RunCoherent` | nisshi-proxy/src/produce.rs:202-440 | Every state of every run is one in which the steps are defined, so that a run has no condition but that its events are enabled. |
| `BatcherProofs.ExactlyOnePlace` | nisshi-proxy/src/produce.rs:202-440 | A queued request is in exactly one place: the queue, one send in flight, the response map, delivered, dropped with its send, or never to be answered; nothing else is in any. |
| `BatcherProofs.TakenOnce` | nisshi-proxy/src/produce.rs:211-220 | A request is in at most one send, at one position, and then no longer in the queue. |
| `BatcherProofs.SentOnce` | nisshi-proxy/src/produce.rs:202-255 | The origin gets each send exactly once if it forwards something and never otherwise, as it was combined, and no request with acks 0, on the bypass, the batched and the unbatched path. |
| `BatcherProofs.RequestSentOnce` | nisshi-proxy/src/produce.rs:202-255 | What a queued request carries goes to the origin at most once: two requests to the origin for sends that have it are one. |
| `BatcherProofs.DeliveredToOwner` | nisshi-proxy/src/produce.rs:258-297 | A response is delivered at most once, to the ticket of a request in the send that the origin answered, with rows only for partitions that it lists, each of them its rejection or the origin's own last row. |
| `BatcherProofs.AnsweredCompletely` | nisshi-proxy/src/produce.rs:222-296 | The fan round trip in every run: such a request is stored or delivered with exactly its own partitions. |
| `BatcherProofs.UnansweredIff` | nisshi-proxy/src/produce.rs:222-296 | With an origin that answers exactly what it is sent, a request of an answered send is never answered, in any continuation of the run, if and only if it lists no partition for which it has a batch or some owner's batch is accepted. |
| `BatcherProofs.RunKeepsFinal` | nisshi-proxy/src/produce.rs:202-440 | In every run, a request that its send left without an answer, or that was dropped with its send, has that status in every later state. |
| `BatcherProofs.FinalNeverAnswered` | nisshi-proxy/src/produce.rs:202-440 | Such a request has no answer, stored or delivered, in any continuation of the run. |
| `BatcherWitness.SomeNeverAnswered` | nisshi-proxy/src/produce.rs:202-297 | There is a run, with no failure in it, that leaves a request without an answer in all its continuations. |
| `BatcherProofs.RunKeepsLeaked` | nisshi-proxy/src/produce.rs:398-440 | In every run, once a task with a slot in the response map is gone, the slot is there in every later state. |
| `BatcherProofs.NeverFreedIff` | nisshi-proxy/src/produce.rs:1049-1064 | The slot of a task that is not waiting for the origin is never freed, in any continuation of the run, if and only if the task is gone. |
| `BatcherWitness.SomeNeverFreed` | nisshi-proxy/src/produce.rs:1049-1064 | There is a run in which a task polls and is cancelled, and no continuation frees its slot. |
| `BatcherProofs.ReachableNext` | nisshi-proxy/src/produce.rs:202-440 | A run can go on with any event that is enabled in its last state. |
| `BatcherProofs.QueueMergeable` | nisshi-proxy/src/produce.rs:168-182 | The queue never has a batch with a producer id, a transaction, a control bit or a log append time. |
| `BatcherProofs.SubmittedWhere` | nisshi-proxy/src/produce.rs:355-396 | In every run, a request for batching is queued at the end if and only if no batch of it has one of these, and goes straight to the origin otherwise, with nothing but acks 0 changed. |
| `BatcherProofs.ForwardedShape` | nisshi-proxy/src/produce.rs:644-765 | In every run a forwarded request has at most one entry for each partition, ascending; one owner's batches go as sent; several owners' go as one batch with the meaning of the accepted ones, with the header of the first and the largest of their maximum timestamps, and free of what keeps a batch from being merged; the accepted batches are in queue order, by position in the requests. |
| `BatcherProofs.WokenIff` | nisshi-proxy/src/produce.rs:268-293 | In every run, storing an answer finds a waker exactly if its task polled an odd number of times, and the answer is there either way. |
| `BatcherWitness.SomeUnwoken` | nisshi-proxy/src/produce.rs:1049-1064 | For every codec and mergeable batch there is a run in which a task polls twice, the send of another answers it, and there is no waker. |
| `TopicConfig.FirstPutStays` | nisshi-proxy/src/topic.rs:257-284 | Over any sequence of puts, a name has the value it had, or else the first one put. |
| `TopicConfig.LookupOfPuts` | nisshi-proxy/src/topic.rs:238-255 | A lookup is the first value of the key, or else the first value of its alias. |
| `TopicConfig.InterleavingsAgree` | nisshi-proxy/src/topic.rs:257-284 | Puts that agree name by name give the same cache in any interleaving. |
| `TopicConfig.LookupAfterMore` | nisshi-proxy/src/topic.rs:238-284 | Exactly when more puts leave a lookup as it was. |
| `TopicConfig.ResourceConfig.PutValue` | nisshi-proxy/src/topic.rs:257-284 | A put inserts only where there is no value. |
| `TopicConfig.ResourceConfig.AddTopicConfiguration` | nisshi-proxy/src/topic.rs:295-332 | A response puts the typed values of its error-free topic results, in order, and no others. |
| `TopicConfig.StoredAfterResponse` | nisshi-proxy/src/topic.rs:295-332 | After a response, a name has the value it had, or else that of the first entry for it that has a value and a type, by position among the results without an error for its topic, or else none. |
| `TopicConfig.ResourceConfig.Matches` | nisshi-proxy/src/topic.rs:142-157 | A request matches exactly if some topic's lookup has the value. |
| `Client.FrameLengthIs` | nisshi-service/src/lib.rs:396-407 | A size with its top bit set is an error that reports the negative number; any other gives its bytes plus the prefix. |
| `Client.ReadFrame` | nisshi-client/src/lib.rs:991-1016 | What is read is a well-formed prefix of the bytes, and is found whenever there is one. |
| `Client.ReadFrameFails` | nisshi-client/src/lib.rs:991-1016 | Exactly when no frame is read: the size is negative, and is reported, or the bytes end too early. |
| `Client.TcpStream.ReadExact` | nisshi-client/src/lib.rs:991-1016 | The buffer is filled with the next bytes of the socket, whatever the chunks, exactly if there are enough. |
| `Client.Connection.Read` | nisshi-client/src/lib.rs:991-1016 | One frame is read and nothing after it. |
| `Client.Connection.Serve` | nisshi-client/src/lib.rs:1024-1064 | The connection is left in flight exactly if the call fails; the correlation id moves on exactly if the request was written in full. |
| `Client.Connection.IsReusable` | nisshi-client/src/lib.rs:349-373 | A connection that is in flight or idle for too long is not kept, nor is one whose probe reads a byte, the end of the stream or an error; any other is. |
| `ConnectionPool.RunKeeps` | nisshi-client/src/lib.rs:1024-1064 | Every state of every run of client, broker and network steps meets the invariant. |
| `ConnectionPool.RecycledIff` | nisshi-client/src/lib.rs:331-373 | In every run, the pool hands a connection out if and only if it is not in flight, not idle for too long, not closed, and has nothing to read, and discards it otherwise. |
| `ConnectionPool.HandedOutQuiet` | nisshi-client/src/lib.rs:331-373 | A connection that the pool hands out has no unanswered request and no unread byte. |
| `ConnectionPool.ResponsesMatch` | nisshi-client/src/lib.rs:1024-1064 | The k-th completed call returned the broker's answer to the k-th request written. |
| `ConnectionPool.ReadReturnsOwn` | nisshi-client/src/lib.rs:991-1064 | The read that completes a call returns the answer to the request just written. |
| `ConnectionPool.CorrelationIds` | nisshi-client/src/lib.rs:1024-1064 | The correlation ids on a connection are 0, 1, 2, ... without gaps, modulo 2^32. |
| `ConnectionPool.FrameLengthOk` | nisshi-client/src/lib.rs:991-1016 | On a connection that the pool handed out, the size prefix that is read declares the length of the answer to the request just written. |
| `ConnectionPool.ProbeNotEnough` | nisshi-client/src/lib.rs:349-373 | A reachable connection passes the probe for unread bytes while an answer is still to come, so only the in-flight flag keeps it from the next caller. |
| `ConnectionServe.CallEndsAsServe` | nisshi-client/src/lib.rs:1024-1064 | From every reachable state, every call of `serve` in the step model ends as `Client.Connection.Serve` does on the bytes that it read: the flag, the correlation id, the requests written and the result, for every interleaving of partial writes, partial reads, answers and arrivals, and wherever a timeout, an error or a cancellation comes. |
| `ConnectionServe.StepsEndAsServe` | nisshi-client/src/lib.rs:1024-1064 | The converse: for every number of bytes that the socket takes and every part of the answer that arrives, there is such a call from the state, and it reads that part and ends as `Serve` does. |
| `Consumer.GroupConsumer.NextAction` | nisshi-sans-io/src/consumer.rs:654-1002 | The new state, the request or error, and the counters, in terms of the functions that the lemmas below are about. |
| `Consumer.GroupConsumer.OnJoin` | nisshi-sans-io/src/consumer.rs:673-815 | The same for a JoinGroup response. |
| `Consumer.GroupConsumer.OnSync` | nisshi-sans-io/src/consumer.rs:817-902 | The same for a SyncGroup response; the counter is raised even when the assignment does not decode. |
| `Consumer.GroupConsumer.OnHeartbeat` | nisshi-sans-io/src/consumer.rs:904-996 | The same for a Heartbeat response. |
| `ConsumerProofs.Drive` | nisshi-client/src/consumer.rs:94-137 | The driver loop emits the requests of the run and ends in its last state, with its counters. |
| `ConsumerProofs.RunOutstanding` | nisshi-sans-io/src/consumer.rs:654-1002 | In every run, a JoinGroup is outstanding exactly while the member is an outsider; a SyncGroup means that no assignment is installed, and a Heartbeat that one is. |
| `ConsumerProofs.RunGeneration` | nisshi-sans-io/src/consumer.rs:729-815 | A member that is not an outsider has the generation and the id of the latest successful join. |
| `ConsumerProofs.RunCarriesLatestJoin` | nisshi-sans-io/src/consumer.rs:729-996 | Every SyncGroup and Heartbeat carries the generation and the member id of the latest successful join. |
| `ConsumerProofs.RunSyncs` | nisshi-sans-io/src/consumer.rs:729-815 | A SyncGroup comes right after a successful join, with its protocol; the leader's has the assignor's result for the join's members, and a follower's is empty. |
| `ConsumerProofs.RunInstalled` | nisshi-sans-io/src/consumer.rs:729-971 | A member has an assignment if and only if a sync installed it and no successful join, unknown member id or other sync came since. |
| `ConsumerProofs.RunClaims` | nisshi-sans-io/src/consumer.rs:584-651 | A JoinGroup offers all four assignors with the claim of the installed assignment, which arrives in full if and only if its version is above 0 or it is empty. |
| `ConsumerProofs.RunClaimsNothing` | nisshi-sans-io/src/consumer.rs:584-651 | A JoinGroup with no assignment installed claims nothing. |
| `ConsumerProofs.RunForgets` | nisshi-sans-io/src/consumer.rs:904-936 | After an unknown member id, the JoinGroup has an empty member id, generation -1 and no claim. |
| `ConsumerProofs.RunJoinsFirst` | nisshi-sans-io/src/consumer.rs:657-671 | The first JoinGroup has an empty member id and generation -1. |
| `ConsumerProofs.RunJoinsAsRequired` | nisshi-sans-io/src/consumer.rs:695-727 | In every run, the JoinGroup after MEMBER_ID_REQUIRED has the member id and the generation of that response. |
| `ConsumerProofs.RunJoinsAgain` | nisshi-sans-io/src/consumer.rs:675-693 | In every run, the JoinGroup after NOT_COORDINATOR is the one before it, but for its reason. |
| `ConsumerProofs.RunJoinsAfterRebalance` | nisshi-sans-io/src/consumer.rs:862-971 | In every run, the JoinGroup after a rebalance has the member id of the latest successful join, with its generation after a heartbeat and with -1 after a sync. |
| `ConsumerProofs.RunCallsFor` | nisshi-sans-io/src/consumer.rs:654-1002 | In every run, each response calls for one request: a successful join for a SyncGroup, a successful sync or heartbeat for a Heartbeat of the latest join, any other for a JoinGroup; there is an error only if the assignor fails, the assignment does not decode or the subscription does not encode. |
| `ConsumerProofs.RunHandles` | nisshi-sans-io/src/consumer.rs:654-1002 | No run is stuck: the machine handles every success and every known error in answer to its last request. |
| `ConsumerProofs.VersionZeroClaimsNothing` | nisshi-sans-io/src/consumer/codec.rs:51-95 | A join request made with any assignment of version 0 has no partitions and no generation, under any assignor, for every generation and member. |
| `ConsumerWitness.SomeClaimLost` | nisshi-sans-io/src/consumer.rs:938-971 | There is a run in which a sync installs a version 0 assignment with a partition, a heartbeat reports a rebalance, and the JoinGroup that follows claims nothing. |
| `ConsumerProofs.StepCounts` | nisshi-sans-io/src/consumer.rs:676-996 | A handled response raises exactly one counter, by one. |
| `ConsumerProofs.RunCounts` | nisshi-sans-io/src/consumer.rs:676-996 | In every run, the counters add up to the number of responses handled. |
| `Schema.OptionalAgrees` | nisshi-sans-io/build.rs:370-433 | `is_optional` says on every field whether `kind` generates an `Option`. |
| `Schema.MandatoryIff` | nisshi-model/src/lib.rs:255-274 | A range is mandatory in its parent's exactly if it starts no later and ends with it. |
| `Schema.PlainAlwaysPresent` | nisshi-sans-io/build.rs:370-433 | A field generated without `Option` exists at every version at which its parent exists. |
| `Schema.PlainIff` | nisshi-sans-io/build.rs:370-433 | A field, of a struct or of the message itself, is generated without `Option` if and only if it is neither tagged, nullable nor a sequence, exists at every version of its parent and ends with it, and for a field of the message also starts at version 0. |
| `Schema.OptionalThoughPresent` | nisshi-model/src/lib.rs:255-274 | A field can be optional though it exists at every version of its parent. |
| `Schema.ArbitraryMatchesLatest` | nisshi-sans-io/build.rs:477-533 | A fuzzed optional field can be `Some` exactly if it exists at the latest version, and `None` exactly if it does not or is tagged or nullable there. |
| `Schema.ArbitraryBytesAndRecords` | nisshi-sans-io/build.rs:477-533 | The two exceptions: `bytes` is always `Some` where it exists, and `records` always the default. |
| `Schema.ArbitraryPlain` | nisshi-sans-io/build.rs:477-533 | A field that is no `Option` has the generator of `bytes` or of `records` exactly if it is one, and the derived one otherwise. |
| `Mezzanine.FindOwn` | nisshi-sans-io/src/primitive/tagged.rs:177-200 | With distinct tags, the tag buffer has for each tagged field what that field encodes to. |
| `Mezzanine.FindFirst` | nisshi-sans-io/src/primitive/tagged.rs:177-200 | A tag is looked up by its first occurrence. |
| `Mezzanine.UntaggedAt` | nisshi-sans-io/build.rs:1044-1152 | The mezzanine form has exactly the fields with no tag, in descriptor order. |
| `Mezzanine.TagBufferAt` | nisshi-sans-io/build.rs:1044-1152 | The tag buffer has exactly the tagged fields that are set and encode, in descriptor order. |
| `Mezzanine.ToItemsAt` | nisshi-sans-io/build.rs:1044-1152 | The structs of a sequence are converted one by one, in order. |
| `Mezzanine.FromFieldsAt` | nisshi-sans-io/build.rs:883-1042 | From any mezzanine form, a tagged field comes back as what the data under its tag decodes to, and as null if there is none or it does not decode. |
| `Mezzanine.StructRoundTrip` | nisshi-sans-io/build.rs:883-1152 | For every schema with distinct tags and every value, converting to the mezzanine form and back gives the same value if and only if every tagged field that is set encodes, at every level. |
| `Mezzanine.KindRoundTrip` | nisshi-sans-io/build.rs:883-1152 | The same for one field of any kind. |
| `Mezzanine.ItemsRoundTrip` | nisshi-sans-io/build.rs:883-1152 | The same for the structs of a sequence. |
| `IntoVersion.Fit` | nisshi-sans-io/build.rs:789-820 | The in-place `into_version` clears the tagged fields that the version does not have, and no others. |
| `IntoVersion.FitTwice` | nisshi-sans-io/build.rs:789-820 | Fitting is idempotent, commutes between versions, and leaves untagged fields alone. |
| `IntoVersion.BuildTagBuffer` | nisshi-sans-io/build.rs:1044-1152 | The pushes of the generated conversion build the tag buffer. |
| `IntoVersion.FittedTags` | nisshi-sans-io/build.rs:789-820 | After fitting, the tag buffer has exactly the tags that are set, exist at the version and encode, in descriptor order; these are all that are set and exist at the version if and only if each of them encodes. |
| `IntoVersion.LostTag` | nisshi-sans-io/build.rs:1044-1095 | In any struct, a tagged field that does not encode comes back as null, without an error. |
| `IntoVersion.FittedCleanIff` | nisshi-sans-io/build.rs:789-820 | A fitted message has only tagged fields that exist at the version, at every level, if and only if this holds of the original below each field that fitting keeps. |
| `IntoVersion.FlatFitsClean` | nisshi-sans-io/build.rs:789-820 | A message with no structs in it always comes out so. |
| `IntoVersion.NestedTagStays` | nisshi-sans-io/build.rs:789-820 | A kept struct field with a tagged field set in it that the version does not have makes the fitted message unclean, and the nested tag buffer has what that field encodes to. |
| `IntoVersion.SomeFitUnclean` | nisshi-sans-io/build.rs:789-820 | A well-typed message, and a version, for which fitting leaves a nested tagged field that the version does not have. |
| `Sasl.AuthenticationExtension.IsAuthenticated` | nisshi-auth/src/lib.rs:109-116 | Whether the stage is finished with an identity. |
| `Sasl.AuthenticationExtension.ServeHandshake` | nisshi-auth/src/handshake.rs:47-110 | A handshake opens a new exchange whatever the stage was, or ends in no stage, with error 33 and a connection that is to close. |
| `Sasl.AuthenticationExtension.ServeAuthenticate` | nisshi-auth/src/authenticate.rs:72-117 | A step of the open exchange goes on, finishes or fails; without an open exchange it is an error and the stage is lost. |
| `Sasl.SessionIff` | nisshi-auth/src/handshake.rs:63-95 | In every run, an exchange is open exactly if the most recent handshake opened it and every event since was a step that went on. |
| `Sasl.AuthenticatedIff` | nisshi-auth/src/lib.rs:109-116 | In every run, the connection is authenticated exactly if the last event was a step that finished with a validated identity in the exchange of the most recent handshake. |
| `Sasl.NextEventEnds` | nisshi-auth/src/authenticate.rs:72-117 | Any later event ends that status. |
| `Sasl.ServerOnlyAtStart` | nisshi-auth/src/lib.rs:101-126 | The initial server stage never recurs after the first event. |
| `Sasl.AcceptedIff` | nisshi-auth/src/authenticate.rs:72-117 | In every run, an authenticate request gets no error exactly if it is a step of an open exchange that does not fail. |
| `Sasl.AnswerCodes` | nisshi-auth/src/authenticate.rs:72-117 | In every run, the error is 33 exactly for a handshake that starts no exchange, 34 exactly for a step without an open exchange, and 58 exactly for a step of one that fails. |

## Left out

- Bytes on the wire, compression, checksums and the serde encoder and decoder: function values with a law take their place, and the length that a record carries is recomputed when it is encoded and so has no field here.
- `append_rebased` is modelled on values: the model does not capture that it updates the sink's record vector in place.
- The choice of when a task takes the queue (`max_records`, the batch timeout): in the model a task may take it at any time.
- Mutex poisoning aborts the process, and is not modelled; neither are wakers as objects, UUID generation and metrics.
- The responses to requests that bypass the queue pass through unchanged and have no status in the model.
- The conversion of a configuration's text to a typed value is a parameter of the cache, and the deprecation warning for an alias has no effect in the model.
- A broker that sends frames nobody asked for, or answers out of order: the runs of a connection assume that it does neither.
- The correlation id wraps around at 32 bits as in a release build; a debug build panics there.
- Inputs of the group member that reach a `todo!` or an `assert!`, and an assignment version that the metadata codec does not know, are excluded by the precondition of a step.
- The partition assignors, and the callback on a new assignment.
- Common structs of a message are the structs of the model without tags: the source does not read tags for them on the way back.
- Rust types exclude null in a struct field that is neither tagged nor nullable; the model's typing predicate says the same.
- A connection without the authentication extension answers every SASL request with an error and changes nothing.
- Version negotiation, response timeouts, the broker, storage, the CLI and the other services.
