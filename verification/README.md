# Verification of the disruptor's publish/consume protocol

This project models, in Dafny 4.11, the lock-free core of the disruptor library: producers that
claim, write and publish sequences in a ring of slots, staged consumers and pollers that read them,
external gates, shutdown and drain, and the two blocking wait strategies. It proves what the
protocol keeps in every interleaving, for every ring size, number of producers, batch size, stage
graph and gate. `dafny verify dfyconfig.toml` checks all of it.

## How it is organised

| module | what it holds |
|---|---|
| `Bits`, `Availability` | 64-bit words as numbers; the availability bitmap: masks, xor publication of one sequence or a range, the scan of a word, what the bits mean |
| `DependentsBarriers` | the barrier of a stage that also waits for gates, as a loop under interference |
| `MultiProducerBarriers` | the bitmap barrier as a class over an array of words: construction, indices, `publish`, `publish_range_relaxed`, `get_after` under interference |
| `Sequences` | cursors, gates, and the notifier that every store is followed by |
| `RingBuffers`, `SingleProducers`, `MultiProducers` | slots and their index arithmetic, the minimum over cursors, the producers' claim, publish, clone and drop methods |
| `Consumers` | the processor loop, the poller, its guard |
| `Wiring`, `Builders` | which cursors and gates each consumer waits for; the builder, whose result is a configuration the theorems are about |
| `Protocol` | the whole disruptor as a step machine; one step is one access to shared memory |
| `Invariant`, `Preservation`, `Delivery` | what every reachable state satisfies and why every step keeps it |
| `Safety` | the safety theorems |
| `Producing`, `Consuming` | what one whole call of a producer or a consumer amounts to, over any run of the others |
| `BoundedLog` | both producers refine one abstract bounded log |
| `Progress`, `Drain`, `Contention` | nobody is stuck: what is left to do can be done, and any claim can be granted; lost races are won by others |
| `EveryRun`, `Fairness` | draining under every schedule, fair in completed calls or just in steps |
| `Waiting`, `Wakeup`, `Reasons` | the blocking and lite-blocking strategies: no wakeup is lost, under every schedule a wait that is over ends, and no other |
| `Composition` | the protocol and the strategies in one machine: draining with consumers that really block |

Everything the source does in place is a class or a method: the bitmap, the ring, the cursors, the
producers, the guard, the builder. What several threads do together is a step machine, because there
the interleaving is the point. The two meet in the words: `Protocol` publishes and scans with the
functions (`PublishChunk`, `ScanWord`, `Take`) that the methods of `MultiProducerBarrier` are proved
to compute; and in the builder, which returns a configuration of the step machine.

Four things to know when reading:

- **One machine, two protocols.** `Config.multi` selects the producer. The single producer is one
  handle that is never cloned: it publishes by storing a cursor instead of flipping bits. Its claim
  is written as a compare-and-exchange that cannot fail (`Safety.SingleProducerNeverRetries`), and
  its drop takes the path of the last handle. Its `sequence` field is `claimed + 1` between calls.
- **`Interfere` methods** stand for the other threads in the sequential methods. Their bodies are
  empty, but a caller sees only the contract, so a proof about a caller holds for anything the
  contract allows. That the real threads obey the contract of the barrier's, over any run of theirs
  between two accesses, is `Safety.MeanwhileForPublisher` for a publishing producer, with earlier and
  later claims of others published in any order, and `Safety.MeanwhileForScanner` for a scanning
  consumer; the bitmap is judged by the next sequence of any consumer, which may read on while a producer
  publishes. That cursors and claims only move forwards is part of
  `Preservation.StepKeeps`'s lemmas (`Invariant.Advances`).
- **Enabledness.** `Enabled` carries a few guards (a list index is in range, a size is not zero) that
  make each step well defined. They never stop a thread: in every reachable state every producer and
  every consumer that has not finished has an enabled step (`Progress.ProducersAreNotBlocked`,
  `Progress.ConsumersAreNotBlocked`).
- **A precondition that differs from its documentation.** The comment at `src/barrier.rs:8-9` asks
  for the last sequence returned; every caller passes the next unread one
  (`src/consumer.rs:132-133`, `src/consumer/event_poller.rs:258-264`). The model follows the callers.
  Passing an already consumed sequence would be wrong: `Availability.ConsumedSequenceMisread` is a
  concrete case, and `Safety.ReusedSlotsCutScansShort` says exactly when a scan from a sequence whose
  slot is claimed again offers too little: once its successor in the slot is published.

The repository's own TLA+ models intend two statements. `NoDataRaces`
(`verification/RingBuffer.tla:78-81`) is `Safety.NoTwoWriters` and `Safety.NoWriterWithReader`.
`Liveliness` (`verification/MPMC.tla:182-183`), that under weak fairness every reader ends up with
0, 1, 2, ... to the last event, is here about the time after the last producer is gone: once the shutdown
sequence is stored, under every schedule in which consumers keep taking steps, every consumer has
finished everything after at most one more round of turns than there are events left
(`Fairness.EveryFairRunDrains`, from `EveryRun.EveryRunDrains`), in the order and with the events of
`Safety.ProcessorsReadTheLog`; and so it is when consumers really block between their calls
(`Composition.EveryBlockingRunDrains`). Such schedules always exist (`EveryRun.RoundsExist`,
`Composition.BlockingRoundsExist`). All of it holds for all sizes, and on the words, cached limits, batches, stages and shutdown that the TLA+ models leave out.

## Model

| member | source | states |
|---|---|---|
| Safety.NoTwoWriters | src/producer/multi.rs:201-278 | In every reachable state, two different sequences that are claimed and unpublished never share a slot, whoever holds them. |
| Safety.NoWriterWithReader | src/consumer.rs:119-152 | No slot is held by a producer for writing and by a consumer of any stage for reading. |
| Safety.ClaimsTile | src/producer/multi.rs:201-240 | The claims tile 0..cursor: each claimed sequence is published or held by exactly one producer, and nothing else is either. |
| Safety.ClaimsAreCounted | src/cursor.rs:18-21 | Published and in-flight sequences always number cursor + 1. |
| Safety.NoConsumerIsLapped | src/producer/multi.rs:207-224 | The claim cursor never exceeds any consumer's cursor by more than the capacity, at whatever stage, although producers check a cached limit and the last stage only. |
| Safety.ClaimsFitTheRing | src/producer/multi.rs:226-236 | A compare-and-exchange that succeeds, even after stale reads, claims at most what is free behind every consumer; one for more than the capacity always fails. |
| Safety.CachedLimitIsSafe | src/producer/multi.rs:207-224 | `sequence_clear_of_consumers` never exceeds any watched cursor plus the capacity, so skipping the check is as safe as checking. |
| Safety.SingleProducerNeverRetries | src/producer/single.rs:118-142 | The single producer's claim always starts at its last published sequence. |
| Safety.ParityTellsPublished | src/producer/multi.rs:282-296 | For the ring of sequences after any consumer's cursor, the bit of a sequence is its round's parity if and only if it is published. |
| Safety.FirstLoadDecides | src/producer/multi.rs:407-446 | The first word `get_after` loads offers the next sequence exactly if it is published at that moment. |
| Safety.ReusedSlotsMisread | src/barrier.rs:8-13 | For a sequence whose slot has been claimed again: its bit reads as published if and only if the newer sequence is not yet published. |
| Safety.ReusedSlotsCutScansShort | src/barrier.rs:8-13 | A scan from such a sequence offers less than it if and only if the newer sequence is published. |
| Safety.OthersOnlyPublish | src/producer/multi.rs:369-402 | Whatever step any other thread takes, published sequences stay published and the bitmap stays exact for a scanning consumer. |
| Safety.MeanwhileForPublisher | src/producer/multi.rs:369-392 | Over any run of the others while a producer publishes, with earlier claims still unpublished or not: judged by any consumer the bitmap stays exact, and what the producer holds stays unpublished, beyond what that consumer has read and within its ring. |
| Safety.MeanwhileForScanner | src/producer/multi.rs:407-446 | Over any run of the others while a consumer scans, the bitmap stays exact for the ring from its next sequence on, and nothing is taken back. |
| Safety.OthersLeaveWhatIsHeld | src/producer/multi.rs:262-278 | No step of any other thread publishes, or takes away, what a producer holds. |
| Safety.ProcessorsReadTheLog | src/consumer.rs:130-148 | Every processor, at every stage, is given 0, 1, 2, ... in order, each with its claimer's final event, and `end_of_batch` exactly on the sequences its cursor is set to. |
| Producing.WhatIsWrittenIsRead | src/producer/multi.rs:244-278 | In every run from the start, the event last written for a sequence is what the log holds and what every consumer, at any stage, has been given for it. |
| Safety.PollersReadTheLog | src/consumer/event_poller.rs:125-136 | A poller's reads strictly ascend and always yield the logged event of a published sequence. |
| Safety.LogIsFinal | src/producer/multi.rs:262-278 | Over any run, the event of a published sequence never changes, however often its slot is reused. |
| Safety.OnlyTheClaimerWrites | src/ringbuffer.rs:63-69 | A step that changes the event of a sequence is a write by the producer that claimed it, before publishing it. |
| Safety.StagesAreOrdered | src/consumer.rs:107-117 | No consumer reads beyond any cursor it waits for, beyond the published frontier, or beyond the largest value each of its gates has held, even if gates move backwards. |
| Consuming.MinimumIsOfValuesHeld | src/consumer.rs:107-117 | Over any run of the others, what a staged barrier answers is the least of values that each cursor and each gate has had between the beginning and the end of the reading; a gate's earlier peak does not count. |
| DependentsBarriers.MultiConsumerDependentsBarrier.GetAfter | src/consumer.rs:107-117 | The loop itself, with cursors and gates moving between its loads: at most the slowest cursor and a value each gate has held since the call began, and no less than that; undisturbed, exactly the least of all as they stand. |
| Consuming.CallComesTo | src/consumer.rs:130-151 | A whole wait or poll, over any run of the others: nothing has changed if the shutdown sequence or nothing new was found; otherwise the cursor has moved exactly to an answer the barrier gave during the call, or to the poll's limit before it, and the sequences handed out are those after the old cursor, one after another, to a processor all of them. |
| Safety.RearIsSlowest | src/builder/multi.rs:241-253 | For every consumer some consumer of the watched last stage is at most as far. |
| Safety.ShutdownIsExact | src/wait_strategies.rs:18-34 | Whoever is told to stop has consumed every event ever published; no claim is in flight and all claims are published. |
| Safety.TotalIsFinal | src/producer/multi.rs:151-165 | Once the last handle is gone, over any run the total is fixed and the only shutdown sequence ever stored is that total. |
| Safety.NoEarlyShutdown | src/producer/multi.rs:113-143 | While any handle is live, in use or idle, no shutdown is stored and nobody has been told to stop. |
| Delivery.StepCounts | src/producer/multi.rs:113-165 | Every step keeps the reference count equal to the number of live handles. |
| Delivery.StepDelivers | src/consumer.rs:130-148 | Every step of anybody keeps every consumer's deliveries ordered, true to the log and marked exactly at batch ends. |
| Delivery.PublishedIsFinal | src/producer/multi.rs:244-278 | No single step changes the event of a published sequence. |
| Delivery.RunIsSound | src/producer/multi.rs:201-278 | The whole invariant holds after every run from a state that satisfies it. |
| Preservation.StepKeeps | src/producer/multi.rs:201-278 | Every step of every thread keeps the invariant: claims, limits, stages, bitmap, slots. |
| Preservation.ClaimFits | src/producer/multi.rs:207-236 | A producer whose remembered cursor is still current may claim all it asked for: it fits behind every watched cursor and in the ring. |
| Preservation.PublishGrows | src/producer/multi.rs:369-392 | Each atomic xor of a publication publishes exactly the next part of what the producer holds. |
| Preservation.ScanIsSound | src/producer/multi.rs:407-446 | A word loaded mid-scan, while others publish, yields only published sequences and never leads beyond one ring. |
| Preservation.MinimumKeeps | src/consumer.rs:55-66 | The minimum assembled from loads at different times offers only what every watched cursor and gate peak has reached. |
| BoundedLog.StepRefinesLog | src/producer/single.rs:118-183 | Each step of either protocol appends to the bounded log, moves one cursor within it, or changes nothing. |
| BoundedLog.DisruptorIsABoundedLog | src/producer/multi.rs:201-278 | For every run, the states after each of its steps, seen through the abstraction, form a run of the bounded log from its initial state. |
| BoundedLog.DeliveriesAreAPrefixOfTheLog | src/consumer.rs:130-148 | What a processor has been given is, in order, a prefix of the log. |
| BoundedLog.FrontierFrom | src/producer/multi.rs:407-446 | The contiguous published frontier: everything up to it is published and the next sequence is not. |
| Progress.NoDeadlock | src/producer/multi.rs:201-240 | With open gates, in every reachable state a producer can publish, or a consumer can read on, or the whole ring is free. |
| Progress.SomebodyCanRead | src/consumer.rs:107-117 | If all claims are published and some consumer is behind, some consumer that is behind can read on. |
| Progress.FinishMinimum | src/consumer.rs:107-117 | An undisturbed minimum is exactly the least of all cursors and gates as they stand, also after a gate has moved backwards. |
| Progress.FinishScan | src/producer/multi.rs:407-446 | An undisturbed scan ends, with exactly the published frontier. |
| Progress.Advance | src/consumer.rs:130-151 | A consumer that can read on, left alone, moves its cursor forwards. |
| Progress.ClaimThatFitsSucceeds | src/producer/multi.rs:201-240 | A claim that fits behind the last stage succeeds for a producer left alone, whatever its cached limit, and gets exactly the next n sequences. |
| Progress.PublishingCompletes | src/producer/multi.rs:369-392 | A producer left alone publishes all it holds. |
| Progress.ProducersAreNotBlocked | src/producer/multi.rs:201-278 | Every producer that has not dropped its handle can always take a step. |
| Progress.ConsumersAreNotBlocked | src/consumer.rs:119-152 | Every consumer that has not been told to stop can always take a step. |
| Drain.BatchesAreBounded | src/consumer.rs:130-151 | After the last drop, every run has at most as many non-empty batches as there are events left: each one lowers what is left and no step raises it. |
| EveryRun.EveryRunDrains | src/consumer.rs:119-152 | After the shutdown is stored, with gates open and polls for at least one event: in every interleaving, after more rounds than events left, each round letting every consumer that is not yet stopped complete a call, every consumer has finished every event and been told to stop. |
| EveryRun.CompletedCallMoved | src/consumer.rs:130-151 | A consumer that can read on moves its cursor with every call it completes, whatever all other threads do meanwhile. |
| EveryRun.CompletedCallStopped | src/wait_strategies.rs:18-34 | A consumer that has read everything is told to stop by the next call it completes. |
| Fairness.CompletesWithin | src/consumer.rs:119-152 | Whoever else runs, a consumer ends the call it is in and completes another within a number of its own steps: at most the rest of that call, and then twice the ring size plus the cursors and gates it waits for plus four. |
| Fairness.TurnCompletesCall | src/consumer.rs:130-151 | In every reachable state a consumer that takes a turn, of a number of steps that the configuration fixes, completes a call. |
| Fairness.EveryFairRunDrains | src/consumer.rs:119-152 | The drain needs only that consumers take steps: after more rounds of turns than events left, in any interleaving, every consumer has everything and has been told to stop. |
| EveryRun.LastProducerStores | src/producer/multi.rs:151-165 | In every run after the last drop, two steps of its producer store the final total as the shutdown sequence. |
| EveryRun.RoundsExist | src/consumer.rs:119-152 | From every such state there are runs of as many rounds as one likes. |
| Contention.AnyClaimCanBeGranted | src/producer/multi.rs:201-240 | From every reachable state with open gates, an idle producer can be granted any batch that fits the ring, after steps of the others that claim nothing. |
| Producing.ClaimIsWhatWasAskedFor | src/producer/multi.rs:226-236 | From asking for n until it writes, however many races it loses and whatever the others do, a producer that gets a claim gets n. |
| Producing.ComparesWithWhatItSaw | src/cursor.rs:18-21 | What a claim is compared with is always a value the cursor has had since the call began. |
| Producing.SeenIsHeld | src/producer/multi.rs:231-235 | After a lost race the producer goes on with the cursor value it saw. |
| Producing.RefusalHasAReason | src/producer/multi.rs:207-224 | Whatever the others do during the reading of the rear, a refused claim did not fit behind some watched cursor when the reading began; otherwise the cached limit becomes one ring ahead of a value some watched cursor has had since. |
| Producing.LimitSparesReading | src/producer/multi.rs:201-207 | Within the cached limit, a claim takes three undisturbed steps and looks at no consumer. |
| Producing.PublishesByTheWord | src/producer/multi.rs:369-392 | Every xor of a publication takes all that is left of the claim, or gets to the end of a word of the bitmap. |
| Contention.FailedClaimIsAnothersSuccess | src/producer/multi.rs:226-236 | When a compare-and-exchange fails, another producer has claimed at least one sequence since the expected value was read. |
| Drain.ShutdownIsUnderway | src/producer/multi.rs:151-165 | Between the last drop and the store of the shutdown sequence, its producer can always go on. |
| Waiting.NoLostWakeup | src/wait_strategies.rs:286-311 | Both strategies: if the wait of a waiter that is parked, or past its failed locked check, is over, some notifier is bound to notify; with spurious wakeups, a wrapping epoch and cells that move backwards. |
| Waiting.ParkedIsAnnounced | src/wait_strategies.rs:353-366 | Lite strategy: while anybody is parked, `signal_needed` is set or some notifier has taken it and not yet notified. |
| Waiting.BeginWakeKeeps | src/wait_strategies.rs:353-366 | A notifier that finds the flag cleared may leave: another one carries the signal. |
| Waiting.BroadcastKeeps | src/wait_strategies.rs:260-266 | Notifying under the mutex leaves nobody between a failed check and parking. |
| Waiting.StepKeeps | src/wait_strategies.rs:386-413 | Every step of waiters and notifiers keeps the wakeup invariant. |
| Wakeup.EveryRunReturns | src/wait_strategies.rs:386-413 | Both strategies: from every reachable state, however the threads carry on with what they have begun, with no new store, they have a bounded number of steps left, and when nothing is left a waiter whose wait is over has returned. |
| Wakeup.CarryingOnIsBounded | src/wait_strategies.rs:286-311 | In any run at all, the steps that carry on are bounded by what there was to do and how much was begun. |
| Wakeup.QuiescentHasReturned | src/wait_strategies.rs:353-366 | When nobody has anything to carry on, every waiter has returned or is parked with its wait not over. |
| Reasons.WaitReturnsWithReason | src/wait_strategies.rs:18-34 | From a call of `wait_for` to its return, whatever everybody does: every watched cell has been at least what was asked for at some time, or the shutdown sequence has been it at some time. |
| Reasons.NotDueStays | src/wait_strategies.rs:286-311 | With no new store, a waiter whose wait is not over does not return. |
| Reasons.ReturnsExactlyWhenDue | src/wait_strategies.rs:386-413 | When everybody has carried on to the end without a new store, a waiter has returned if and only if its wait was over, and is parked otherwise. |
| Reasons.SpinsBeforeBlocking | src/wait_strategies.rs:293-301 | Whether its call has just begun or it has been woken, a waiter asks for the mutex only after one check and as many more as its spin tries. |
| Reasons.LeavesOnlyForAWake | src/wait_strategies.rs:302-308 | Woken, a waiter leaves the mutex if and only if wakes have come since it took it, unless exactly as many as the epoch has values: a spurious wakeup alone never makes it leave. |
| Reasons.NobodyWokenInVain | src/wait_strategies.rs:353-366 | With the lite strategy, as long as no waiter has announced itself, no notifier takes the mutex. |
| Wakeup.CarryOnToTheEnd | src/wait_strategies.rs:286-311 | From every state the threads can carry on until nothing is left, so that the runs spoken of exist. |
| Composition.ParkedInPeaceHasNothing | src/wait_strategies.rs:286-311 | In the composed machine, a consumer parked while no wake is on its way can read nothing and is not to stop. |
| Composition.NobodyParkedWhenDrained | src/wait_strategies.rs:18-34 | A drained disruptor has no consumer parked with no wake on its way. |
| Composition.EveryBlockingRunDrains | src/consumer.rs:119-152 | With consumers that really block: in every interleaving, after more rounds than events left, each letting every consumer not yet stopped take a turn or come to rest in its wait, every consumer has everything, has been told to stop, and none is left asleep. |
| Composition.BlockingRoundsExist | src/wait_strategies.rs:260-266 | As many such rounds as one likes can be had. |
| Sequences.GatedSequence.Set | src/sequence.rs:87-90 | The gate takes the value, and the wake comes after the store. |
| Sequences.GatedSequence.CompareAndSet | src/sequence.rs:93-99 | The gate moves exactly on a match, and only then wakes, after the store. |
| Wiring.LastStageIsSlowest | src/builder/single.rs:334-391 | In any stage graph whose consumers are at most as far as those they wait for, the last stage is the slowest. |
| Builders.Builder.NewGates | src/builder/multi.rs:71-87 | New gates are numbered after all earlier ones. |
| Builders.Builder.AddConsumer | src/builder.rs:184-205 | A handler or poller added waits for the current dependent barrier and joins the stage under construction. |
| Builders.Builder.AndThen | src/builder/multi.rs:227-238 | The next stage waits for exactly the cursors of the stage just built. |
| Builders.Builder.AndThenWithDependents | src/builder/multi.rs:327-349 | The next stage waits for exactly the cursors of the stage just built and the given gates. |
| Builders.Builder.Build | src/builder/multi.rs:352-363 | What is built is layered, the producers watch exactly the last stage, and it is a valid configuration of the protocol, to which every theorem applies. |
| Bits.MaskIsRemainder | src/ringbuffer.rs:42-48 | Masking with a power of two minus one is the remainder, for every power of two. |
| Bits.ShrIsQuotient | src/producer/multi.rs:357-360 | Shifting right is division by a power of two. |
| Bits.LogIsFloor | src/producer/multi.rs:327-329 | Width minus leading zeros minus one is the logarithm of any positive number, rounded down. |
| Availability.ChunkReads | src/producer/multi.rs:369-392 | Within a ring of it, an xor changes how exactly the sequences it covers read. |
| Availability.ChunkIsSinglePublishes | src/producer/multi.rs:395-402 | One xor of several bits, up to a full word, is that many single publications. |
| Availability.RangePublishesPrefixes | src/producer/multi.rs:369-392 | Stopped between any two xors, `publish_range_relaxed` has published exactly a prefix, for every start, length and size, including ring wrap; and it finishes. |
| Availability.ScanStopsAtFirstMismatch | src/producer/multi.rs:415-432 | The masked trailing-zeros scan finds the first bit from `start` that differs from the expected parity, or none. |
| Availability.ScanStaysInRing | src/producer/multi.rs:407-446 | A scan from the next unread sequence never gets past one ring. |
| Availability.ShowsWithChunk | src/producer/multi.rs:369-392 | Flipping the bits of any unpublished sequences of a ring adds exactly them to what the bitmap shows, in whatever order the ring is published. |
| Availability.NextRound | src/producer/multi.rs:282-296 | Sequences one ring apart share a slot and differ in parity. |
| Availability.ConsumedSequenceMisread | src/barrier.rs:8-13 | In a ring of 64 with 0 to 64 published, a scan from 0 finds nothing. |
| MultiProducerBarriers.MultiProducerBarrier.constructor | src/producer/multi.rs:299-325 | For every power of two from 64 up, the all-ones bitmap shows nothing from 0 on as published, with consistent mask and shift. |
| MultiProducerBarriers.MultiProducerBarrier.AvailabilityIndices | src/producer/multi.rs:343-348 | Shift and mask find the word and bit of the sequence's slot. |
| MultiProducerBarriers.MultiProducerBarrier.AvailabilityFlag | src/producer/multi.rs:357-360 | The flag is the parity of the sequence's round. |
| MultiProducerBarriers.MultiProducerBarrier.Publish | src/producer/multi.rs:395-402 | Publishing adds exactly its sequence to what the bitmap shows. |
| MultiProducerBarriers.MultiProducerBarrier.PublishRangeRelaxed | src/producer/multi.rs:369-392 | Alone, the loop leaves the bitmap of n single publications, for every start and n, also n <= 0; with others publishing between its xors, in any order and whatever they have yet to publish, the whole claim is published, nothing is taken back and the bitmap stays exact. |
| MultiProducerBarriers.MultiProducerBarrier.GetAfter | src/producer/multi.rs:407-446 | With each word loaded at another time while others publish, the result is at least the frontier at the start, at most the frontier at the end, less than a ring ahead; and the loop ends. |
| RingBuffers.RingBuffer.SlotIndex | src/ringbuffer.rs:42-48 | The masked index is the remainder and within the ring. |
| RingBuffers.RingBuffer.AvailableCapacity | src/ringbuffer.rs:51-58 | Claiming all that is free ends one ring after the slowest consumer. |
| RingBuffers.CursorGroup.MinCursorSequence | src/consumer.rs:55-66 | Loaded while cursors advance, the minimum lies between the true minimum at the start and at the end; none gives the largest integer. |
| SingleProducers.MutBatchIter.Next | src/producer.rs:62-72 | Each call updates the slot of the next sequence of the batch and no other, until none is left. |
| SingleProducers.WriteBatch | src/producer.rs:40-72 | Iterating a batch to its end stores each event in its sequence's slot and keeps the rest of the last ring. |
| SingleProducers.SingleProducer.NextSequences | src/producer/single.rs:118-142 | A claim granted fits behind every watched cursor; a refusal reports a shortage between the true ones at the check's end and start; within the cached limit no cursor is looked at, else the limit becomes what the slowest allows. |
| SingleProducers.SingleProducer.ApplyUpdates | src/producer/single.rs:166-183 | The log grows by exactly the batch, the ring holds the last capacity entries, and when the cursor is stored everything has been written; the wake comes after the store. |
| SingleProducers.SingleProducer.TryBatchPublish | src/producer/single.rs:66-75 | Publishes everything and wakes, or changes no slot and no log, does not wake, and reports a shortage between the true ones at the check's end and start; always refuses more than the capacity and always accepts what was free. |
| SingleProducers.SingleProducer.Drop | src/producer/single.rs:192-198 | The shutdown sequence is the number of events published, and the wake comes after its store. |
| Sequences.Cursor.CompareExchange | src/cursor.rs:18-21 | Moves the cursor exactly when it still has the expected value and returns what it saw. |
| MultiProducers.MultiProducer.Clone | src/producer/multi.rs:113-143 | A clone's limit of zero is safe at any time, and the clone is counted. |
| MultiProducers.MultiProducer.Drop | src/producer/multi.rs:151-165 | Exactly the last handle to go stores the total as the shutdown sequence, and then wakes. |
| MultiProducers.MultiProducer.CheckCapacity | src/producer/multi.rs:207-224 | The limit is raised to what the slowest watched cursor allows, as it was at some time during the reading; the shortage is never more than when the reading began. |
| MultiProducers.MultiProducer.NextSequences | src/producer/multi.rs:201-240 | Over retries and interference exactly n of the cursor's movement is this producer's; a claim fits the ring and every watched cursor; a refusal never overstates the shortage; more than the capacity is never claimed. |
| MultiProducers.MultiProducer.ApplyUpdates | src/producer/multi.rs:262-278 | The batch is in its slots and the rest of the ring is kept; alone, the bitmap is that of single publications; with others publishing between the xors, in any order and whatever they have yet to publish, all of the batch is published; the first xor comes after the last write, and the wake after the last xor. |
| Consumers.RunProcessorLoop | src/consumer.rs:130-151 | Whatever the waiter answers and the ring holds, the handler gets exactly 0 to the highest offer before shutdown, each with the event in its slot; each offer ends with a store of the highest so far and a wake; `end_of_batch` marks exactly the stored sequences. |
| Consumers.EventPoller.PollTake | src/consumer/event_poller.rs:256-278 | Exactly when shutdown, no events or a guard result, and the guard ends at the lesser of offer and limit although the addition saturates. |
| Consumers.EventPoller.PollWait | src/consumer/event_poller.rs:288-309 | The outcome decides shutdown, no events or a guard over all that was offered. |
| Consumers.EventGuard.Len | src/consumer/event_poller.rs:103-109 | The length of the sequence of what is still to be yielded. |
| Consumers.EventGuard.Next | src/consumer/event_poller.rs:125-136 | Yields the first of what is left, with the event in its slot, and leaves the rest; nothing exactly when nothing is left. |
| Consumers.EventGuard.Drop | src/consumer/event_poller.rs:147-154 | Releases everything up to the guard's end, and then wakes. |
| Consumers.DrivePoller | src/consumer/event_poller.rs:256-309 | For any mixture of polls, limits and waits, and whatever the ring holds at each of them, with guards iterated and dropped: what is yielded is the interval up to the cursor, without gap or repeat, each sequence with the event its slot holds at the time. |
| Consumers.CursorStaysWithinOffers | src/consumer/event_poller.rs:256-278 | The poller's cursor never passes what was offered, never moves back, and limits of zero leave it alone. |

## Left out

- Memory orderings and fences: runs are sequentially consistent interleavings of single shared accesses. In particular the lite strategy's pairing of a relaxed or release store with a later swap of `signal_needed` is claimed only for that model.
- Sequence numbers beyond 2^63 - 1, the conversion of a huge `usize` batch to `i64`, and the abort on an overflowing reference count: sequences are unbounded integers. The epoch does wrap, and the poller's saturating addition is modelled.
- Closures and handlers that panic, guards or handles that are forgotten, and user-written barriers and waiters. An update writes some value to a claimed slot; a handler reads one.
- Payloads: an event is an integer.
- Threads: spawning, joining in the last drop, names and core affinity; cache-line padding.
- `parking_lot` itself: `wait` releases the mutex and parks in one step, `notify_all` unparks everybody parked, and spurious wakeups happen.
- `wait_for` and `wake` as methods: they are step machines in `Waiting`, since everything about them is interleaving. In `Waiting` the multi-producer frontier is one cell; that the first word loaded already decides is `Safety.FirstLoadDecides`.
- The busy-spin and yielding strategies beyond the check they share, and the timeout outcome, which no strategy of the library produces.
- The builders' type-state parameters and handler plumbing; of the wiring, single- and multi-producer builders are one `Builder`. A gate is named by a number.
- Infinite runs: `Fairness.EveryFairRunDrains`, `Composition.EveryBlockingRunDrains` and `Wakeup.EveryRunReturns` are about all finite runs that are long enough, in rounds or in steps.
- In `Composition` a consumer that returns from its wait asks its barrier once more before it acts, instead of acting on the value the wait has read.
- Drain.DrainCompletes: shows that completing the drain is possible; that it happens is `EveryRun.EveryRunDrains`, which assumes what the source leaves to its user: gates that have reached the total, and pollers that keep polling.
- MultiProducers.MultiProducer.NextSequences: its loop ends because other threads disturb it finitely often (`disturbances`), as in every finite run; the source's loop has no bound of its own. That each failure is another producer's success is `Contention.FailedClaimIsAnothersSuccess`.
- MultiProducers.MultiProducer.ApplyUpdates: others publish between its xors, but the writes of others to slots of their own claims are left to `Safety.OnlyTheClaimerWrites`.
- Gates handed to another builder than the one that created them.
- Benchmarks, examples and the TLA+ modules themselves.
