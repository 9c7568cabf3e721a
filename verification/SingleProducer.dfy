/** The single producer: claims by a local counter, writes in place, publishes by storing a cursor. */
module SingleProducers {
  import opened Bits
  import opened RingBuffers
  import opened Sequences

  /** The upper sequence, or the number of slots that were missing. */
  datatype Claim = Claimed(sequence: int) | MissingFreeSlots(missing: int)

  /** Yields the slots of a batch one after another, each once. */
  class MutBatchIter {
    const ring: RingBuffer
    var current: int
    const last: int

    constructor (ring: RingBuffer, start: int, end: int)
      ensures this.ring == ring && current == start && last == end
    {
      this.ring := ring;
      current := start;
      last := end;
    }

    function Remaining(): (n: nat)
      reads this
      ensures n == |Interval(current, last)|
    {
      if current > last then 0 else last - current + 1
    }

    /** Update the next slot of the batch, if there is one left. */
    method Next(event: Event) returns (more: bool)
      requires ring.Valid() && current >= 0
      modifies this, ring.slots
      ensures more == (old(Remaining()) > 0)
      ensures Remaining() == if more then old(Remaining()) - 1 else old(Remaining())
      ensures current == if more then old(current) + 1 else old(current)
      ensures ring.slots[..] == if more then old(ring.slots[..])[old(current) % ring.slots.Length := event]
                                else old(ring.slots[..])
    {
      more := current <= last;
      if more {
        ring.slots[ring.SlotIndex(current)] := event;
        current := current + 1;
      }
    }
  }

  /** Update every slot of the batch that starts at `lower`: the last ring of sequences up to its end
      then holds its events, and before them what it held. */
  method WriteBatch(ring: RingBuffer, lower: int, events: seq<Event>)
    requires ring.Valid() && lower >= 0
    modifies ring.slots
    ensures forall q :: 0 <= q < lower + |events| && q >= lower + |events| - ring.slots.Length ==>
              ring.slots[q % ring.slots.Length] == if q >= lower then events[q - lower] else old(ring.slots[q % ring.slots.Length])
  {
    var n := |events|;
    var iter := new MutBatchIter(ring, lower, lower + n - 1);
    ghost var k := 0;
    while iter.Remaining() > 0
      invariant 0 <= k <= n && iter.ring == ring && iter.last == lower + n - 1 && iter.current == lower + k
      invariant forall q :: 0 <= q < lower + k && q >= lower + n - ring.slots.Length ==>
                  ring.slots[q % ring.slots.Length] == if q >= lower then events[q - lower] else old(ring.slots[q % ring.slots.Length])
      modifies iter, ring.slots
      decreases iter.Remaining()
    {
      ghost var before := ring.slots[..];
      var _ := iter.Next(events[iter.current - lower]);
      forall q | 0 <= q < lower + k && q >= lower + n - ring.slots.Length
        ensures ring.slots[q % ring.slots.Length] == before[q % ring.slots.Length]
      {
        DistinctSlots(ring.slots.Length, q, lower + k);
        assert ring.slots[..][q % ring.slots.Length] == before[q % ring.slots.Length];
      }
      assert ring.slots[..][(lower + k) % ring.slots.Length] == events[k];
      k := k + 1;
    }
  }

  class SingleProducer {
    const ring: RingBuffer
    /** The cursors of the last stage. */
    const rear: CursorGroup
    const notifier: Notifier
    /** The cursor consumers of the first stage read. */
    var cursor: int
    /** Next sequence to be published. */
    var sequence: int
    var sequenceClearOfConsumers: int
    var shutdownAtSequence: int
    /** Every event published so far (specification only). */
    ghost var log: seq<Event>
    /** What the ring held when the cursor was last stored (specification only). */
    ghost var slotsWhenPublished: seq<Event>

    ghost predicate Valid()
      reads this, rear.cursors, ring.slots
    {
      && ring.Valid() && rear.cursors != ring.slots && rear.cursors.Length > 0
      && sequence == |log| && cursor == sequence - 1
      && (forall t :: 0 <= t < rear.cursors.Length ==>
            && rear.cursors[t] <= cursor <= rear.cursors[t] + ring.Capacity()
            && sequenceClearOfConsumers <= rear.cursors[t] + ring.Capacity())
      && (forall q :: 0 <= q < sequence && q >= sequence - ring.Capacity() ==>
            ring.slots[q % ring.slots.Length] == log[q])
    }

    constructor (size: nat, initial: Event, consumers: nat, notifier: Notifier)
      requires PowerOfTwo(size) && consumers > 0
      ensures this.notifier == notifier
      ensures Valid() && log == [] && sequence == 0 && shutdownAtSequence == -1
      ensures fresh(ring.slots) && fresh(rear.cursors) && ring.Capacity() == size
    {
      var r := new RingBuffer(size, initial);
      var g := new CursorGroup(consumers);
      ring := r;
      rear := g;
      this.notifier := notifier;
      cursor := -1;
      sequence := 0;
      sequenceClearOfConsumers := size - 1;
      shutdownAtSequence := -1;
      log := [];
    }

    /** How many slots are free when the watched cursors are `cursors`. */
    function Free(cursors: seq<int>): int
      requires |cursors| > 0
      reads this
    {
      ring.Capacity() - (sequence - 1 - MinOf(cursors))
    }

    /** Claim `n` sequences: granted within the cached limit without a look at any cursor; else granted only if they fit behind every watched cursor, and refused only if
        they did not fit when the check began; the number reported missing lies between the true
        shortage at the end and at the beginning of the check, hence is exact if no cursor moved. */
    method NextSequences(n: nat) returns (r: Claim)
      requires Valid()
      modifies this`sequenceClearOfConsumers, rear.cursors
      ensures Valid() && Forward(old(rear.cursors[..]), rear.cursors[..])
      ensures r.Claimed? ==>
                && r.sequence == sequence - 1 + n && n <= ring.Capacity()
                && forall t :: 0 <= t < rear.cursors.Length ==> r.sequence <= rear.cursors[t] + ring.Capacity()
      ensures r.MissingFreeSlots? ==>
                && r.missing > 0
                && n - Free(rear.cursors[..]) <= r.missing <= n - Free(old(rear.cursors[..]))
      ensures if old(sequenceClearOfConsumers) >= sequence - 1 + n then
                r.Claimed? && rear.cursors[..] == old(rear.cursors[..]) && sequenceClearOfConsumers == old(sequenceClearOfConsumers)
              else
                r.Claimed? ==> sequenceClearOfConsumers >= MinOf(old(rear.cursors[..])) + ring.Capacity()
    {
      var nNext := sequence - 1 + n;
      if sequenceClearOfConsumers < nNext {
        var lastPublished := sequence - 1;
        var rearSequenceRead := rear.MinCursorSequence(cursor);
        var availableCapacity := ring.AvailableCapacity(lastPublished, rearSequenceRead);
        if availableCapacity < n {
          return MissingFreeSlots(n - availableCapacity);
        }
        sequenceClearOfConsumers := lastPublished + availableCapacity;
      }
      assert rear.cursors[0] <= cursor;
      return Claimed(nNext);
    }

    /** The store of the cursor that consumers read. */
    method PublishCursor(upper: int)
      modifies this`cursor, this`slotsWhenPublished
      ensures cursor == upper && slotsWhenPublished == ring.slots[..]
    {
      cursor := upper;
      slotsWhenPublished := ring.slots[..];
    }

    /** Write the claimed batch in place, publish it and then wake: the log grows by exactly its events. */
    method ApplyUpdates(events: seq<Event>) returns (upper: int)
      requires Valid() && |events| <= ring.Capacity()
      requires forall t :: 0 <= t < rear.cursors.Length ==> sequence - 1 + |events| <= rear.cursors[t] + ring.Capacity()
      modifies this`cursor, this`sequence, this`log, this`slotsWhenPublished, ring.slots, notifier
      ensures Valid() && log == old(log) + events
      ensures notifier.announced == old(notifier.announced) + [cursor] && slotsWhenPublished == ring.slots[..]
      ensures upper == old(sequence) + |events| - 1 == cursor
    {
      var n := |events|;
      var lower := sequence;
      upper := lower + n - 1;
      WriteBatch(ring, lower, events);
      PublishCursor(upper);
      notifier.Wake(cursor);
      sequence := sequence + n;
      log := log + events;
    }

    /** Publish a batch, or report how many slots are missing, which is exact if no cursor moved, and change
        nothing. */
    method TryBatchPublish(events: seq<Event>) returns (r: Claim)
      requires Valid()
      modifies this`cursor, this`sequence, this`sequenceClearOfConsumers, this`log, this`slotsWhenPublished, ring.slots, rear.cursors, notifier
      ensures Valid() && Forward(old(rear.cursors[..]), rear.cursors[..])
      ensures r.Claimed? ==> log == old(log) + events && r.sequence == |log| - 1 && |events| <= ring.Capacity()
      ensures r.MissingFreeSlots? ==> log == old(log) && ring.slots[..] == old(ring.slots[..])
      ensures r.MissingFreeSlots? ==>
                && r.missing > 0
                && |events| - Free(rear.cursors[..]) <= r.missing <= |events| - old(Free(rear.cursors[..]))
      ensures notifier.announced == old(notifier.announced) + if r.Claimed? then [cursor] else []
      ensures |events| > ring.Capacity() ==> r.MissingFreeSlots?
      ensures |events| <= old(Free(rear.cursors[..])) ==> r.Claimed?
    {
      r := NextSequences(|events|);
      if r.MissingFreeSlots? {
        return;
      }
      var upper := ApplyUpdates(events);
      r := Claimed(upper);
    }

    /** Dropping the producer makes the total number of events the shutdown sequence, and then wakes. */
    method Drop()
      requires Valid()
      modifies this`shutdownAtSequence, notifier
      ensures Valid() && shutdownAtSequence == |log|
      ensures notifier.announced == old(notifier.announced) + [|log|]
    {
      shutdownAtSequence := sequence;
      notifier.Wake(shutdownAtSequence);
    }
  }
}
