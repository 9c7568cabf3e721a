/** A multi-producer handle: its claim, as the loop of the source, with other producers and the
    consumers running between any two of its accesses to shared memory, and its publication. */
module MultiProducers {
  import opened Availability
  import opened MultiProducerBarriers
  import opened RingBuffers
  import opened Sequences
  import opened SingleProducers

  /** What all handles share besides the cursor: how many of them there are, and the sequence at which
      consumers are to stop. */
  class SharedProducer {
    var refCount: int
    var shutdownAtSequence: int

    constructor ()
      ensures refCount == 0 && shutdownAtSequence == -1
    {
      refCount := 0;
      shutdownAtSequence := -1;
    }
  }

  class MultiProducer {
    const capacity: nat
    const cursor: Cursor
    const rear: CursorGroup
    const shared: SharedProducer
    const notifier: Notifier
    var claimedSequence: int
    /** What the ring held when this handle last began to publish (specification only). */
    ghost var slotsWhenPublished: seq<Event>
    var sequenceClearOfConsumers: int
    /** A bound on the steps the other threads still take (specification only). */
    ghost var disturbances: nat

    ghost predicate Valid()
      reads this, cursor, rear.cursors
    {
      && capacity > 0 && rear.cursors.Length > 0
      && forall t :: 0 <= t < rear.cursors.Length ==>
           && -1 <= rear.cursors[t] <= cursor.value <= rear.cursors[t] + capacity
           && sequenceClearOfConsumers <= rear.cursors[t] + capacity
    }

    /** The first handle knows the ring to be free. */
    constructor (capacity: nat, cursor: Cursor, rear: CursorGroup, shared: SharedProducer, notifier: Notifier,
                 ghost disturbances: nat)
      requires capacity > 0 && rear.cursors.Length > 0 && cursor.value == -1
      requires forall t :: 0 <= t < rear.cursors.Length ==> rear.cursors[t] == -1
      modifies shared`refCount
      ensures Valid() && sequenceClearOfConsumers == capacity - 1 && shared.refCount == 1
      ensures this.capacity == capacity && this.cursor == cursor && this.rear == rear
      ensures this.shared == shared && this.notifier == notifier
    {
      this.capacity := capacity;
      this.cursor := cursor;
      this.rear := rear;
      this.shared := shared;
      this.notifier := notifier;
      this.disturbances := disturbances;
      claimedSequence := -1;
      slotsWhenPublished := [];
      sequenceClearOfConsumers := capacity - 1;
      new;
      shared.refCount := 1;
    }

    /** A cloned handle starts with a limit of zero, whatever the others have done, and is counted. */
    constructor Clone(other: MultiProducer)
      requires other.Valid()
      modifies other.shared`refCount
      ensures Valid() && sequenceClearOfConsumers == 0 && claimedSequence == -1
      ensures capacity == other.capacity && cursor == other.cursor && rear == other.rear
      ensures shared == other.shared && notifier == other.notifier
      ensures shared.refCount == old(other.shared.refCount) + 1
    {
      capacity := other.capacity;
      cursor := other.cursor;
      rear := other.rear;
      shared := other.shared;
      notifier := other.notifier;
      disturbances := other.disturbances;
      claimedSequence := -1;
      slotsWhenPublished := [];
      sequenceClearOfConsumers := 0;
      new;
      shared.refCount := shared.refCount + 1;
    }

    /** The last handle to go, and no other, makes the total the shutdown sequence, and then wakes. */
    method Drop()
      modifies shared, notifier
      ensures shared.refCount == old(shared.refCount) - 1
      ensures shared.shutdownAtSequence
           == if shared.refCount == 0 then cursor.value + 1 else old(shared.shutdownAtSequence)
      ensures notifier.announced
           == old(notifier.announced) + if shared.refCount == 0 then [shared.shutdownAtSequence] else []
    {
      var oldCount := shared.refCount;
      shared.refCount := oldCount - 1;
      if oldCount == 1 {
        shared.shutdownAtSequence := cursor.value + 1;
        notifier.Wake(shared.shutdownAtSequence);
      }
    }

    /** The number of slots missing for `n` claims in a given situation. */
    static function Shortage(capacity: nat, n: nat, at: int, cursors: seq<int>): int
      requires |cursors| > 0
    {
      n - (capacity - (at - MinOf(cursors)))
    }

    /** What others may do between two accesses: claim within the ring, and consume. */
    method Interfere()
      requires Valid()
      modifies this`disturbances, cursor, rear.cursors
      ensures Valid() && cursor.value >= old(cursor.value) && Forward(old(rear.cursors[..]), rear.cursors[..])
      ensures cursor.value - cursor.others == old(cursor.value - cursor.others)
      ensures disturbances <= old(disturbances)
      ensures disturbances == old(disturbances) ==> cursor.value == old(cursor.value)
    {
    }

    method ReadRear() returns (least: int)
      requires Valid()
      modifies this`disturbances, cursor, rear.cursors
      ensures Valid() && cursor.value >= old(cursor.value) && Forward(old(rear.cursors[..]), rear.cursors[..])
      ensures cursor.value - cursor.others == old(cursor.value - cursor.others)
      ensures disturbances <= old(disturbances)
      ensures disturbances == old(disturbances) ==> cursor.value == old(cursor.value)
      ensures MinOf(old(rear.cursors[..])) <= least <= MinOf(rear.cursors[..])
    {
      Interfere();
      least := rear.cursors[0];
      var k := 1;
      while k < rear.cursors.Length
        invariant 1 <= k <= rear.cursors.Length
        invariant Valid() && cursor.value >= old(cursor.value) && Forward(old(rear.cursors[..]), rear.cursors[..])
        invariant cursor.value - cursor.others == old(cursor.value - cursor.others)
        invariant disturbances <= old(disturbances)
        invariant disturbances == old(disturbances) ==> cursor.value == old(cursor.value)
        invariant MinOf(old(rear.cursors[..])) <= least
        invariant forall i :: 0 <= i < k ==> least <= rear.cursors[i]
        decreases rear.cursors.Length - k
      {
        ghost var before := rear.cursors[..];
        Interfere();
        assert forall i :: 0 <= i < rear.cursors.Length ==> before[i] <= rear.cursors[..][i];
        assert MinOf(old(rear.cursors[..])) <= old(rear.cursors[..])[k] <= rear.cursors[..][k];
        least := Min(least, rear.cursors[k]);
        k := k + 1;
      }
    }

    /** Read the rear cursors; either `n` claims fit after `current`, and the limit is raised, or some
        slots are missing: no more than really were when the reading began. */
    method CheckCapacity(current: int, n: nat) returns (missing: int, ghost beganAt: int, ghost beganRear: seq<int>)
      requires Valid() && current <= cursor.value
      modifies this`sequenceClearOfConsumers, this`disturbances, cursor, rear.cursors
      ensures Valid() && cursor.value >= old(cursor.value) && Forward(old(rear.cursors[..]), rear.cursors[..])
      ensures cursor.value - cursor.others == old(cursor.value - cursor.others)
      ensures disturbances <= old(disturbances)
      ensures disturbances == old(disturbances) ==> cursor.value == old(cursor.value)
      ensures beganAt == old(cursor.value) && beganRear == old(rear.cursors[..])
      ensures Shortage(capacity, n, current, rear.cursors[..]) <= missing <= Shortage(capacity, n, current, beganRear)
      ensures if missing > 0 then missing <= Shortage(capacity, n, beganAt, beganRear)
              else
                && current + n <= sequenceClearOfConsumers
                && MinOf(beganRear) + capacity <= sequenceClearOfConsumers <= MinOf(rear.cursors[..]) + capacity
    {
      beganAt, beganRear := cursor.value, rear.cursors[..];
      var rearSequenceRead := ReadRear();
      var availableCapacity := FreeAfter(capacity, current, rearSequenceRead);
      missing := n - availableCapacity;
      if missing <= 0 {
        sequenceClearOfConsumers := current + availableCapacity;
      }
    }

    /** Claim `n` sequences. Granted, the claim is `]sequence - n; sequence]`, taken from the end of
        everybody's claims, never larger than the ring, and behind every watched cursor; of all the
        cursor's movement exactly `n` is this producer's, however often it retried. Refused, the
        number reported missing is positive, no more than the true shortage when the reading of the rear
        cursors began, and exact if nobody else moves. */
    method NextSequences(n: nat) returns (r: Claim, ghost beganAt: int, ghost beganRear: seq<int>)
      requires Valid()
      modifies this, cursor, rear.cursors
      ensures Valid() && Forward(old(rear.cursors[..]), rear.cursors[..])
      ensures cursor.value - cursor.others == old(cursor.value - cursor.others) + if r.Claimed? then n else 0
      ensures r.Claimed? ==>
                && r.sequence == cursor.value == claimedSequence && r.sequence - n >= old(cursor.value)
                && n <= capacity && r.sequence <= sequenceClearOfConsumers
                && forall t :: 0 <= t < rear.cursors.Length ==> r.sequence <= rear.cursors[t] + capacity
      ensures r.MissingFreeSlots? ==>
                && claimedSequence == old(claimedSequence)
                && old(cursor.value) <= beganAt <= cursor.value
                && Forward(old(rear.cursors[..]), beganRear) && Forward(beganRear, rear.cursors[..])
                && 0 < r.missing <= Shortage(capacity, n, beganAt, beganRear)
                && r.missing >= Shortage(capacity, n, old(cursor.value), rear.cursors[..])
      ensures n > capacity ==> r.MissingFreeSlots?
    {
      beganAt, beganRear := cursor.value, rear.cursors[..];
      Interfere();
      var current := cursor.value;
      var nNext := current + n;
      while true
        invariant Valid() && Forward(old(rear.cursors[..]), rear.cursors[..])
        invariant claimedSequence == old(claimedSequence)
        invariant cursor.value - cursor.others == old(cursor.value - cursor.others)
        invariant old(cursor.value) <= current <= cursor.value && nNext == current + n
        decreases disturbances, if current == cursor.value then 0 else 1
      {
        if sequenceClearOfConsumers < nNext {
          var missing;
          missing, beganAt, beganRear := CheckCapacity(current, n);
          if missing > 0 {
            return MissingFreeSlots(missing), beganAt, beganRear;
          }
        }
        Interfere();
        assert rear.cursors[0] <= cursor.value;
        var ok, seen := cursor.CompareExchange(current, nNext);
        if ok {
          claimedSequence := nNext;
          return Claimed(nNext), beganAt, beganRear;
        }
        current := seen;
        nNext := current + n;
      }
    }

    /** Write the claimed batch in place, publish it and then wake: before any of it is published its slots
        hold its events and the rest of the ring before it is untouched. Alone, the producer leaves the
        bitmap of publishing its sequences one by one; in company, whoever has claimed earlier and not yet
        published, all of the batch is published and nothing is taken back. */
    method ApplyUpdates(ring: RingBuffer, barrier: MultiProducerBarrier, events: seq<Event>,
                        ghost company: Company, ghost next: int)
      returns (upper: int, ghost next': int)
      requires ring.Valid() && barrier.Valid() && barrier.Size() == ring.slots.Length == capacity
      requires claimedSequence - |events| + 1 >= 0
      requires company.Sharing? ==> barrier.MayPublish(next, claimedSequence - |events| + 1, claimedSequence + 1)
      modifies this`slotsWhenPublished, ring.slots, barrier.available, barrier`published, notifier
      ensures upper == claimedSequence
      ensures forall q :: 0 <= q <= upper && q > upper - capacity ==>
                ring.slots[q % capacity] == if q > upper - |events| then events[q - (upper - |events| + 1)]
                                            else old(ring.slots[q % capacity])
      ensures barrier.Valid()
      ensures company.Alone? ==>
                barrier.available[..] == SinglePublishes(old(barrier.available[..]), capacity, upper - |events| + 1, |events|)
      ensures company.Sharing? ==> barrier.Encodes(next') && next <= next' && old(barrier.published) <= barrier.published
      ensures company.Sharing? ==> forall q :: upper - |events| < q <= upper ==> q in barrier.published
      ensures notifier.announced == old(notifier.announced) + [upper] && notifier.bitmap == barrier.available[..]
      ensures slotsWhenPublished == ring.slots[..]
    {
      var n := |events|;
      upper := claimedSequence;
      var lower := upper - n + 1;
      WriteBatch(ring, lower, events);
      slotsWhenPublished := ring.slots[..];
      next' := barrier.PublishRangeRelaxed(lower, n, company, next);
      notifier.WakeForBitmap(upper, barrier.available[..]);
    }
  }
}
