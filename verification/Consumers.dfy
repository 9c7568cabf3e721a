/** The two ways of consuming, as the loops and objects of the source: a processor with its own
    thread, and a poller driven by its caller. What a waiter, a barrier or the shutdown variable
    answers, and what the ring holds when a processor acts on an answer, is an input, so every
    statement is about all of them. */
module Consumers {
  import opened Bits
  import opened RingBuffers
  import opened Sequences

  datatype WaitOutcome = Available(upper: int) | Shutdown | Timeout

  // --- processors -----------------------------------------------------------------------------------

  /** What the slots of a ring hold. */
  type Slots = s: seq<Event> | |s| > 0 witness [0]

  /** What the slot of sequence `i` holds: the ring read round and round. */
  function SlotOf(slots: Slots, i: nat): Event {
    if i < |slots| then slots[i] else SlotOf(slots, i - |slots|)
  }

  lemma {:induction false} SlotIsRemainder(slots: Slots, i: nat)
    ensures SlotOf(slots, i) == slots[i % |slots|]
  {
    if i >= |slots| {
      SlotIsRemainder(slots, i - |slots|);
      DivideUnique(i, |slots|, (i - |slots|) / |slots| + 1, (i - |slots|) % |slots|);
    } else {
      DivideUnique(i, |slots|, 0, i);
    }
  }

  /** The waiter's answer, and what the ring holds while the processor acts on it. */
  datatype Answer = Answer(outcome: WaitOutcome, slots: Slots)

  datatype Offer = Offer(upper: int, slots: Slots)

  datatype HandlerCall = HandlerCall(event: Event, sequence: int, endOfBatch: bool)

  /** What the waiter offered before the first shutdown; timeouts offer nothing. */
  function Offers(answers: seq<Answer>): seq<Offer>
    decreases |answers|
  {
    if answers == [] || answers[0].outcome == Shutdown then []
    else if answers[0].outcome == Timeout then Offers(answers[1..])
    else [Offer(answers[0].outcome.upper, answers[0].slots)] + Offers(answers[1..])
  }

  /** The highest offer, or -1. */
  function Highest(offers: seq<Offer>): (h: int)
    ensures h >= -1 && forall i :: 0 <= i < |offers| ==> offers[i].upper <= h
    ensures h == -1 || exists i :: 0 <= i < |offers| && offers[i].upper == h
  {
    if offers == [] then -1
    else
      var most := Highest(offers[..|offers| - 1]);
      var last := offers[|offers| - 1].upper;
      assert forall i :: 0 <= i < |offers| - 1 ==> offers[..|offers| - 1][i] == offers[i];
      if last > most then last else most
  }

  /** The highest offer so far, after each of the offers. */
  function RunningHighest(offers: seq<Offer>): (r: seq<int>)
    ensures |r| == |offers|
  {
    if offers == [] then [] else RunningHighest(offers[..|offers| - 1]) + [Highest(offers)]
  }

  /** What the ring held with the first offer that reached sequence `i`. */
  function SlotsWhenOffered(offers: seq<Offer>, i: nat): Slots
    requires i <= Highest(offers)
  {
    var before := offers[..|offers| - 1];
    if i <= Highest(before) then SlotsWhenOffered(before, i) else offers[|offers| - 1].slots
  }

  /** Is `call` the handler's call for sequence `i`: with what the slot of `i` held when it was offered? */
  ghost predicate Handles(offers: seq<Offer>, call: HandlerCall, i: nat)
    requires i <= Highest(offers)
  {
    call.sequence == i && call.event == SlotOf(SlotsWhenOffered(offers, i), i)
  }

  /** What a processor has done with `offers`: it has called the handler with exactly the sequences
      from 0 to the highest offered, in order, each with the event in its slot; every offer ended with a
      store of the highest so far, also one that offered nothing new; and `endOfBatch` was true exactly
      for the sequences stored. */
  ghost predicate Processed(offers: seq<Offer>, calls: seq<HandlerCall>, stores: seq<int>) {
    && |calls| == Highest(offers) + 1
    && (forall i :: 0 <= i < |calls| ==> Handles(offers, calls[i], i) && (calls[i].endOfBatch <==> i in stores))
    && stores == RunningHighest(offers)
  }

  /** The handler's calls for what one more offer adds, from `sequence` on. */
  function BatchOf(sequence: nat, o: Offer): (r: seq<HandlerCall>)
    ensures IsBatch(r, sequence, o.upper, o.slots)
  {
    seq(|Interval(sequence, o.upper)|, i requires 0 <= i =>
      HandlerCall(SlotOf(o.slots, sequence + i), sequence + i, sequence + i == o.upper))
  }

  function CallsFor(offers: seq<Offer>): (r: seq<HandlerCall>)
    ensures |r| == Highest(offers) + 1
  {
    if offers == [] then []
    else
      var before := CallsFor(offers[..|offers| - 1]);
      before + BatchOf(|before|, offers[|offers| - 1])
  }

  /** Every store is followed by a wake. */
  method RunProcessorLoop(answers: seq<Answer>, notifier: Notifier) returns (calls: seq<HandlerCall>, stores: seq<int>)
    modifies notifier
    ensures Processed(Offers(answers), calls, stores)
    ensures notifier.announced == old(notifier.announced) + stores
  {
    calls, stores := [], [];
    ghost var offers: seq<Offer> := [];
    var sequence := 0;
    var k := 0;
    NothingHasCome(answers);
    while k < |answers|
      invariant 0 <= k <= |answers| && sequence == |calls|
      invariant HasCome(answers, k, offers, calls, stores)
      invariant notifier.announced == old(notifier.announced) + stores
      decreases |answers| - k
    {
      var answer := answers[k];
      match answer.outcome {
        case Shutdown => break;
        case Timeout =>
          TimeoutComes(answers, k, offers, calls, stores);
        case Available(available) =>
          var batch := HandleBatch(sequence, available, answer.slots);
          OfferComes(answers, k, offers, calls, stores, batch);
          AppendOne(old(notifier.announced), stores, |calls + batch| - 1);
          sequence := sequence + |batch|;
          offers := offers + [Offer(available, answer.slots)];
          calls := calls + batch;
          stores := stores + [sequence - 1];
          notifier.Wake(sequence - 1);
      }
      k := k + 1;
    }
    NoMoreComes(answers, k, offers, calls, stores);
  }

  lemma AppendOne(a: seq<int>, b: seq<int>, x: int)
    ensures a + (b + [x]) == a + b + [x]
  {
  }

  /** Up to answer `k`, `offers` have come and have been acted on; the rest is to come. */
  ghost predicate HasCome(answers: seq<Answer>, k: nat, offers: seq<Offer>, calls: seq<HandlerCall>, stores: seq<int>)
    requires k <= |answers|
  {
    && calls == CallsFor(offers) && stores == RunningHighest(offers)
    && offers + Offers(answers[k..]) == Offers(answers)
  }

  lemma NothingHasCome(answers: seq<Answer>)
    ensures HasCome(answers, 0, [], [], [])
  {
    assert answers[0..] == answers;
  }

  lemma TimeoutComes(answers: seq<Answer>, k: nat, offers: seq<Offer>, calls: seq<HandlerCall>, stores: seq<int>)
    requires k < |answers| && answers[k].outcome == Timeout && HasCome(answers, k, offers, calls, stores)
    ensures HasCome(answers, k + 1, offers, calls, stores)
  {
    OffersFrom(offers, answers, k);
  }

  lemma OfferComes(answers: seq<Answer>, k: nat, offers: seq<Offer>, calls: seq<HandlerCall>, stores: seq<int>,
                   batch: seq<HandlerCall>)
    requires k < |answers| && answers[k].outcome.Available? && HasCome(answers, k, offers, calls, stores)
    requires batch == BatchOf(|calls|, Offer(answers[k].outcome.upper, answers[k].slots))
    ensures HasCome(answers, k + 1, offers + [Offer(answers[k].outcome.upper, answers[k].slots)],
                    calls + batch, stores + [|calls + batch| - 1])
  {
    OffersFrom(offers, answers, k);
    OneMoreOffer(offers, Offer(answers[k].outcome.upper, answers[k].slots));
  }

  lemma NoMoreComes(answers: seq<Answer>, k: nat, offers: seq<Offer>, calls: seq<HandlerCall>, stores: seq<int>)
    requires k <= |answers| && HasCome(answers, k, offers, calls, stores)
    requires k == |answers| || answers[k].outcome == Shutdown
    ensures Processed(Offers(answers), calls, stores)
  {
    if k == |answers| {
      assert answers[k..] == [] && offers + [] == offers;
    } else {
      OffersFrom(offers, answers, k);
    }
    AllProcessed(offers);
  }

  /** What the loop does for its offers is what it is to do. */
  lemma {:induction false} AllProcessed(offers: seq<Offer>)
    ensures Processed(offers, CallsFor(offers), RunningHighest(offers))
  {
    if offers != [] {
      var before, last := offers[..|offers| - 1], offers[|offers| - 1];
      AllProcessed(before);
      ProcessedOneMore(before, CallsFor(before), RunningHighest(before), BatchOf(|CallsFor(before)|, last), last);
      assert before + [last] == offers;
    }
  }

  lemma OffersFrom(offers: seq<Offer>, answers: seq<Answer>, k: nat)
    requires k < |answers|
    ensures offers + Offers(answers[k..])
         == match answers[k].outcome
            case Shutdown => offers
            case Timeout => offers + Offers(answers[k + 1..])
            case Available(upper) => offers + [Offer(upper, answers[k].slots)] + Offers(answers[k + 1..])
  {
    assert answers[k..][1..] == answers[k + 1..];
    assert Offers(answers[k..])
        == match answers[k].outcome
           case Shutdown => []
           case Timeout => Offers(answers[k + 1..])
           case Available(upper) => [Offer(upper, answers[k].slots)] + Offers(answers[k + 1..]);
  }

  /** Is `batch` what the handler is called with for `sequence` and on, up to `available`? */
  ghost predicate IsBatch(batch: seq<HandlerCall>, sequence: nat, available: int, slots: Slots) {
    && |batch| == |Interval(sequence, available)|
    && forall i :: 0 <= i < |batch| ==>
         batch[i] == HandlerCall(SlotOf(slots, sequence + i), sequence + i, sequence + i == available)
  }

  /** Handle what is available from `sequence` on. */
  method HandleBatch(sequence: nat, available: int, slots: Slots) returns (calls: seq<HandlerCall>)
    ensures calls == BatchOf(sequence, Offer(available, slots))
  {
    calls := [];
    var next := sequence;
    while available >= next
      invariant next == sequence + |calls|
      invariant calls == [] || next <= available + 1
      invariant forall i :: 0 <= i < |calls| ==>
                  calls[i] == HandlerCall(SlotOf(slots, sequence + i), sequence + i, sequence + i == available)
      decreases available - next
    {
      SlotIsRemainder(slots, next);
      calls := calls + [HandlerCall(slots[next % |slots|], next, next == available)];
      next := next + 1;
    }
  }

  lemma ProcessedOneMore(offers: seq<Offer>, calls: seq<HandlerCall>, stores: seq<int>, batch: seq<HandlerCall>, o: Offer)
    requires Processed(offers, calls, stores) && IsBatch(batch, |calls|, o.upper, o.slots)
    ensures Processed(offers + [o], calls + batch, stores + [|calls + batch| - 1])
  {
    ghost var newCalls, newStores := calls + batch, stores + [|calls + batch| - 1];
    OneMoreOffer(offers, o);
    forall i | 0 <= i < |newCalls|
      ensures Handles(offers + [o], newCalls[i], i) && (newCalls[i].endOfBatch <==> i in newStores)
    {
      OneMoreCall(offers, calls, stores, batch, o, i);
    }
  }

  lemma OneMoreCall(offers: seq<Offer>, calls: seq<HandlerCall>, stores: seq<int>, batch: seq<HandlerCall>, o: Offer, i: nat)
    requires Processed(offers, calls, stores) && IsBatch(batch, |calls|, o.upper, o.slots) && i < |calls + batch|
    requires i <= Highest(offers + [o])
    ensures var call := (calls + batch)[i];
            && Handles(offers + [o], call, i)
            && (call.endOfBatch <==> i in stores + [|calls + batch| - 1])
  {
    StoresAreBelow(offers);
    assert (offers + [o])[..|offers|] == offers;
    var newStores := stores + [|calls + batch| - 1];
    assert i in newStores <==> i in stores || i == |calls + batch| - 1;
    if i < |calls| {
      assert (calls + batch)[i] == calls[i] && Handles(offers, calls[i], i);
    } else {
      assert (calls + batch)[i] == batch[i - |calls|];
    }
  }

  lemma OneMoreOffer(offers: seq<Offer>, o: Offer)
    ensures Highest(offers + [o]) == if o.upper > Highest(offers) then o.upper else Highest(offers)
    ensures RunningHighest(offers + [o]) == RunningHighest(offers) + [Highest(offers + [o])]
    ensures CallsFor(offers + [o]) == CallsFor(offers) + BatchOf(|CallsFor(offers)|, o)
  {
    assert (offers + [o])[..|offers|] == offers;
  }

  /** Every store is of a sequence offered, and the last one of the highest. */
  lemma {:induction false} StoresAreBelow(offers: seq<Offer>)
    ensures forall i :: i in RunningHighest(offers) ==> i <= Highest(offers)
    ensures offers != [] ==> Highest(offers) in RunningHighest(offers)
  {
    if offers != [] {
      StoresAreBelow(offers[..|offers| - 1]);
    }
  }

  // --- pollers --------------------------------------------------------------------------------------

  /** `cursor_at.saturating_add_unsigned(limit)` on 64-bit integers. */
  function SaturatingAdd(a: int, limit: nat): int {
    Min(a + limit, I64_MAX)
  }

  class EventPoller {
    const ring: RingBuffer
    const notifier: Notifier
    var cursor: int

    ghost predicate Valid()
      reads this
    {
      ring.Valid() && cursor >= -1
    }

    constructor (ring: RingBuffer, notifier: Notifier)
      requires ring.Valid()
      ensures Valid() && cursor == -1 && this.ring == ring && this.notifier == notifier
    {
      this.ring := ring;
      this.notifier := notifier;
      cursor := -1;
    }

    /** Poll for at most `limit` events. `shutdownAt` and `offered` are what the shutdown variable and
        the barrier answer. Saturation never shows: the guard ends where plain addition would end. */
    method PollTake(limit: nat, shutdownAt: int, offered: int) returns (r: Polling)
      requires offered <= I64_MAX
      ensures r.ShutdownSeen? <==> shutdownAt == cursor + 1
      ensures r.NoEvents? <==> shutdownAt != cursor + 1 && offered <= cursor
      ensures r.Guard? ==> fresh(r.guard) && r.guard.parent == this && r.guard.sequence == cursor + 1
      ensures r.Guard? ==> cursor <= r.guard.available == Min(offered, cursor + limit)
    {
      var cursorAt := cursor;
      var sequence := cursorAt + 1;
      if sequence == shutdownAt {
        return ShutdownSeen;
      }
      var available := offered;
      if available < sequence {
        return NoEvents;
      }
      var maxSequence := SaturatingAdd(cursorAt, limit);
      available := Min(available, maxSequence);
      var guard := new EventGuard(this, sequence, available);
      r := Guard(guard);
    }

    /** Wait for events with the outcome a waiter gives, which offers at least the next sequence. */
    method PollWait(outcome: WaitOutcome) returns (r: Polling)
      requires outcome.Available? ==> outcome.upper >= cursor + 1
      ensures r.ShutdownSeen? <==> outcome.Shutdown?
      ensures r.NoEvents? <==> outcome.Timeout?
      ensures r.Guard? ==> fresh(r.guard) && r.guard.parent == this && r.guard.sequence == cursor + 1
      ensures r.Guard? ==> outcome.Available? && r.guard.available == outcome.upper
    {
      var sequence := cursor + 1;
      match outcome
      case Available(upper) =>
        var guard := new EventGuard(this, sequence, upper);
        r := Guard(guard);
      case Shutdown => r := ShutdownSeen;
      case Timeout => r := NoEvents;
    }
  }

  datatype Polling = Guard(guard: EventGuard) | NoEvents | ShutdownSeen

  class EventGuard {
    const parent: EventPoller
    var sequence: int
    const available: int

    constructor (parent: EventPoller, sequence: int, available: int)
      ensures this.parent == parent && this.sequence == sequence && this.available == available
    {
      this.parent := parent;
      this.sequence := sequence;
      this.available := available;
    }

    /** The sequences still to be yielded, in order. */
    function Left(): seq<int>
      reads this
    {
      Interval(sequence, available)
    }

    /** How many events are still to be yielded. */
    function Len(): (n: nat)
      reads this
      ensures n == |Left()|
    {
      if sequence > available then 0 else available - sequence + 1
    }

    /** Yield the next sequence of the guard with the event in its slot, if any is left. */
    method Next() returns (some: bool, yielded: int, event: Event)
      requires parent.ring.Valid() && sequence >= 0
      modifies this
      ensures some == (old(Left()) != [])
      ensures some ==> old(Left()) == [yielded] + Left()
      ensures some ==> yielded == old(sequence) && event == parent.ring.slots[yielded % parent.ring.slots.Length]
      ensures sequence == old(sequence) + if some then 1 else 0
    {
      if sequence > available {
        return false, 0, 0;
      }
      some, yielded := true, sequence;
      event := parent.ring.slots[parent.ring.SlotIndex(sequence)];
      sequence := sequence + 1;
    }

    /** Dropping the guard releases everything up to its end, read or not, and then wakes. */
    method Drop()
      modifies parent, parent.notifier
      ensures parent.cursor == available
      ensures parent.notifier.announced == old(parent.notifier.announced) + [available]
    {
      parent.cursor := available;
      parent.notifier.Wake(parent.cursor);
    }
  }

  /** What one use of a poller meets: a poll with its limit and the answers of shutdown variable and
      barrier, or a wait with its outcome. */
  datatype Use = Take(limit: nat, shutdownAt: int, offered: int) | Wait(outcome: WaitOutcome)

  /** A use, and what the ring holds by then: the producers have gone on since the use before. */
  datatype Visit = Visit(use: Use, slots: Slots)

  /** The cursor after a use whose guard, if any, was dropped. */
  function CursorAfter(cursor: int, use: Use): (r: int)
    ensures r >= cursor
  {
    match use
    case Take(limit, shutdownAt, offered) =>
      if shutdownAt == cursor + 1 || offered <= cursor then cursor else Min(offered, cursor + limit)
    case Wait(Available(upper)) => if upper > cursor then upper else cursor
    case Wait(_) => cursor
  }

  /** The most that any use so far was offered. */
  function Offered(use: Use): int {
    match use
    case Take(_, _, offered) => offered
    case Wait(Available(upper)) => upper
    case Wait(_) => -1
  }

  function CursorAfterAll(cursor: int, visits: seq<Visit>): int
    decreases |visits|
  {
    if visits == [] then cursor else CursorAfterAll(CursorAfter(cursor, visits[0].use), visits[1..])
  }

  /** What the slots of the sequences from `lower` to `upper` hold. */
  function EventsIn(slots: Slots, lower: nat, upper: int): (r: seq<Event>)
    ensures |r| == |Interval(lower, upper)|
    ensures forall i :: 0 <= i < |r| ==> r[i] == slots[(lower + i) % |slots|]
  {
    seq(|Interval(lower, upper)|, i requires 0 <= i => slots[(lower + i) % |slots|])
  }

  /** For each use, the events of the sequences it moves the cursor over, as the ring held them then. */
  function EventsOf(cursor: int, visits: seq<Visit>): seq<Event>
    requires cursor >= -1
    decreases |visits|
  {
    if visits == [] then []
    else
      var after := CursorAfter(cursor, visits[0].use);
      EventsIn(visits[0].slots, cursor + 1, after) + EventsOf(after, visits[1..])
  }

  /** The cursor only moves forwards, only as far as some barrier offered, and a limit of zero leaves
      it where it is. */
  lemma {:induction false} CursorStaysWithinOffers(cursor: int, visits: seq<Visit>, most: int)
    requires cursor <= most && forall k :: 0 <= k < |visits| ==> Offered(visits[k].use) <= most
    ensures cursor <= CursorAfterAll(cursor, visits) <= most
    ensures (forall k :: 0 <= k < |visits| ==> visits[k].use.Take? && visits[k].use.limit == 0) ==>
              CursorAfterAll(cursor, visits) == cursor
    decreases |visits|
  {
    if visits != [] {
      assert Offered(visits[0].use) <= most;
      CursorStaysWithinOffers(CursorAfter(cursor, visits[0].use), visits[1..], most);
    }
  }

  /** Whatever mixture of polls, limits and waits, and whatever the ring holds at each of them: with every
      guard iterated to its end and dropped, what is yielded are the consecutive sequences up to the
      cursor, without gap or repeat, each with the event its slot holds at the time. */
  method DrivePoller(poller: EventPoller, visits: seq<Visit>) returns (yielded: seq<int>, events: seq<Event>)
    requires poller.Valid()
    requires forall k :: 0 <= k < |visits| ==>
               Offered(visits[k].use) <= I64_MAX && |visits[k].slots| == poller.ring.slots.Length
    modifies poller, poller.notifier, poller.ring.slots
    ensures poller.Valid() && poller.cursor == CursorAfterAll(old(poller.cursor), visits)
    ensures yielded == Interval(old(poller.cursor) + 1, poller.cursor)
    ensures events == EventsOf(old(poller.cursor), visits)
    ensures forall k :: 0 <= k < |visits| && visits[k].use.Wait? && visits[k].use.outcome.Available? ==>
              visits[k].use.outcome.upper <= poller.cursor
  {
    yielded, events := [], [];
    ghost var start := poller.cursor;
    var k := 0;
    NotDriven(start, visits);
    while k < |visits|
      invariant 0 <= k <= |visits| && poller.Valid()
      invariant Driven(start, poller.cursor, visits, k, yielded, events)
    {
      DrivenFurther(start, poller.cursor, visits, k, yielded, events);
      Refill(poller.ring, visits[k].slots);
      var more, read := UsePoller(poller, visits[k].use);
      yielded := yielded + more;
      events := events + read;
      k := k + 1;
    }
    assert visits[k..] == [];
    CursorReachesWaits(start, visits);
  }

  /** Every wait gets the poller as far as it was offered. */
  lemma {:induction false} CursorReachesWaits(cursor: int, visits: seq<Visit>)
    ensures CursorAfterAll(cursor, visits) >= cursor
    ensures forall k :: 0 <= k < |visits| && visits[k].use.Wait? && visits[k].use.outcome.Available? ==>
              visits[k].use.outcome.upper <= CursorAfterAll(cursor, visits)
    decreases |visits|
  {
    if visits != [] {
      CursorReachesWaits(CursorAfter(cursor, visits[0].use), visits[1..]);
      forall k | 0 <= k < |visits| && visits[k].use.Wait? && visits[k].use.outcome.Available?
        ensures visits[k].use.outcome.upper <= CursorAfterAll(cursor, visits)
      {
        assert k > 0 ==> visits[k] == visits[1..][k - 1];
      }
    }
  }

  /** Up to visit `k` the poller has been driven; the rest is to come. */
  ghost predicate Driven(start: int, cursor: int, visits: seq<Visit>, k: nat, yielded: seq<int>, events: seq<Event>)
    requires k <= |visits|
  {
    && -1 <= start <= cursor
    && CursorAfterAll(cursor, visits[k..]) == CursorAfterAll(start, visits)
    && yielded == Interval(start + 1, cursor)
    && events + EventsOf(cursor, visits[k..]) == EventsOf(start, visits)
  }

  lemma NotDriven(start: int, visits: seq<Visit>)
    requires start >= -1
    ensures Driven(start, start, visits, 0, [], [])
  {
    assert visits[0..] == visits;
  }

  lemma DrivenFurther(start: int, cursor: int, visits: seq<Visit>, k: nat, yielded: seq<int>, events: seq<Event>)
    requires k < |visits| && Driven(start, cursor, visits, k, yielded, events)
    ensures var after := CursorAfter(cursor, visits[k].use);
            Driven(start, after, visits, k + 1, yielded + Interval(cursor + 1, after),
                   events + EventsIn(visits[k].slots, cursor + 1, after))
  {
    assert visits[k..][1..] == visits[k + 1..];
    IntervalsJoin(start + 1, cursor, CursorAfter(cursor, visits[k].use));
  }

  /** What the producers have made of the ring by the next use. */
  method Refill(ring: RingBuffer, slots: Slots)
    requires |slots| == ring.slots.Length
    modifies ring.slots
    ensures ring.slots[..] == slots
  {
    forall i | 0 <= i < ring.slots.Length {
      ring.slots[i] := slots[i];
    }
  }

  /** Use the poller once; if it hands out a guard, iterate it to its end and drop it. */
  method UsePoller(poller: EventPoller, use: Use) returns (yielded: seq<int>, events: seq<Event>)
    requires poller.Valid() && Offered(use) <= I64_MAX && poller.ring.slots.Length > 0
    modifies poller, poller.notifier
    ensures poller.Valid() && poller.cursor == CursorAfter(old(poller.cursor), use)
    ensures yielded == Interval(old(poller.cursor) + 1, poller.cursor)
    ensures events == EventsIn(poller.ring.slots[..], old(poller.cursor) + 1, poller.cursor)
    ensures match use
            case Wait(Available(upper)) => upper > old(poller.cursor) ==> poller.cursor == upper
            case Wait(_) => poller.cursor == old(poller.cursor)
            case Take(limit, shutdownAt, offered) =>
              && (shutdownAt == old(poller.cursor) + 1 || offered <= old(poller.cursor) ==> poller.cursor == old(poller.cursor))
              && (shutdownAt != old(poller.cursor) + 1 && offered > old(poller.cursor) ==>
                    poller.cursor == Min(offered, old(poller.cursor) + limit))
  {
    var r: Polling := NoEvents;
    match use {
      case Take(limit, shutdownAt, offered) => r := poller.PollTake(limit, shutdownAt, offered);
      case Wait(outcome) =>
        // A waiter never answers with less than it was asked for.
        if !outcome.Available? || outcome.upper > poller.cursor {
          r := poller.PollWait(outcome);
        }
    }
    if r.Guard? {
      yielded, events := DrainGuard(poller, r.guard);
    } else {
      yielded, events := [], [];
    }
  }

  /** Iterate a guard to its end and drop it. */
  method DrainGuard(poller: EventPoller, guard: EventGuard) returns (yielded: seq<int>, events: seq<Event>)
    requires poller.Valid() && guard.parent == poller && guard.sequence == poller.cursor + 1 <= guard.available + 1
    requires poller.ring.slots.Length > 0
    modifies guard, poller, poller.notifier
    ensures poller.Valid() && poller.cursor == guard.available
    ensures yielded == Interval(old(guard.sequence), guard.available)
    ensures events == EventsIn(poller.ring.slots[..], old(guard.sequence), guard.available)
  {
    yielded, events := [], [];
    ghost var first, slots: Slots := guard.sequence, poller.ring.slots[..];
    while guard.Len() > 0
      invariant first <= guard.sequence <= guard.available + 1
      invariant yielded == Interval(first, guard.sequence - 1)
      invariant events == EventsIn(slots, first, guard.sequence - 1)
      modifies guard
      decreases guard.Len()
    {
      var _, sequence, event := guard.Next();
      IntervalGrows(first, sequence);
      EventsGrow(slots, first, sequence);
      yielded := yielded + [sequence];
      events := events + [event];
    }
    guard.Drop();
  }

  lemma EventsGrow(slots: Slots, lower: nat, upper: int)
    requires lower <= upper
    ensures EventsIn(slots, lower, upper) == EventsIn(slots, lower, upper - 1) + [slots[upper % |slots|]]
  {
  }
}
