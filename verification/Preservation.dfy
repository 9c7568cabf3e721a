/** Every step of the protocol keeps the invariant. */
module Preservation {
  import opened Bits
  import opened Availability
  import opened RingBuffers
  import opened Wiring
  import opened Protocol
  import opened Invariant

  // --- producer steps that change no claim, slot or bit -------------------------------------------

  /** What a step leaves to check: the rest of the invariant follows from `Advances`. */
  lemma Reassemble(cfg: Config, s: State, t: State)
    requires Inv(cfg, s) && Shape(cfg, t) && Owned(t) && Advances(s, t)
    requires BehindRear(cfg, t, t.claimed) && BitmapOk(cfg, t) && SlotsOk(cfg, t)
    requires forall i :: 0 <= i < |t.producers| ==>
      ProducerOk(cfg, t, t.producers[i])
      || (&& i < |s.producers| && s.producers[i] == t.producers[i]
          && (cfg.multi || (s.claimed == t.claimed && s.published == t.published)))
    requires forall i :: 0 <= i < |t.consumers| ==>
      ConsumerOk(cfg, t, cfg.graph.barriers[i], t.consumers[i]) || s.consumers[i] == t.consumers[i]
    ensures Inv(cfg, t)
  {
    forall i | 0 <= i < |t.producers| ensures ProducerOk(cfg, t, t.producers[i]) {
      if i < |s.producers| && s.producers[i] == t.producers[i]
         && (cfg.multi || (s.claimed == t.claimed && s.published == t.published)) {
        ProducerAdvances(cfg, s, t, s.producers[i]);
      }
    }
    forall i | 0 <= i < |t.consumers| ensures ConsumerOk(cfg, t, cfg.graph.barriers[i], t.consumers[i]) {
      if s.consumers[i] == t.consumers[i] {
        ConsumerAdvances(cfg, s, t, cfg.graph.barriers[i], s.consumers[i]);
      }
    }
  }

  /** A producer moves on, holding the same sequences as before. */
  lemma ProducerMoves(cfg: Config, s: State, t: State, p: nat, y: Producer)
    requires Inv(cfg, s) && p < |s.producers|
    requires t == s.(producers := s.producers[p := y], refCount := t.refCount, shutdown := t.shutdown)
    requires HoldSame(y, s.producers[p])
    requires ProducerOk(cfg, s, y)
    ensures Inv(cfg, t)
    ensures Advances(s, t)
    ensures forall q :: Published(t, q) <==> Published(s, q)
  {
    SameHolders(s, t);
    ProducerAdvances(cfg, s, t, y);
    Reassemble(cfg, s, t);
  }

  ghost predicate HoldSame(x: Producer, y: Producer) {
    forall q :: Holds(x, q) <==> Holds(y, q)
  }

  /** When every producer still holds what it held, ownership and publication are unchanged. */
  lemma SameHolders(s: State, t: State)
    requires Owned(s) && t.owner == s.owner && t.claimed == s.claimed && |t.producers| >= |s.producers|
    requires forall i :: 0 <= i < |s.producers| ==> HoldSame(t.producers[i], s.producers[i])
    requires forall i :: |s.producers| <= i < |t.producers| ==> t.producers[i].pc == Idle
    ensures Owned(t)
    ensures forall q :: Published(t, q) <==> Published(s, q)
  {
    forall i, q | 0 <= i < |t.producers| && Holds(t.producers[i], q)
      ensures 0 <= q < |t.owner| && t.owner[q] == i
    {
      assert i < |s.producers|;
      assert HoldSame(t.producers[i], s.producers[i]);
      HolderOwns(s, i, q);
    }
    forall q ensures Published(t, q) <==> Published(s, q) {
      if 0 <= q < |s.owner| {
        assert HoldSame(t.producers[s.owner[q]], s.producers[s.owner[q]]);
      }
    }
  }

  lemma HolderOwns(s: State, i: nat, q: int)
    requires Owned(s) && i < |s.producers| && Holds(s.producers[i], q)
    ensures 0 <= q < |s.owner| && s.owner[q] == i
  {
  }

  predicate Silent(action: ProducerAction) {
    !action.CompareExchange? && !action.Write? && !action.Publish? && !action.Clone?
  }

  lemma SilentKeeps(cfg: Config, s: State, p: nat, action: ProducerAction)
    requires Inv(cfg, s) && Enabled(cfg, s, ByProducer(p, action)) && Silent(action)
    ensures Inv(cfg, ApplyProducer(cfg, s, p, action))
    ensures Advances(s, ApplyProducer(cfg, s, p, action))
  {
    var t := ApplyProducer(cfg, s, p, action);
    SilentMoves(cfg, s, p, action);
    SilentIsOk(cfg, s, p, action);
    ProducerMoves(cfg, s, t, p, t.producers[p]);
  }

  lemma SilentMoves(cfg: Config, s: State, p: nat, action: ProducerAction)
    requires Enabled(cfg, s, ByProducer(p, action)) && Silent(action)
    ensures var t := ApplyProducer(cfg, s, p, action);
            && |t.producers| == |s.producers|
            && t == s.(producers := s.producers[p := t.producers[p]], refCount := t.refCount, shutdown := t.shutdown)
            && HoldSame(t.producers[p], s.producers[p])
  {
  }

  lemma SilentIsOk(cfg: Config, s: State, p: nat, action: ProducerAction)
    requires Inv(cfg, s) && Enabled(cfg, s, ByProducer(p, action)) && Silent(action)
    ensures ProducerOk(cfg, s, ApplyProducer(cfg, s, p, action).producers[p])
  {
    var x := s.producers[p];
    assert ProducerOk(cfg, s, x);
    if action.ComputeCapacity? && x.pc.least - (x.pc.current - cfg.capacity) >= x.pc.n {
      RearIsClear(cfg, s, x);
    }
  }

  /** The capacity computed from the rear cursors read keeps the producer behind all of them. */
  lemma RearIsClear(cfg: Config, s: State, x: Producer)
    requires Inv(cfg, s) && ProducerOk(cfg, s, x)
    requires x.pc.ReadingRear? && x.pc.read == |cfg.graph.rear|
    ensures BehindRear(cfg, s, x.pc.least + cfg.capacity)
  {
    forall t | t in cfg.graph.rear
      ensures t < |s.consumers| && x.pc.least + cfg.capacity <= s.consumers[t].cursor + cfg.capacity
    {
      var j :| 0 <= j < |cfg.graph.rear| && cfg.graph.rear[j] == t;
    }
  }

  lemma CloneKeeps(cfg: Config, s: State, p: nat)
    requires Inv(cfg, s) && Enabled(cfg, s, ByProducer(p, Clone))
    ensures Inv(cfg, ApplyProducer(cfg, s, p, Clone))
    ensures Advances(s, ApplyProducer(cfg, s, p, Clone))
  {
    var t := ApplyProducer(cfg, s, p, Clone);
    SameHolders(s, t);
    ZeroIsClear(cfg, s);
    ProducerAdvances(cfg, s, t, Producer(Idle, 0));
    Reassemble(cfg, s, t);
  }

  lemma ZeroIsClear(cfg: Config, s: State)
    requires Inv(cfg, s)
    ensures BehindRear(cfg, s, 0)
  {
    forall t | t in cfg.graph.rear ensures t < |s.consumers| && 0 <= s.consumers[t].cursor + cfg.capacity {
      assert ConsumerOk(cfg, s, cfg.graph.barriers[t], s.consumers[t]);
    }
  }

  // --- writing --------------------------------------------------------------------------------------

  lemma WriteKeeps(cfg: Config, s: State, p: nat, q: int, event: Event)
    requires Inv(cfg, s) && Enabled(cfg, s, ByProducer(p, Write(q, event)))
    ensures Inv(cfg, ApplyProducer(cfg, s, p, Write(q, event)))
    ensures Advances(s, ApplyProducer(cfg, s, p, Write(q, event)))
  {
    var t := ApplyProducer(cfg, s, p, Write(q, event));
    assert Holds(s.producers[p], q);
    HeldIsRecent(cfg, s, p, q);
    SameHolders(s, t);
    forall r | 0 <= r <= t.claimed && t.claimed - cfg.capacity < r
      ensures t.slots[r % cfg.capacity] == t.log[r]
    {
      if r != q {
        DistinctSlots(cfg.capacity, r, q);
      }
    }
    Reassemble(cfg, s, t);
  }

  /** A sequence being written is one of the last ring's. */
  lemma HeldIsRecent(cfg: Config, s: State, p: nat, q: int)
    requires Inv(cfg, s) && p < |s.producers| && Holds(s.producers[p], q)
    ensures s.claimed - cfg.capacity < q <= s.claimed
  {
    if q <= s.claimed - cfg.capacity {
      OldIsPublished(cfg, s, q);
    }
  }

  // --- claiming -------------------------------------------------------------------------------------

  lemma CompareExchangeKeeps(cfg: Config, s: State, p: nat)
    requires Inv(cfg, s) && Enabled(cfg, s, ByProducer(p, CompareExchange))
    ensures Inv(cfg, ApplyProducer(cfg, s, p, CompareExchange))
    ensures Advances(s, ApplyProducer(cfg, s, p, CompareExchange))
  {
    var t := ApplyProducer(cfg, s, p, CompareExchange);
    assert ProducerOk(cfg, s, s.producers[p]);
    if s.claimed == s.producers[p].pc.current {
      ClaimKeeps(cfg, s, p);
    } else {
      ProducerMoves(cfg, s, t, p, t.producers[p]);
    }
  }

  /** A claim goes beyond neither the free slots nor the size of the ring. */
  lemma ClaimFits(cfg: Config, s: State, p: nat)
    requires Inv(cfg, s) && p < |s.producers|
    requires s.producers[p].pc.Claiming? && s.producers[p].pc.current == s.claimed
    ensures BehindRear(cfg, s, s.claimed + s.producers[p].pc.n)
    ensures s.producers[p].pc.n <= cfg.capacity
  {
    assert ProducerOk(cfg, s, s.producers[p]);
    var stage: seq<nat>, last: nat :| Layered(cfg.graph, stage, last);
    var t := cfg.graph.rear[0];
    assert t in cfg.graph.rear;
    assert ConsumerOk(cfg, s, cfg.graph.barriers[t], s.consumers[t]);
  }

  lemma ClaimKeeps(cfg: Config, s: State, p: nat)
    requires Inv(cfg, s) && p < |s.producers|
    requires s.producers[p].pc.Claiming? && s.producers[p].pc.current == s.claimed
    ensures Inv(cfg, ClaimNext(cfg, s, p, s.producers[p].pc.n))
    ensures Advances(s, ClaimNext(cfg, s, p, s.producers[p].pc.n))
  {
    var n := s.producers[p].pc.n;
    var t := ClaimNext(cfg, s, p, n);
    ClaimFits(cfg, s, p);
    ClaimOwnership(cfg, s, p);
    ClaimBitmap(cfg, s, p);
    ClaimSlots(cfg, s, p);
    assert ProducerOk(cfg, s, s.producers[p]);
    RearAdvances(cfg, s, t, s.producers[p].clear);
    RearAdvances(cfg, s, t, s.claimed + n);
    Reassemble(cfg, s, t);
  }

  lemma ClaimSlots(cfg: Config, s: State, p: nat)
    requires Inv(cfg, s) && p < |s.producers|
    requires s.producers[p].pc.Claiming? && s.producers[p].pc.current == s.claimed
    ensures SlotsOk(cfg, ClaimNext(cfg, s, p, s.producers[p].pc.n))
  {
    var n := s.producers[p].pc.n;
    var t := ClaimNext(cfg, s, p, n);
    forall r | 0 <= r <= t.claimed && t.claimed - cfg.capacity < r
      ensures t.slots[r % cfg.capacity] == t.log[r]
    {
      if r > s.claimed {
        assert t.log[r] == Contents(s.slots, s.claimed + 1, n)[r - (s.claimed + 1)];
      } else {
        assert t.log[r] == s.log[r];
      }
    }
  }

  lemma ClaimOwnership(cfg: Config, s: State, p: nat)
    requires Inv(cfg, s) && p < |s.producers|
    requires s.producers[p].pc.Claiming? && s.producers[p].pc.current == s.claimed
    ensures var t := ClaimNext(cfg, s, p, s.producers[p].pc.n);
            Owned(t) && forall q :: Published(t, q) <==> Published(s, q)
  {
    var t := ClaimNext(cfg, s, p, s.producers[p].pc.n);
    forall i, q | 0 <= i < |t.producers| && Holds(t.producers[i], q)
      ensures 0 <= q < |t.owner| && t.owner[q] == i
    {
      assert i != p ==> Holds(s.producers[i], q);
    }
    forall q ensures Published(t, q) <==> Published(s, q) {
      if q > s.claimed {
        assert Published(t, q) ==> Holds(t.producers[p], q);
      }
    }
  }

  lemma ClaimBitmap(cfg: Config, s: State, p: nat)
    requires Inv(cfg, s) && p < |s.producers|
    requires s.producers[p].pc.Claiming? && s.producers[p].pc.current == s.claimed
    requires s.producers[p].pc.n <= cfg.capacity && BehindRear(cfg, s, s.claimed + s.producers[p].pc.n)
    ensures BitmapOk(cfg, ClaimNext(cfg, s, p, s.producers[p].pc.n))
  {
    var t := ClaimNext(cfg, s, p, s.producers[p].pc.n);
    ClaimOwnership(cfg, s, p);
    if cfg.multi {
      forall q | t.claimed - cfg.capacity < q <= t.claimed
        ensures ReadsPublished(t.words, cfg.capacity, q) <==> q < 0 || Published(t, q)
      {
        if q > s.claimed {
          ReusedIsConsumed(cfg, s, q, t.claimed);
          NextRound(s.words, cfg.capacity, q - cfg.capacity);
        }
      }
    }
  }

  /** The previous occupant of a slot about to be reused has been read by everybody. */
  lemma ReusedIsConsumed(cfg: Config, s: State, q: int, limit: int)
    requires Inv(cfg, s) && BehindRear(cfg, s, limit) && s.claimed < q <= limit
    ensures q - cfg.capacity < 0 || Published(s, q - cfg.capacity)
  {
    var stage: seq<nat>, last: nat :| Layered(cfg.graph, stage, last);
    var t := cfg.graph.rear[0];
    assert t in cfg.graph.rear;
    assert ConsumerOk(cfg, s, cfg.graph.barriers[t], s.consumers[t]);
  }

  // --- publishing -----------------------------------------------------------------------------------

  lemma PublishKeeps(cfg: Config, s: State, p: nat)
    requires Inv(cfg, s) && Enabled(cfg, s, ByProducer(p, Publish))
    ensures Inv(cfg, ApplyProducer(cfg, s, p, Publish))
    ensures Advances(s, ApplyProducer(cfg, s, p, Publish))
  {
    var t := ApplyProducer(cfg, s, p, Publish);
    assert ProducerOk(cfg, s, s.producers[p]);
    PublishGrows(cfg, s, p);
    PublishBitmap(cfg, s, p);
    RearAdvances(cfg, s, t, s.producers[p].clear);
    Reassemble(cfg, s, t);
  }

  /** The first sequence producer `p` still holds after its next publication step. */
  function PublishedUpTo(cfg: Config, s: State, p: nat): int
    requires p < |s.producers| && ProducerEnabled(cfg, s, s.producers[p].pc, Publish)
  {
    var pc := s.producers[p].pc;
    if !cfg.multi || pc.next > pc.upper then pc.upper + 1
    else pc.next + Take(cfg.capacity, pc.next, pc.upper - pc.next + 1)
  }

  /** One publication step publishes exactly a prefix of what the producer still holds. */
  lemma PublishGrows(cfg: Config, s: State, p: nat)
    requires Inv(cfg, s) && Enabled(cfg, s, ByProducer(p, Publish))
    ensures Owned(ApplyProducer(cfg, s, p, Publish))
    ensures var t := ApplyProducer(cfg, s, p, Publish);
            && AreWords(t.words) && |t.words| == |s.words|
            && forall q :: Published(t, q) <==>
                 Published(s, q) || (s.producers[p].pc.next <= q < PublishedUpTo(cfg, s, p))
  {
    var t := ApplyProducer(cfg, s, p, Publish);
    var pc := s.producers[p].pc;
    assert ProducerOk(cfg, s, s.producers[p]);
    PublishLeaves(cfg, s, p);
    forall i, q | 0 <= i < |t.producers| && Holds(t.producers[i], q)
      ensures 0 <= q < |t.owner| && t.owner[q] == i
    {
      assert Holds(s.producers[i], q);
    }
    forall q ensures Published(t, q) <==> Published(s, q) || (pc.next <= q < PublishedUpTo(cfg, s, p)) {
      if pc.next <= q <= pc.upper {
        assert Holds(s.producers[p], q);
      }
    }
  }

  /** What a publication step leaves its producer with. */
  lemma PublishLeaves(cfg: Config, s: State, p: nat)
    requires Inv(cfg, s) && Enabled(cfg, s, ByProducer(p, Publish))
    ensures var pc, t := s.producers[p].pc, ApplyProducer(cfg, s, p, Publish);
            && AreWords(t.words) && |t.words| == |s.words|
            && t.owner == s.owner && t.claimed == s.claimed && |t.producers| == |s.producers|
            && t.producers == s.producers[p := t.producers[p]]
            && (forall q :: Holds(t.producers[p], q) <==> PublishedUpTo(cfg, s, p) <= q <= pc.upper)
            && pc.next <= PublishedUpTo(cfg, s, p) <= pc.upper + 1
  {
    assert ProducerOk(cfg, s, s.producers[p]);
    PublishChanges(cfg, s, p);
  }

  lemma PublishChanges(cfg: Config, s: State, p: nat)
    requires Enabled(cfg, s, ByProducer(p, Publish)) && Shape(cfg, s)
    requires s.producers[p].pc.next <= s.producers[p].pc.upper + 1
    ensures var pc, t := s.producers[p].pc, ApplyProducer(cfg, s, p, Publish);
            && AreWords(t.words) && |t.words| == |s.words|
            && t.owner == s.owner && t.claimed == s.claimed && |t.producers| == |s.producers|
            && t.producers == s.producers[p := t.producers[p]]
            && t.producers[p].pc == (if PublishedUpTo(cfg, s, p) > pc.upper then Idle
                                     else Publishing(PublishedUpTo(cfg, s, p), pc.upper))
            && pc.next <= PublishedUpTo(cfg, s, p) <= pc.upper + 1
  {
    var pc := s.producers[p].pc;
    if cfg.multi && pc.next <= pc.upper {
      var take := Take(cfg.capacity, pc.next, pc.upper - pc.next + 1);
      ChunkAreWords(s.words, cfg.capacity, pc.next, take);
      assert PublishedUpTo(cfg, s, p) == pc.next + take;
    } else {
      assert PublishedUpTo(cfg, s, p) == pc.upper + 1;
    }
  }

  lemma PublishBitmap(cfg: Config, s: State, p: nat)
    requires Inv(cfg, s) && Enabled(cfg, s, ByProducer(p, Publish))
    requires |ApplyProducer(cfg, s, p, Publish).words| == |s.words|
    ensures BitmapOk(cfg, ApplyProducer(cfg, s, p, Publish))
  {
    var t := ApplyProducer(cfg, s, p, Publish);
    var pc := s.producers[p].pc;
    PublishGrows(cfg, s, p);
    assert ProducerOk(cfg, s, s.producers[p]);
    if cfg.multi && pc.next <= pc.upper {
      var take := Take(cfg.capacity, pc.next, pc.upper - pc.next + 1);
      HeldIsRecent(cfg, s, p, pc.next);
      forall q | t.claimed - cfg.capacity < q <= t.claimed
        ensures ReadsPublished(t.words, cfg.capacity, q) <==> q < 0 || Published(t, q)
      {
        ChunkReads(s.words, cfg.capacity, pc.next, take, q);
        if pc.next <= q < pc.next + take {
          assert Holds(s.producers[p], q);
        }
      }
    }
  }

  // --- consumer steps -------------------------------------------------------------------------------

  /** A consumer moves on to a sound state without moving its cursor back. */
  lemma ConsumerMoves(cfg: Config, s: State, t: State, c: nat, y: Consumer)
    requires Inv(cfg, s) && c < |s.consumers|
    requires t == s.(consumers := s.consumers[c := y])
    requires y.cursor >= s.consumers[c].cursor
    requires ConsumerOk(cfg, s, cfg.graph.barriers[c], y)
    ensures Inv(cfg, t)
    ensures Advances(s, t)
    ensures forall q :: Published(t, q) <==> Published(s, q)
  {
    SameHolders(s, t);
    ConsumerAdvances(cfg, s, t, cfg.graph.barriers[c], y);
    RearAdvances(cfg, s, t, s.claimed);
    Reassemble(cfg, s, t);
  }

  lemma ConsumerKeeps(cfg: Config, s: State, c: nat, action: ConsumerAction)
    requires Inv(cfg, s) && Enabled(cfg, s, ByConsumer(c, action))
    ensures ConsumerOk(cfg, s, cfg.graph.barriers[c], ConsumerAfter(cfg, s, c, action))
    ensures Inv(cfg, Apply(cfg, s, ByConsumer(c, action)))
    ensures Advances(s, Apply(cfg, s, ByConsumer(c, action)))
  {
    match action {
      case ScanAvailability => ScanKeeps(cfg, s, c);
      case ReadDependency => ReadKeeps(cfg, s, c);
      case CompleteMinimum => MinimumKeeps(cfg, s, c);
      case LoadPublished => LoadKeeps(cfg, s, c);
      case _ => PlainKeeps(cfg, s, c, action);
    }
    CursorForward(cfg, s, c, action);
    ConsumerMoves(cfg, s, Apply(cfg, s, ByConsumer(c, action)), c, ConsumerAfter(cfg, s, c, action));
  }

  lemma CursorForward(cfg: Config, s: State, c: nat, action: ConsumerAction)
    requires Inv(cfg, s) && Enabled(cfg, s, ByConsumer(c, action))
    ensures ConsumerAfter(cfg, s, c, action).cursor >= s.consumers[c].cursor
  {
    if action.StoreCursor? {
      assert ConsumerOk(cfg, s, cfg.graph.barriers[c], s.consumers[c]);
    }
  }

  /** The steps that do not hear from the barrier. */
  lemma PlainKeeps(cfg: Config, s: State, c: nat, action: ConsumerAction)
    requires Inv(cfg, s) && Enabled(cfg, s, ByConsumer(c, action))
    requires !action.ScanAvailability? && !action.ReadDependency? && !action.CompleteMinimum? && !action.LoadPublished?
    ensures ConsumerOk(cfg, s, cfg.graph.barriers[c], ConsumerAfter(cfg, s, c, action))
  {
    assert ConsumerOk(cfg, s, cfg.graph.barriers[c], s.consumers[c]);
  }

  /** An answer of the barrier within what the barrier guards is sound to act on. */
  lemma OfferOk(cfg: Config, s: State, b: Barrier, x: Consumer, call: Call, available: int)
    requires Inv(cfg, s) && ConsumerOk(cfg, s, b, x) && !x.pc.Handling?
    requires available >= x.cursor + 1 ==>
               && available <= s.claimed
               && (forall q :: 0 <= q <= available ==> Published(s, q))
               && (b.Stage? ==>
                     && (forall d :: d in b.cursors ==> d < |s.consumers| && available <= s.consumers[d].cursor)
                     && (forall g :: g in b.gates ==> g < |s.gatePeaks| && available <= s.gatePeaks[g]))
    ensures ConsumerOk(cfg, s, b, x.(pc := Offer(x, call, available)))
  {
  }

  /** One word of the scan: everything it passes is published, and it never passes the sequence that
      would reuse the slot of the consumer's next one. */
  lemma ScanIsSound(cfg: Config, s: State, c: nat, sequence: nat)
    requires Inv(cfg, s) && cfg.multi && c < |s.consumers|
    requires 0 <= s.consumers[c].cursor + 1 <= sequence <= s.consumers[c].cursor + 1 + cfg.capacity
    requires forall q :: 0 <= q < sequence ==> Published(s, q)
    ensures var slot := sequence % cfg.capacity;
            match ScanWord(s.words[slot / 64], slot % 64, OddRound(sequence, cfg.capacity))
            case Some(m) =>
              && sequence + m <= s.consumers[c].cursor + 1 + cfg.capacity
              && !Published(s, sequence + m)
              && forall q :: 0 <= q < sequence + m ==> Published(s, q)
            case None =>
              && sequence + (64 - slot % 64) <= s.consumers[c].cursor + 1 + cfg.capacity
              && forall q :: 0 <= q < sequence + (64 - slot % 64) ==> Published(s, q)
  {
    var next := s.consumers[c].cursor + 1;
    var published := PublishedSet(s);
    ShowsPublished(cfg, s, c);
    ScanStaysInRing(s.words, cfg.capacity, next, published, sequence);
    var slot := sequence % cfg.capacity;
    var found := ScanWord(s.words[slot / 64], slot % 64, OddRound(sequence, cfg.capacity));
    var limit := sequence + if found.None? then 64 - slot % 64 else found.value;
    forall q | 0 <= q < limit ensures Published(s, q) {
      if q >= next {
        assert q in published;
      }
    }
  }

  ghost function PublishedSet(s: State): (r: set<int>)
    ensures forall q :: q in r <==> Published(s, q)
  {
    set q | 0 <= q <= s.claimed && Published(s, q)
  }

  lemma ShowsPublished(cfg: Config, s: State, c: nat)
    requires Inv(cfg, s) && cfg.multi && c < |s.consumers|
    ensures Shows(s.words, cfg.capacity, s.consumers[c].cursor + 1, PublishedSet(s))
  {
    var next := s.consumers[c].cursor + 1;
    NobodyIsLapped(cfg, s, c);
    forall q | next <= q < next + cfg.capacity
      ensures ReadsPublished(s.words, cfg.capacity, q) <==> q in PublishedSet(s)
    {
      BitmapIsExact(cfg, s, c, q);
    }
  }

  /** What a scanning consumer does next: go on, having seen only published sequences, or act on the
      last of them. */
  lemma ScanLeadsTo(cfg: Config, s: State, c: nat)
    requires Inv(cfg, s) && Enabled(cfg, s, ByConsumer(c, ScanAvailability))
    ensures var x, y := s.consumers[c], ConsumerAfter(cfg, s, c, ScanAvailability);
            && cfg.multi && cfg.graph.barriers[c].Producers?
            && x.cursor + 1 <= x.pc.sequence <= x.cursor + 1 + cfg.capacity
            && (ScanGoesFurther(cfg, s, x, y) || exists available :: ScanAnswers(s, x, y, available))
  {
    var x := s.consumers[c];
    assert ConsumerOk(cfg, s, cfg.graph.barriers[c], x);
    var sequence := x.pc.sequence;
    var slot := sequence % cfg.capacity;
    ScanIsSound(cfg, s, c, sequence);
    var y := ConsumerAfter(cfg, s, c, ScanAvailability);
    match ScanWord(s.words[slot / 64], slot % 64, OddRound(sequence, cfg.capacity))
    case Some(m) => assert ScanAnswers(s, x, y, sequence + m - 1);
    case None => assert ScanGoesFurther(cfg, s, x, y);
  }

  ghost predicate ScanGoesFurther(cfg: Config, s: State, x: Consumer, y: Consumer) {
    && x.pc.Scanning? && y.pc.Scanning? && y == x.(pc := Scanning(x.pc.call, y.pc.sequence))
    && x.pc.sequence < y.pc.sequence <= x.cursor + 1 + cfg.capacity
    && forall q :: 0 <= q < y.pc.sequence ==> Published(s, q)
  }

  ghost predicate ScanAnswers(s: State, x: Consumer, y: Consumer, available: int) {
    && x.pc.Scanning? && y == x.(pc := Offer(x, x.pc.call, available))
    && available >= x.pc.sequence - 1 && !Published(s, available + 1)
    && forall q :: 0 <= q <= available ==> Published(s, q)
  }

  lemma ScanKeeps(cfg: Config, s: State, c: nat)
    requires Inv(cfg, s) && Enabled(cfg, s, ByConsumer(c, ScanAvailability))
    ensures ConsumerOk(cfg, s, cfg.graph.barriers[c], ConsumerAfter(cfg, s, c, ScanAvailability))
  {
    var x, y := s.consumers[c], ConsumerAfter(cfg, s, c, ScanAvailability);
    ScanLeadsTo(cfg, s, c);
    assert ConsumerOk(cfg, s, cfg.graph.barriers[c], x);
    if !ScanGoesFurther(cfg, s, x, y) {
      var available :| ScanAnswers(s, x, y, available);
      assert available >= 0 ==> Published(s, available);
      OfferOk(cfg, s, cfg.graph.barriers[c], x, x.pc.call, available);
    }
  }

  lemma ReadKeeps(cfg: Config, s: State, c: nat)
    requires Inv(cfg, s) && Enabled(cfg, s, ByConsumer(c, ReadDependency))
    ensures ConsumerOk(cfg, s, cfg.graph.barriers[c], ConsumerAfter(cfg, s, c, ReadDependency))
  {
    var x := s.consumers[c];
    assert ConsumerOk(cfg, s, cfg.graph.barriers[c], x);
  }

  lemma MinimumKeeps(cfg: Config, s: State, c: nat)
    requires Inv(cfg, s) && Enabled(cfg, s, ByConsumer(c, CompleteMinimum))
    ensures ConsumerOk(cfg, s, cfg.graph.barriers[c], ConsumerAfter(cfg, s, c, CompleteMinimum))
  {
    var x := s.consumers[c];
    var b := cfg.graph.barriers[c];
    assert ConsumerOk(cfg, s, b, x);
    forall d | d in b.cursors ensures d < |s.consumers| && x.pc.least <= s.consumers[d].cursor {
      var j :| 0 <= j < |b.cursors| && b.cursors[j] == d;
    }
    forall g | g in b.gates ensures g < |s.gatePeaks| && x.pc.least <= s.gatePeaks[g] {
      var j :| 0 <= j < |b.gates| && b.gates[j] == g;
    }
    var stage: seq<nat>, last: nat :| Layered(cfg.graph, stage, last);
    assert WaitsForStageBelow(b, stage[c], stage);
    var d := b.cursors[0];
    assert d in b.cursors;
    assert ConsumerOk(cfg, s, cfg.graph.barriers[d], s.consumers[d]);
    OfferOk(cfg, s, b, x, x.pc.call, x.pc.least);
  }

  /** A single producer's cursor is always fully published. */
  lemma LoadKeeps(cfg: Config, s: State, c: nat)
    requires Inv(cfg, s) && Enabled(cfg, s, ByConsumer(c, LoadPublished))
    ensures ConsumerOk(cfg, s, cfg.graph.barriers[c], ConsumerAfter(cfg, s, c, LoadPublished))
  {
    var x := s.consumers[c];
    assert ConsumerOk(cfg, s, cfg.graph.barriers[c], x);
    assert ProducerOk(cfg, s, s.producers[0]);
    OfferOk(cfg, s, cfg.graph.barriers[c], x, x.pc.call, s.published);
  }

  // --- gates, and every step ------------------------------------------------------------------------

  lemma GateKeeps(cfg: Config, s: State, g: nat, value: int)
    requires Inv(cfg, s) && Enabled(cfg, s, SetGate(g, value))
    ensures Inv(cfg, Apply(cfg, s, SetGate(g, value)))
    ensures Advances(s, Apply(cfg, s, SetGate(g, value)))
  {
    var t := Apply(cfg, s, SetGate(g, value));
    SameHolders(s, t);
    Reassemble(cfg, s, t);
  }

  lemma StepKeeps(cfg: Config, s: State, step: Step)
    requires Inv(cfg, s) && Enabled(cfg, s, step)
    ensures Inv(cfg, Apply(cfg, s, step))
    ensures Advances(s, Apply(cfg, s, step))
  {
    match step
    case SetGate(g, value) => GateKeeps(cfg, s, g, value);
    case ByConsumer(c, action) => ConsumerKeeps(cfg, s, c, action);
    case ByProducer(p, action) =>
      match action
      case CompareExchange => CompareExchangeKeeps(cfg, s, p);
      case Write(q, event) => WriteKeeps(cfg, s, p, q, event);
      case Publish => PublishKeeps(cfg, s, p);
      case Clone => CloneKeeps(cfg, s, p);
      case _ => SilentKeeps(cfg, s, p, action);
  }

}
