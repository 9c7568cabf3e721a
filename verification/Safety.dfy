/** The safety of the disruptor: what holds in every state that any interleaving can reach, for every
    ring size, wiring, number of producers and batch size. */
module Safety {
  import opened Bits
  import opened Availability
  import opened Wiring
  import opened Protocol
  import opened Invariant
  import opened Preservation
  import opened Delivery

  // --- slots ----------------------------------------------------------------------------------------

  /** No slot is held by two writers. */
  lemma NoTwoWriters(cfg: Config, s: State, p: nat, p': nat, a: int, b: int)
    requires ValidConfig(cfg) && Reachable(cfg, s)
    requires p < |s.producers| && p' < |s.producers| && Holds(s.producers[p], a) && Holds(s.producers[p'], b)
    requires p != p' || a != b
    ensures a % cfg.capacity != b % cfg.capacity
  {
    ReachableIsSound(cfg, s);
    HeldIsRecent(cfg, s, p, a);
    HeldIsRecent(cfg, s, p', b);
    HolderOwns(s, p, a);
    HolderOwns(s, p', b);
    DistinctSlots(cfg.capacity, a, b);
  }

  /** No slot is held by a writer and a reader, whatever the reader's stage. */
  lemma NoWriterWithReader(cfg: Config, s: State, p: nat, c: nat, a: int, b: int)
    requires ValidConfig(cfg) && Reachable(cfg, s)
    requires p < |s.producers| && c < |s.consumers| && Holds(s.producers[p], a) && Reads(s.consumers[c], b)
    ensures a % cfg.capacity != b % cfg.capacity
  {
    ReachableIsSound(cfg, s);
    HeldIsRecent(cfg, s, p, a);
    HolderOwns(s, p, a);
    NobodyIsLapped(cfg, s, c);
    assert ConsumerOk(cfg, s, cfg.graph.barriers[c], s.consumers[c]);
    assert Published(s, b);
    DistinctSlots(cfg.capacity, a, b);
  }

  // --- claims ---------------------------------------------------------------------------------------

  /** The claims tile `0..claimed`: every claimed sequence is either published or held by exactly one
      producer, and nothing else is held. */
  lemma ClaimsTile(cfg: Config, s: State, q: int)
    requires ValidConfig(cfg) && Reachable(cfg, s)
    ensures 0 <= q <= s.claimed <==> Published(s, q) || IsHeld(s, q)
    ensures forall p, p' ::
      0 <= p < |s.producers| && 0 <= p' < |s.producers| && Holds(s.producers[p], q) && Holds(s.producers[p'], q) ==>
        p == p' && !Published(s, q)
  {
    ReachableIsSound(cfg, s);
    forall p | 0 <= p < |s.producers| && Holds(s.producers[p], q)
      ensures 0 <= q < |s.owner| && s.owner[q] == p
    {
      HolderOwns(s, p, q);
    }
  }

  ghost predicate IsHeld(s: State, q: int) {
    exists p :: 0 <= p < |s.producers| && Holds(s.producers[p], q)
  }

  ghost function InFlight(s: State): set<int> {
    set q | 0 <= q <= s.claimed && IsHeld(s, q)
  }

  /** Published and in-flight sequences together always number `claimed + 1`. */
  lemma ClaimsAreCounted(cfg: Config, s: State)
    requires ValidConfig(cfg) && Reachable(cfg, s)
    ensures |PublishedSet(s)| + |InFlight(s)| == s.claimed + 1
  {
    ReachableIsSound(cfg, s);
    forall q
      ensures 0 <= q < s.claimed + 1 <==> q in PublishedSet(s) || q in InFlight(s)
      ensures !(q in PublishedSet(s) && q in InFlight(s))
    {
      ClaimsTile(cfg, s, q);
    }
    assert PublishedSet(s) !! InFlight(s);
    RangeSize(s.claimed + 1, PublishedSet(s) + InFlight(s));
  }

  lemma {:induction false} RangeSize(n: nat, range: set<int>)
    requires forall q :: q in range <==> 0 <= q < n
    ensures |range| == n
  {
    if n == 0 {
      assert forall q :: q !in range;
    } else {
      RangeSize(n - 1, range - {n - 1});
      assert range == (range - {n - 1}) + {n - 1};
    }
  }

  /** Claims are at most one ring ahead of every consumer, although the producers look at cached
      limits and at the last stage only. */
  lemma NoConsumerIsLapped(cfg: Config, s: State, c: nat)
    requires ValidConfig(cfg) && Reachable(cfg, s) && c < |s.consumers|
    ensures s.consumers[c].cursor <= s.claimed <= s.consumers[c].cursor + cfg.capacity
  {
    ReachableIsSound(cfg, s);
    NobodyIsLapped(cfg, s, c);
    assert ConsumerOk(cfg, s, cfg.graph.barriers[c], s.consumers[c]);
  }

  /** A step that claims `n` sequences claims no more than the ring holds and no more than are free
      right then; with a batch larger than the ring, no compare-and-exchange ever succeeds. */
  lemma ClaimsFitTheRing(cfg: Config, s: State, p: nat)
    requires ValidConfig(cfg) && Reachable(cfg, s) && Enabled(cfg, s, ByProducer(p, CompareExchange))
    ensures var n, t := s.producers[p].pc.n, Apply(cfg, s, ByProducer(p, CompareExchange));
            && (s.claimed == s.producers[p].pc.current ==>
                  && n <= cfg.capacity && t.claimed == s.claimed + n
                  && forall c :: 0 <= c < |s.consumers| ==> s.claimed + n <= s.consumers[c].cursor + cfg.capacity)
            && (n > cfg.capacity ==> t.claimed == s.claimed && t.producers[p].pc.Comparing?)
  {
    ReachableIsSound(cfg, s);
    if s.claimed == s.producers[p].pc.current {
      var t := Apply(cfg, s, ByProducer(p, CompareExchange));
      ClaimFits(cfg, s, p);
      StepKeeps(cfg, s, ByProducer(p, CompareExchange));
      forall c | 0 <= c < |s.consumers| ensures t.claimed <= s.consumers[c].cursor + cfg.capacity {
        NobodyIsLapped(cfg, t, c);
      }
    }
  }

  /** The cached limit never exceeds what the slowest watched cursor allows, so skipping the check is
      as safe as always checking. */
  lemma CachedLimitIsSafe(cfg: Config, s: State, p: nat, t: nat)
    requires ValidConfig(cfg) && Reachable(cfg, s) && p < |s.producers| && t in cfg.graph.rear
    ensures t < |s.consumers| && s.producers[p].clear <= s.consumers[t].cursor + cfg.capacity
  {
    ReachableIsSound(cfg, s);
    assert ProducerOk(cfg, s, s.producers[p]);
  }

  /** The only producer of a single-producer disruptor never finds that its claim was overtaken. */
  lemma SingleProducerNeverRetries(cfg: Config, s: State, p: nat)
    requires ValidConfig(cfg) && Reachable(cfg, s) && !cfg.multi && Enabled(cfg, s, ByProducer(p, CompareExchange))
    ensures s.claimed == s.producers[p].pc.current == s.published
  {
    ReachableIsSound(cfg, s);
    assert ProducerOk(cfg, s, s.producers[p]);
  }

  // --- the bitmap -----------------------------------------------------------------------------------

  /** For one ring of sequences beyond any consumer's cursor, the bit of a sequence is the parity of
      its round exactly when it has been published. */
  lemma ParityTellsPublished(cfg: Config, s: State, c: nat, q: int)
    requires ValidConfig(cfg) && Reachable(cfg, s) && cfg.multi && c < |s.consumers|
    requires s.consumers[c].cursor < q <= s.consumers[c].cursor + cfg.capacity
    ensures 0 < cfg.capacity == 64 * |s.words|
    ensures BitAt(s.words, q % cfg.capacity) == OddRound(q, cfg.capacity) <==> Published(s, q)
  {
    ReachableIsSound(cfg, s);
    BitmapIsExact(cfg, s, c, q);
  }

  /** The first word a scan loads decides whether the next sequence is offered: it is, exactly if it is
      published at that moment. */
  lemma FirstLoadDecides(cfg: Config, s: State, c: nat)
    requires ValidConfig(cfg) && Reachable(cfg, s) && Enabled(cfg, s, ByConsumer(c, ScanAvailability))
    requires s.consumers[c].pc.sequence == s.consumers[c].cursor + 1
    ensures var y := Apply(cfg, s, ByConsumer(c, ScanAvailability)).consumers[c];
            if Published(s, s.consumers[c].cursor + 1) then y.pc.Scanning? || y.pc.Handling?
            else y.pc == if s.consumers[c].pc.call.WaitFor? then CheckingShutdown else Resting
  {
    ReachableIsSound(cfg, s);
    FirstLoad(cfg, s, c);
    RecordsChange(cfg, s, ByConsumer(c, ScanAvailability));
  }

  lemma FirstLoad(cfg: Config, s: State, c: nat)
    requires Inv(cfg, s) && Enabled(cfg, s, ByConsumer(c, ScanAvailability))
    requires s.consumers[c].pc.sequence == s.consumers[c].cursor + 1
    ensures var y := ConsumerAfter(cfg, s, c, ScanAvailability);
            if Published(s, s.consumers[c].cursor + 1) then y.pc.Scanning? || y.pc.Handling?
            else y.pc == if s.consumers[c].pc.call.WaitFor? then CheckingShutdown else Resting
  {
    var x, y := s.consumers[c], ConsumerAfter(cfg, s, c, ScanAvailability);
    ScanLeadsTo(cfg, s, c);
    if ScanGoesFurther(cfg, s, x, y) {
      assert Published(s, x.cursor + 1);
    } else {
      var available :| ScanAnswers(s, x, y, available);
      assert available > x.cursor ==> Published(s, x.cursor + 1);
    }
  }

  /** Why a scan must start at the next unread sequence: once the slot of an older sequence has been
      claimed again, its bit shows the older one as published exactly until the newer one is. */
  lemma ReusedSlotsMisread(cfg: Config, s: State, q: int)
    requires ValidConfig(cfg) && Reachable(cfg, s) && cfg.multi
    requires 0 <= q <= s.claimed - cfg.capacity < q + cfg.capacity
    ensures 0 < cfg.capacity == 64 * |s.words| && Published(s, q)
    ensures ReadsPublished(s.words, cfg.capacity, q) <==> !Published(s, q + cfg.capacity)
  {
    ReachableIsSound(cfg, s);
    OldIsPublished(cfg, s, q);
    NextRound(s.words, cfg.capacity, q);
  }

  /** The scan's answer, from a sequence whose slot has been claimed again: it offers less than that
      sequence, which every consumer has long read, if and only if the newer one is published. */
  lemma ReusedSlotsCutScansShort(cfg: Config, s: State, q: int)
    requires ValidConfig(cfg) && Reachable(cfg, s) && cfg.multi
    requires 0 <= q <= s.claimed - cfg.capacity < q + cfg.capacity
    ensures 0 < cfg.capacity == 64 * |s.words| && AreWords(s.words)
    ensures var slot := q % cfg.capacity;
            match ScanWord(s.words[slot / 64], slot % 64, OddRound(q, cfg.capacity))
            case Some(m) => q + m - 1 < q <==> Published(s, q + cfg.capacity)
            case None => !Published(s, q + cfg.capacity)
  {
    ReachableIsSound(cfg, s);
    ReusedSlotsMisread(cfg, s, q);
    ScanReads(s.words, cfg.capacity, q);
  }

  /** What a scanning consumer may take for granted about the others: whatever step they take, the
      bitmap stays exact for its ring, published sequences stay published, and nothing appears beyond. */
  lemma OthersOnlyPublish(cfg: Config, s: State, c: nat, step: Step)
    requires ValidConfig(cfg) && Reachable(cfg, s) && cfg.multi && c < |s.consumers|
    requires Enabled(cfg, s, step) && Apply(cfg, s, step).consumers[c].cursor == s.consumers[c].cursor
    ensures var t, next := Apply(cfg, s, step), s.consumers[c].cursor + 1;
            && PublishedSet(s) <= PublishedSet(t)
            && 0 < cfg.capacity == 64 * |t.words| && Shows(t.words, cfg.capacity, next, PublishedSet(t))
  {
    ReachableIsSound(cfg, s);
    StepKeeps(cfg, s, step);
    var t := Apply(cfg, s, step);
    ShowsPublished(cfg, t, c);
    forall q | Published(s, q) ensures Published(t, q) {
      PublishedStays(cfg, s, step, q);
    }
  }

  /** And what a publishing producer may: nobody else publishes what it holds, or takes it away. */
  lemma OthersLeaveWhatIsHeld(cfg: Config, s: State, step: Step, p: nat, q: int)
    requires ValidConfig(cfg) && Reachable(cfg, s) && p < |s.producers| && Holds(s.producers[p], q)
    requires Enabled(cfg, s, step) && (step.ByProducer? ==> step.p != p)
    ensures var t := Apply(cfg, s, step);
            p < |t.producers| && t.producers[p] == s.producers[p] && !Published(t, q)
  {
    ReachableIsSound(cfg, s);
    StepKeeps(cfg, s, step);
    var t := Apply(cfg, s, step);
    OthersStayPut(cfg, s, step, p);
    HolderOwns(t, p, q);
  }

  lemma OthersStayPut(cfg: Config, s: State, step: Step, p: nat)
    requires Enabled(cfg, s, step) && p < |s.producers| && (step.ByProducer? ==> step.p != p)
    ensures p < |Apply(cfg, s, step).producers| && Apply(cfg, s, step).producers[p] == s.producers[p]
  {
  }

  lemma {:induction false} RunAdvances(cfg: Config, s: State, steps: seq<Step>)
    requires Inv(cfg, s) && IsRun(cfg, s, steps)
    ensures Inv(cfg, After(cfg, s, steps)) && Advances(s, After(cfg, s, steps))
    decreases |steps|
  {
    if steps != [] {
      StepKeeps(cfg, s, steps[0]);
      RunAdvances(cfg, Apply(cfg, s, steps[0]), steps[1..]);
    }
  }

  predicate NoneBy(steps: seq<Step>, p: nat) {
    forall i :: 0 <= i < |steps| ==> !(steps[i].ByProducer? && steps[i].p == p)
  }

  lemma {:induction false} ProducerStaysPut(cfg: Config, s: State, steps: seq<Step>, p: nat)
    requires IsRun(cfg, s, steps) && NoneBy(steps, p) && p < |s.producers|
    ensures p < |After(cfg, s, steps).producers| && After(cfg, s, steps).producers[p] == s.producers[p]
    decreases |steps|
  {
    if steps != [] {
      OthersStayPut(cfg, s, steps[0], p);
      ProducerStaysPut(cfg, Apply(cfg, s, steps[0]), steps[1..], p);
    }
  }

  lemma HeldIsInRing(cfg: Config, s: State, p: nat, c: nat, q: int)
    requires Inv(cfg, s) && p < |s.producers| && c < |s.consumers| && Holds(s.producers[p], q)
    ensures !Published(s, q) && s.consumers[c].cursor < q <= s.consumers[c].cursor + cfg.capacity
  {
    HolderOwns(s, p, q);
    NobodyIsLapped(cfg, s, c);
    assert ConsumerOk(cfg, s, cfg.graph.barriers[c], s.consumers[c]);
  }

  /** The company in which a producer publishes. Whatever runs between two of its accesses, in any order
      and for any length, and whoever has yet to publish earlier claims: judged by any consumer, the
      bitmap is exact before and after, what the producer holds stays within that consumer's ring and
      unpublished, and the consumer reads on, but not past it. */
  lemma MeanwhileForPublisher(cfg: Config, s: State, steps: seq<Step>, p: nat, c: nat)
    requires ValidConfig(cfg) && Reachable(cfg, s) && cfg.multi && IsRun(cfg, s, steps) && NoneBy(steps, p)
    requires p < |s.producers| && c < |s.consumers|
    ensures var t := After(cfg, s, steps);
            && 0 < cfg.capacity == 64 * |s.words| == 64 * |t.words|
            && c < |t.consumers| && PublishedSet(s) <= PublishedSet(t)
            && var next, next' := s.consumers[c].cursor + 1, t.consumers[c].cursor + 1;
               && Shows(s.words, cfg.capacity, next, PublishedSet(s))
               && Shows(t.words, cfg.capacity, next', PublishedSet(t))
               && next <= next'
               && forall q :: Holds(s.producers[p], q) ==> next' <= q < next + cfg.capacity && q !in PublishedSet(t)
  {
    ReachableIsSound(cfg, s);
    var t := After(cfg, s, steps);
    RunAdvances(cfg, s, steps);
    ProducerStaysPut(cfg, s, steps, p);
    ShowsPublished(cfg, s, c);
    ShowsPublished(cfg, t, c);
    forall q | Holds(s.producers[p], q)
      ensures t.consumers[c].cursor < q <= s.consumers[c].cursor + cfg.capacity && !Published(t, q)
    {
      HeldIsInRing(cfg, s, p, c, q);
      HeldIsInRing(cfg, t, p, c, q);
    }
  }

  /** The company in which a consumer scans. Whatever runs between two of its loads, the bitmap stays
      exact for the ring from its next sequence on, and nothing is taken back. */
  lemma MeanwhileForScanner(cfg: Config, s: State, steps: seq<Step>, c: nat)
    requires ValidConfig(cfg) && Reachable(cfg, s) && cfg.multi && IsRun(cfg, s, steps) && c < |s.consumers|
    requires forall i :: 0 <= i < |steps| ==> !(steps[i].ByConsumer? && steps[i].c == c)
    ensures var t := After(cfg, s, steps);
            && 0 < cfg.capacity == 64 * |s.words| == 64 * |t.words| && PublishedSet(s) <= PublishedSet(t)
            && Shows(s.words, cfg.capacity, s.consumers[c].cursor + 1, PublishedSet(s))
            && Shows(t.words, cfg.capacity, s.consumers[c].cursor + 1, PublishedSet(t))
  {
    ReachableIsSound(cfg, s);
    RunAdvances(cfg, s, steps);
    ConsumerStaysPut(cfg, s, steps, c);
    ShowsPublished(cfg, s, c);
    ShowsPublished(cfg, After(cfg, s, steps), c);
  }

  lemma {:induction false} ConsumerStaysPut(cfg: Config, s: State, steps: seq<Step>, c: nat)
    requires IsRun(cfg, s, steps) && c < |s.consumers|
    requires forall i :: 0 <= i < |steps| ==> !(steps[i].ByConsumer? && steps[i].c == c)
    ensures c < |After(cfg, s, steps).consumers| && After(cfg, s, steps).consumers[c] == s.consumers[c]
    decreases |steps|
  {
    if steps != [] {
      RecordsChange(cfg, s, steps[0]);
      ConsumerStaysPut(cfg, Apply(cfg, s, steps[0]), steps[1..], c);
    }
  }

  lemma PublishedStays(cfg: Config, s: State, step: Step, q: int)
    requires Inv(cfg, s) && Enabled(cfg, s, step) && Published(s, q)
    ensures Published(Apply(cfg, s, step), q)
  {
    StepKeeps(cfg, s, step);
  }

  // --- delivery -------------------------------------------------------------------------------------

  /** Every processor, at whatever stage, is given exactly the sequences 0, 1, 2, ... in order, each
      with the event its claimer published: its deliveries are a prefix of the publication log. */
  lemma ProcessorsReadTheLog(cfg: Config, s: State, c: nat, i: nat)
    requires ValidConfig(cfg) && Reachable(cfg, s) && c < |s.consumers|
    requires c < |cfg.poller| && !cfg.poller[c] && i < |s.consumers[c].handled|
    ensures i < |s.log| && Published(s, i)
    ensures s.consumers[c].handled[i].sequence == i && s.consumers[c].handled[i].event == s.log[i]
    ensures s.consumers[c].handled[i].endOfBatch <==> EndsBatch(s.consumers[c], i)
    ensures |s.consumers[c].handled| == NextToHandle(s.consumers[c])
  {
    ReachableIsSound(cfg, s);
    assert DeliveredOk(s, cfg.poller[c], s.consumers[c]);
    DeliveredIsPublished(cfg, s, c, i);
  }

  /** A poller, which may skip events, still reads in order, without repeats, and only what was published. */
  lemma PollersReadTheLog(cfg: Config, s: State, c: nat, i: nat)
    requires ValidConfig(cfg) && Reachable(cfg, s) && c < |s.consumers| && i < |s.consumers[c].handled|
    ensures var d := s.consumers[c].handled[i];
            && 0 <= d.sequence < |s.log| && Published(s, d.sequence) && d.event == s.log[d.sequence]
            && forall j :: 0 <= j < i ==> s.consumers[c].handled[j].sequence < d.sequence
  {
    ReachableIsSound(cfg, s);
    assert c < |cfg.poller|;
    assert DeliveredOk(s, cfg.poller[c], s.consumers[c]);
    DeliveredIsPublished(cfg, s, c, i);
  }

  /** The log is written once: from its publication on, the event of a sequence never changes, and
      before it only the producer that claimed the sequence can change it. */
  lemma {:induction false} LogIsFinal(cfg: Config, s: State, steps: seq<Step>, q: int)
    requires Inv(cfg, s) && IsRun(cfg, s, steps) && Published(s, q)
    ensures Published(After(cfg, s, steps), q)
    ensures q < |s.log| <= |After(cfg, s, steps).log| && After(cfg, s, steps).log[q] == s.log[q]
    decreases |steps|
  {
    if steps != [] {
      StepKeeps(cfg, s, steps[0]);
      PublishedStays(cfg, s, steps[0], q);
      PublishedIsFinal(cfg, s, steps[0], q);
      LogIsFinal(cfg, Apply(cfg, s, steps[0]), steps[1..], q);
    }
  }

  lemma OnlyTheClaimerWrites(cfg: Config, s: State, step: Step, q: int)
    requires ValidConfig(cfg) && Reachable(cfg, s) && Enabled(cfg, s, step) && 0 <= q < |s.log|
    ensures q < |s.owner| && q < |Apply(cfg, s, step).log|
    ensures Apply(cfg, s, step).log[q] != s.log[q] ==>
              step.ByProducer? && step.p == s.owner[q] && Holds(s.producers[step.p], q)
  {
    ReachableIsSound(cfg, s);
    LogChanges(cfg, s, step, q);
    if step.ByProducer? && Holds(s.producers[step.p], q) {
      HolderOwns(s, step.p, q);
    }
  }

  // --- stages and gates -----------------------------------------------------------------------------

  /** No consumer reads beyond the cursor of any consumer it waits for, nor beyond the largest value
      any of its gates has held, even when gates move backwards. */
  lemma StagesAreOrdered(cfg: Config, s: State, c: nat)
    requires ValidConfig(cfg) && Reachable(cfg, s) && c < |s.consumers| && c < |cfg.graph.barriers|
    ensures var b, x := cfg.graph.barriers[c], s.consumers[c];
            && x.cursor <= Horizon(x)
            && (forall q :: 0 <= q <= Horizon(x) ==> Published(s, q))
            && (b.Stage? ==>
                  && (forall d :: d in b.cursors ==> d < |s.consumers| && Horizon(x) <= s.consumers[d].cursor)
                  && (forall g :: g in b.gates ==> g < |s.gatePeaks| && Horizon(x) <= s.gatePeaks[g]))
  {
    ReachableIsSound(cfg, s);
    assert ConsumerOk(cfg, s, cfg.graph.barriers[c], s.consumers[c]);
  }

  /** The slowest consumer of the last stage is the slowest of all: what the producers watch protects
      the readers of every stage. */
  lemma RearIsSlowest(cfg: Config, s: State, d: nat) returns (t: nat)
    requires ValidConfig(cfg) && Reachable(cfg, s) && d < |s.consumers|
    ensures t in cfg.graph.rear && t < |s.consumers| && s.consumers[t].cursor <= s.consumers[d].cursor
  {
    ReachableIsSound(cfg, s);
    var stage: seq<nat>, last: nat :| Layered(cfg.graph, stage, last);
    var at := seq(|s.consumers|, i requires 0 <= i < |s.consumers| => s.consumers[i].cursor);
    forall i, e | 0 <= i < |at| && 0 <= e < |at| && cfg.graph.barriers[i].Stage? && e in cfg.graph.barriers[i].cursors
      ensures at[i] <= at[e]
    {
      assert ConsumerOk(cfg, s, cfg.graph.barriers[i], s.consumers[i]);
    }
    t := LastStageIsSlowest(cfg.graph, stage, last, at, d);
  }

  // --- shutdown -------------------------------------------------------------------------------------

  /** A consumer that has been told to stop has finished with every event ever published, no claim is
      in flight, and the shutdown sequence is the final total. */
  lemma ShutdownIsExact(cfg: Config, s: State, c: nat)
    requires ValidConfig(cfg) && Reachable(cfg, s) && c < |s.consumers| && s.consumers[c].stopped
    ensures s.consumers[c].cursor == s.claimed && s.refCount == 0
    ensures forall p, q :: 0 <= p < |s.producers| ==> !Holds(s.producers[p], q)
    ensures forall q :: 0 <= q <= s.claimed ==> Published(s, q)
    ensures c < |cfg.poller| && (!cfg.poller[c] ==> |s.consumers[c].handled| == s.claimed + 1)
  {
    ReachableIsSound(cfg, s);
    NoneInFlight(cfg, s);
    assert ConsumerOk(cfg, s, cfg.graph.barriers[c], s.consumers[c]);
    assert DeliveredOk(s, cfg.poller[c], s.consumers[c]);
  }

  lemma NoneInFlight(cfg: Config, s: State)
    requires Sound(cfg, s) && s.refCount == 0
    ensures forall p, q :: 0 <= p < |s.producers| ==> !Holds(s.producers[p], q)
    ensures forall q :: 0 <= q <= s.claimed ==> Published(s, q)
  {
    forall p | 0 <= p < |s.producers| ensures !Live(s.producers[p]) {
      if Live(s.producers[p]) {
        LiveIsCounted(s.producers, p);
      }
    }
  }

  lemma TotalStays(cfg: Config, s: State, step: Step)
    requires Sound(cfg, s) && s.refCount == 0 && Enabled(cfg, s, step)
    ensures Apply(cfg, s, step).claimed == s.claimed && Apply(cfg, s, step).refCount == 0
  {
    if step.ByProducer? && Live(s.producers[step.p]) {
      LiveIsCounted(s.producers, step.p);
    }
  }

  /** Once the last handle is gone, the total never changes again, and the shutdown sequence, once
      stored, is that total for ever. */
  lemma {:induction false} TotalIsFinal(cfg: Config, s: State, steps: seq<Step>)
    requires Sound(cfg, s) && s.refCount == 0 && IsRun(cfg, s, steps)
    ensures After(cfg, s, steps).claimed == s.claimed && After(cfg, s, steps).refCount == 0
    ensures After(cfg, s, steps).shutdown in {-1, s.claimed + 1}
    decreases |steps|
  {
    if steps != [] {
      TotalStays(cfg, s, steps[0]);
      StepIsSound(cfg, s, steps[0]);
      TotalIsFinal(cfg, Apply(cfg, s, steps[0]), steps[1..]);
    }
  }

  /** While any handle is live, nobody is told to stop. */
  lemma NoEarlyShutdown(cfg: Config, s: State, p: nat)
    requires ValidConfig(cfg) && Reachable(cfg, s) && p < |s.producers| && Live(s.producers[p])
    ensures s.shutdown == -1 && forall c :: 0 <= c < |s.consumers| ==> !s.consumers[c].stopped
  {
    ReachableIsSound(cfg, s);
    LiveIsCounted(s.producers, p);
  }
}
