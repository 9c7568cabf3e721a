/** What consumers are given, and when they are told to stop. */
module Delivery {
  import opened Protocol
  import opened Invariant
  import opened Preservation

  // --- deliveries -----------------------------------------------------------------------------------

  /** The next sequence the handler of `x` will be given. */
  function NextToHandle(x: Consumer): int {
    if x.pc.Handling? then x.pc.next else x.cursor + 1
  }

  /** Is `q` the end of a batch: stored in the cursor, or about to be? */
  predicate EndsBatch(x: Consumer, q: int) {
    q in x.stored || (x.pc.Handling? && q == x.pc.available)
  }

  /** The deliveries of `x` are in order, carry the logged events, and mark exactly the batch ends. */
  ghost predicate DeliveredOk(s: State, poller: bool, x: Consumer) {
    && (forall i :: 0 <= i < |x.handled| ==>
          var d := x.handled[i];
          && 0 <= d.sequence < NextToHandle(x) && d.sequence < |s.log|
          && d.event == s.log[d.sequence]
          && (d.endOfBatch <==> EndsBatch(x, d.sequence)))
    && (forall i, j :: 0 <= i < j < |x.handled| ==> x.handled[i].sequence < x.handled[j].sequence)
    && (forall q :: q in x.stored ==> q <= x.cursor)
    && (x.cursor == -1 || x.cursor in x.stored)
    && (!poller ==>
          && |x.handled| == NextToHandle(x)
          && forall i :: 0 <= i < |x.handled| ==> x.handled[i].sequence == i)
  }

  ghost predicate AllDelivered(cfg: Config, s: State) {
    && |cfg.poller| == |s.consumers|
    && forall c :: 0 <= c < |s.consumers| ==> DeliveredOk(s, cfg.poller[c], s.consumers[c])
  }

  /** The only step that changes a logged event is a write by its holder. */
  lemma LogChanges(cfg: Config, s: State, step: Step, q: int)
    requires Enabled(cfg, s, step) && 0 <= q < |s.log|
    ensures |s.log| <= |Apply(cfg, s, step).log|
    ensures Apply(cfg, s, step).log[q] != s.log[q] ==> step.ByProducer? && Holds(s.producers[step.p], q)
  {
    if step.ByProducer? && step.producerAction.CompareExchange? {
      assert s.log <= Apply(cfg, s, step).log;
    }
  }

  /** The event of a published sequence is final. */
  lemma PublishedIsFinal(cfg: Config, s: State, step: Step, q: int)
    requires Inv(cfg, s) && Enabled(cfg, s, step) && Published(s, q)
    ensures q < |s.log| <= |Apply(cfg, s, step).log|
    ensures Apply(cfg, s, step).log[q] == s.log[q]
  {
    LogChanges(cfg, s, step, q);
    if step.ByProducer? && Holds(s.producers[step.p], q) {
      HolderOwns(s, step.p, q);
    }
  }

  /** The events delivered to `x` are those of published sequences. */
  lemma DeliveredIsPublished(cfg: Config, s: State, c: nat, i: nat)
    requires Inv(cfg, s) && AllDelivered(cfg, s) && c < |s.consumers| && i < |s.consumers[c].handled|
    ensures Published(s, s.consumers[c].handled[i].sequence)
  {
    var x := s.consumers[c];
    assert ConsumerOk(cfg, s, cfg.graph.barriers[c], x);
    assert DeliveredOk(s, cfg.poller[c], x);
    assert x.handled[i].sequence <= Horizon(x);
  }

  lemma HandleDelivers(cfg: Config, s: State, c: nat)
    requires Inv(cfg, s) && AllDelivered(cfg, s) && Enabled(cfg, s, ByConsumer(c, Handle))
    ensures DeliveredOk(s, cfg.poller[c], ConsumerAfter(cfg, s, c, Handle))
  {
    var x := s.consumers[c];
    assert ConsumerOk(cfg, s, cfg.graph.barriers[c], x);
    assert DeliveredOk(s, cfg.poller[c], x);
    NobodyIsLapped(cfg, s, c);
    assert s.slots[x.pc.next % cfg.capacity] == s.log[x.pc.next];
    var y := ConsumerAfter(cfg, s, c, Handle);
    forall i | 0 <= i < |y.handled|
      ensures var d := y.handled[i];
              && 0 <= d.sequence < NextToHandle(y) && d.sequence < |s.log|
              && d.event == s.log[d.sequence] && (d.endOfBatch <==> EndsBatch(y, d.sequence))
    {
      if i < |x.handled| {
        assert y.handled[i] == x.handled[i];
      }
    }
  }

  /** A consumer that is between batches, and may start one, is given nothing yet. */
  lemma BetweenBatches(s: State, poller: bool, x: Consumer, y: Consumer)
    requires DeliveredOk(s, poller, x) && !x.pc.Handling?
    requires y.handled == x.handled && y.stored == x.stored && y.cursor == x.cursor
    requires y.pc.Handling? ==> y.pc.next == y.cursor + 1 && y.pc.available >= y.cursor
    ensures DeliveredOk(s, poller, y)
  {
    forall i | 0 <= i < |x.handled|
      ensures EndsBatch(x, x.handled[i].sequence) <==> EndsBatch(y, y.handled[i].sequence)
    {
    }
  }

  lemma StoreDelivers(cfg: Config, s: State, c: nat)
    requires Inv(cfg, s) && AllDelivered(cfg, s) && Enabled(cfg, s, ByConsumer(c, StoreCursor))
    ensures DeliveredOk(s, cfg.poller[c], ConsumerAfter(cfg, s, c, StoreCursor))
  {
    var x := s.consumers[c];
    assert ConsumerOk(cfg, s, cfg.graph.barriers[c], x);
    assert DeliveredOk(s, cfg.poller[c], x);
  }

  /** Every other step of a consumer happens between batches and delivers nothing. */
  lemma OtherStepsDeliverNothing(cfg: Config, s: State, c: nat, action: ConsumerAction)
    requires Enabled(cfg, s, ByConsumer(c, action)) && !action.Handle? && !action.StoreCursor?
    ensures var x, y := s.consumers[c], ConsumerAfter(cfg, s, c, action);
            && !x.pc.Handling?
            && y.handled == x.handled && y.stored == x.stored && y.cursor == x.cursor
            && (y.pc.Handling? ==> y.pc.next == y.cursor + 1 && y.pc.available >= y.cursor)
  {
  }

  lemma ConsumerDelivers(cfg: Config, s: State, c: nat, action: ConsumerAction)
    requires Inv(cfg, s) && AllDelivered(cfg, s) && Enabled(cfg, s, ByConsumer(c, action))
    ensures DeliveredOk(s, cfg.poller[c], ConsumerAfter(cfg, s, c, action))
  {
    var x := s.consumers[c];
    assert DeliveredOk(s, cfg.poller[c], x);
    if action.Handle? {
      HandleDelivers(cfg, s, c);
    } else if action.StoreCursor? {
      StoreDelivers(cfg, s, c);
    } else {
      OtherStepsDeliverNothing(cfg, s, c, action);
      BetweenBatches(s, cfg.poller[c], x, ConsumerAfter(cfg, s, c, action));
    }
  }

  lemma OthersKeepTheirs(cfg: Config, s: State, step: Step, c: nat)
    requires Inv(cfg, s) && AllDelivered(cfg, s) && Enabled(cfg, s, step) && c < |s.consumers|
    ensures forall i :: 0 <= i < |s.consumers[c].handled| ==>
              && s.consumers[c].handled[i].sequence < |Apply(cfg, s, step).log|
              && Apply(cfg, s, step).log[s.consumers[c].handled[i].sequence] == s.consumers[c].handled[i].event
  {
    assert DeliveredOk(s, cfg.poller[c], s.consumers[c]);
    forall i | 0 <= i < |s.consumers[c].handled|
      ensures s.consumers[c].handled[i].sequence < |Apply(cfg, s, step).log|
      ensures Apply(cfg, s, step).log[s.consumers[c].handled[i].sequence] == s.consumers[c].handled[i].event
    {
      DeliveredIsPublished(cfg, s, c, i);
      PublishedIsFinal(cfg, s, step, s.consumers[c].handled[i].sequence);
    }
  }

  /** A step changes one consumer's record, or none. */
  lemma RecordsChange(cfg: Config, s: State, step: Step)
    requires Enabled(cfg, s, step)
    ensures var t := Apply(cfg, s, step);
            if step.ByConsumer? then
              && t == s.(consumers := s.consumers[step.c := ConsumerAfter(cfg, s, step.c, step.consumerAction)])
            else t.consumers == s.consumers
  {
  }

  lemma StepDelivers(cfg: Config, s: State, step: Step)
    requires Inv(cfg, s) && AllDelivered(cfg, s) && Enabled(cfg, s, step)
    ensures AllDelivered(cfg, Apply(cfg, s, step))
  {
    var t := Apply(cfg, s, step);
    RecordsChange(cfg, s, step);
    forall c | 0 <= c < |t.consumers| ensures DeliveredOk(t, cfg.poller[c], t.consumers[c]) {
      assert DeliveredOk(s, cfg.poller[c], s.consumers[c]);
      if step.ByConsumer? && step.c == c {
        ConsumerDelivers(cfg, s, c, step.consumerAction);
      } else {
        OthersKeepTheirs(cfg, s, step, c);
      }
    }
  }

  // --- reference count and shutdown -----------------------------------------------------------------

  predicate Live(x: Producer) {
    !x.pc.LoadingTotal? && !x.pc.StoringShutdown? && !x.pc.Dropped?
  }

  function CountLive(producers: seq<Producer>): nat {
    if producers == [] then 0 else (if Live(producers[0]) then 1 else 0) + CountLive(producers[1..])
  }

  lemma {:induction false} CountUpdated(producers: seq<Producer>, p: nat, y: Producer)
    requires p < |producers|
    ensures CountLive(producers[p := y])
         == CountLive(producers) - (if Live(producers[p]) then 1 else 0) + (if Live(y) then 1 else 0)
  {
    if p == 0 {
      assert producers[p := y][1..] == producers[1..];
    } else {
      CountUpdated(producers[1..], p - 1, y);
      assert producers[p := y][1..] == producers[1..][p - 1 := y];
    }
  }

  lemma {:induction false} CountAppended(producers: seq<Producer>, y: Producer)
    ensures CountLive(producers + [y]) == CountLive(producers) + (if Live(y) then 1 else 0)
  {
    if producers == [] {
      assert producers + [y] == [y];
      assert CountLive([y][1..]) == 0;
    } else {
      CountAppended(producers[1..], y);
      assert (producers + [y])[1..] == producers[1..] + [y];
    }
  }

  lemma {:induction false} LiveIsCounted(producers: seq<Producer>, p: nat)
    requires p < |producers| && Live(producers[p])
    ensures CountLive(producers) > 0
  {
    if p > 0 {
      LiveIsCounted(producers[1..], p - 1);
    }
  }

  /** The producer that dropped the last handle and has yet to store the shutdown sequence. */
  predicate IsLast(x: Producer) {
    x.pc.LoadingTotal? || x.pc.StoringShutdown?
  }

  /** The reference count is the number of live handles; once it is zero the total is fixed, and only
      that total is ever stored as the shutdown sequence. */
  ghost predicate RefsOk(s: State) {
    && s.refCount == CountLive(s.producers)
    && (forall p :: 0 <= p < |s.producers| ==>
          && (s.producers[p].pc.LoadingTotal? ==> s.refCount == 0)
          && (s.producers[p].pc.StoringShutdown? ==> s.refCount == 0 && s.producers[p].pc.total == s.claimed + 1))
    && (s.shutdown == -1 || (s.refCount == 0 && s.shutdown == s.claimed + 1))
    && (s.refCount == 0 && s.shutdown == -1 ==>
          exists p :: 0 <= p < |s.producers| && IsLast(s.producers[p]))
    && (forall c :: 0 <= c < |s.consumers| && s.consumers[c].stopped ==>
          s.refCount == 0 && s.consumers[c].cursor == s.claimed)
  }

  lemma StepCounts(cfg: Config, s: State, step: Step)
    requires Inv(cfg, s) && RefsOk(s) && Enabled(cfg, s, step)
    ensures RefsOk(Apply(cfg, s, step))
  {
    match step
    case SetGate(_, _) =>
    case ByConsumer(c, action) => ConsumerCounts(cfg, s, c, action);
    case ByProducer(p, action) => ProducerCounts(cfg, s, p, action);
  }

  lemma ConsumerCounts(cfg: Config, s: State, c: nat, action: ConsumerAction)
    requires Inv(cfg, s) && RefsOk(s) && Enabled(cfg, s, ByConsumer(c, action))
    ensures RefsOk(Apply(cfg, s, ByConsumer(c, action)))
  {
    var t := Apply(cfg, s, ByConsumer(c, action));
    ConsumerKeeps(cfg, s, c, action);
    assert ConsumerOk(cfg, s, cfg.graph.barriers[c], s.consumers[c]);
    assert ConsumerOk(cfg, s, cfg.graph.barriers[c], t.consumers[c]);
  }

  lemma ProducerCounts(cfg: Config, s: State, p: nat, action: ProducerAction)
    requires Inv(cfg, s) && RefsOk(s) && Enabled(cfg, s, ByProducer(p, action))
    ensures RefsOk(Apply(cfg, s, ByProducer(p, action)))
  {
    match action
    case Clone => CloneCounts(cfg, s, p);
    case Release => ReleaseCounts(cfg, s, p);
    case LoadTotal => LastCounts(cfg, s, p, action);
    case StoreShutdown => LastCounts(cfg, s, p, action);
    case _ => WorkCounts(cfg, s, p, action);
  }

  lemma CloneCounts(cfg: Config, s: State, p: nat)
    requires Inv(cfg, s) && RefsOk(s) && Enabled(cfg, s, ByProducer(p, Clone))
    ensures RefsOk(Apply(cfg, s, ByProducer(p, Clone)))
  {
    LiveIsCounted(s.producers, p);
    CountAppended(s.producers, Producer(Idle, 0));
  }

  lemma ReleaseCounts(cfg: Config, s: State, p: nat)
    requires Inv(cfg, s) && RefsOk(s) && Enabled(cfg, s, ByProducer(p, Release))
    ensures RefsOk(Apply(cfg, s, ByProducer(p, Release)))
  {
    var t := ApplyProducer(cfg, s, p, Release);
    LiveIsCounted(s.producers, p);
    CountUpdated(s.producers, p, t.producers[p]);
    assert s.refCount == 1 ==> IsLast(t.producers[p]);
  }

  /** The last producer stores the total. */
  lemma LastCounts(cfg: Config, s: State, p: nat, action: ProducerAction)
    requires Inv(cfg, s) && RefsOk(s) && Enabled(cfg, s, ByProducer(p, action))
    requires action.LoadTotal? || action.StoreShutdown?
    ensures RefsOk(Apply(cfg, s, ByProducer(p, action)))
  {
    var t := ApplyProducer(cfg, s, p, action);
    CountUpdated(s.producers, p, t.producers[p]);
    assert action.LoadTotal? ==> IsLast(t.producers[p]);
  }

  /** Claiming, writing and publishing are for live handles, and leave them live. */
  lemma WorkCounts(cfg: Config, s: State, p: nat, action: ProducerAction)
    requires Inv(cfg, s) && RefsOk(s) && Enabled(cfg, s, ByProducer(p, action))
    requires !action.Clone? && !action.Release? && !action.LoadTotal? && !action.StoreShutdown?
    ensures RefsOk(Apply(cfg, s, ByProducer(p, action)))
  {
    var t := ApplyProducer(cfg, s, p, action);
    WorkIsLive(cfg, s, p, action);
    LiveIsCounted(s.producers, p);
    CountUpdated(s.producers, p, t.producers[p]);
  }

  lemma WorkIsLive(cfg: Config, s: State, p: nat, action: ProducerAction)
    requires Enabled(cfg, s, ByProducer(p, action))
    requires !action.Clone? && !action.Release? && !action.LoadTotal? && !action.StoreShutdown?
    ensures var t := ApplyProducer(cfg, s, p, action);
            && Live(s.producers[p]) && |t.producers| == |s.producers| && Live(t.producers[p])
            && t.producers == s.producers[p := t.producers[p]]
            && t.refCount == s.refCount && t.shutdown == s.shutdown && t.consumers == s.consumers
  {
  }

  // --- both, over runs ------------------------------------------------------------------------------

  ghost predicate Sound(cfg: Config, s: State) {
    Inv(cfg, s) && AllDelivered(cfg, s) && RefsOk(s)
  }

  lemma InitIsSound(cfg: Config, s: State)
    requires ValidConfig(cfg) && IsInitial(cfg, s)
    ensures Sound(cfg, s)
  {
    InitEstablishes(cfg, s);
    assert CountLive(s.producers[1..]) == 0;
  }

  lemma StepIsSound(cfg: Config, s: State, step: Step)
    requires Sound(cfg, s) && Enabled(cfg, s, step)
    ensures Sound(cfg, Apply(cfg, s, step))
  {
    StepKeeps(cfg, s, step);
    StepDelivers(cfg, s, step);
    StepCounts(cfg, s, step);
  }

  lemma {:induction false} RunIsSound(cfg: Config, s: State, steps: seq<Step>)
    requires Sound(cfg, s) && IsRun(cfg, s, steps)
    ensures Sound(cfg, After(cfg, s, steps))
    decreases |steps|
  {
    if steps != [] {
      StepIsSound(cfg, s, steps[0]);
      RunIsSound(cfg, Apply(cfg, s, steps[0]), steps[1..]);
    }
  }

  /** Every reachable state is sound. */
  lemma ReachableIsSound(cfg: Config, s: State)
    requires ValidConfig(cfg) && Reachable(cfg, s)
    ensures Sound(cfg, s)
  {
    var start: State, steps: seq<Step> :| IsInitial(cfg, start) && IsRun(cfg, start, steps) && After(cfg, start, steps) == s;
    InitIsSound(cfg, start);
    RunIsSound(cfg, start, steps);
  }
}
