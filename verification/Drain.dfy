/** Draining after shutdown: the consumers can always finish every event and stop, and no run keeps
    them busy for longer than there are events left. */
module Drain {
  import opened Wiring
  import opened Protocol
  import opened Invariant
  import opened Delivery
  import opened Safety
  import opened Progress

  // --- what is left to do ---------------------------------------------------------------------------

  /** How many events the given consumers have yet to finish with, all together. */
  function Lag(consumers: seq<Consumer>, total: int): int {
    if consumers == [] then 0 else total - consumers[0].cursor + Lag(consumers[1..], total)
  }

  lemma {:induction false} LagUpdated(consumers: seq<Consumer>, total: int, c: nat, y: Consumer)
    requires c < |consumers|
    ensures Lag(consumers[c := y], total) == Lag(consumers, total) + consumers[c].cursor - y.cursor
  {
    if c == 0 {
      assert consumers[c := y][1..] == consumers[1..];
    } else {
      LagUpdated(consumers[1..], total, c - 1, y);
      assert consumers[c := y][1..] == consumers[1..][c - 1 := y];
    }
  }

  lemma {:induction false} LagIsNatural(consumers: seq<Consumer>, total: int)
    requires forall c :: 0 <= c < |consumers| ==> consumers[c].cursor <= total
    ensures Lag(consumers, total) >= 0
  {
    if consumers != [] {
      LagIsNatural(consumers[1..], total);
    }
  }

  /** Does the step store a cursor that moves? */
  predicate FinishesEvents(s: State, step: Step) {
    && step.ByConsumer? && step.consumerAction.StoreCursor? && step.c < |s.consumers|
    && s.consumers[step.c].pc.Handling? && s.consumers[step.c].pc.available > s.consumers[step.c].cursor
  }

  function CountFinishing(cfg: Config, s: State, steps: seq<Step>): nat
    requires IsRun(cfg, s, steps)
    decreases |steps|
  {
    if steps == [] then 0
    else (if FinishesEvents(s, steps[0]) then 1 else 0) + CountFinishing(cfg, Apply(cfg, s, steps[0]), steps[1..])
  }

  lemma BelowTotal(cfg: Config, s: State)
    requires Inv(cfg, s)
    ensures forall c :: 0 <= c < |s.consumers| ==> s.consumers[c].cursor <= s.claimed
  {
    forall c | 0 <= c < |s.consumers| ensures s.consumers[c].cursor <= s.claimed {
      assert ConsumerOk(cfg, s, cfg.graph.barriers[c], s.consumers[c]);
    }
  }

  lemma LagFalls(cfg: Config, s: State, step: Step)
    requires Inv(cfg, s) && Enabled(cfg, s, step)
    ensures Lag(Apply(cfg, s, step).consumers, s.claimed) + (if FinishesEvents(s, step) then 1 else 0)
         <= Lag(s.consumers, s.claimed)
  {
    RecordsChange(cfg, s, step);
    if step.ByConsumer? {
      CursorMoves(cfg, s, step.c, step.consumerAction);
      LagUpdated(s.consumers, s.claimed, step.c, ConsumerAfter(cfg, s, step.c, step.consumerAction));
    }
  }

  /** Only storing moves a cursor, and only forwards. */
  lemma CursorMoves(cfg: Config, s: State, c: nat, action: ConsumerAction)
    requires Inv(cfg, s) && Enabled(cfg, s, ByConsumer(c, action))
    ensures s.consumers[c].cursor + (if FinishesEvents(s, ByConsumer(c, action)) then 1 else 0)
         <= ConsumerAfter(cfg, s, c, action).cursor
  {
    if action.StoreCursor? {
      assert ConsumerOk(cfg, s, cfg.graph.barriers[c], s.consumers[c]);
    }
  }

  /** Once the last handle is gone, every run contains at most as many non-empty batches as there are
      events left: each of them strictly lowers what is left and no other step raises it. */
  lemma {:induction false} BatchesAreBounded(cfg: Config, s: State, steps: seq<Step>)
    requires Sound(cfg, s) && s.refCount == 0 && IsRun(cfg, s, steps)
    ensures CountFinishing(cfg, s, steps) + Lag(After(cfg, s, steps).consumers, s.claimed) <= Lag(s.consumers, s.claimed)
    ensures Lag(After(cfg, s, steps).consumers, s.claimed) >= 0
    decreases |steps|
  {
    if steps == [] {
      BelowTotal(cfg, s);
      LagIsNatural(s.consumers, s.claimed);
    } else {
      var t := Apply(cfg, s, steps[0]);
      StepIsSound(cfg, s, steps[0]);
      TotalStays(cfg, s, steps[0]);
      LagFalls(cfg, s, steps[0]);
      BatchesAreBounded(cfg, t, steps[1..]);
    }
  }

  // --- the consumers can always finish --------------------------------------------------------------

  /** Consumers `0..k` are between two calls. */
  ghost predicate Rested(s: State, k: nat) {
    forall c :: 0 <= c < k && c < |s.consumers| ==> s.consumers[c].pc == Resting
  }

  /** Only consumers differ, and there are as many. */
  ghost predicate OnlyConsumers(s: State, t: State) {
    t == s.(consumers := t.consumers) && |t.consumers| == |s.consumers|
  }

  /** From wherever it is, a consumer alone gets back between two calls. */
  lemma Settle(cfg: Config, s: State, c: nat) returns (t: State)
    requires Reached(cfg, s) && c < |s.consumers|
    ensures Leads(cfg, Consumers, s, t) && Reached(cfg, t) && Solo(s, t, c)
    ensures t.consumers[c].pc == Resting
  {
    LeadsNowhere(cfg, Consumers, s);
    t := s;
    if t.consumers[c].pc.CheckingFirst? {
      FirstIsEnabled(cfg, s, c);
      t := OneStep(cfg, s, c, CheckShutdownFirst);
    }
    if t.consumers[c].pc.Scanning? || t.consumers[c].pc.ReadingMin? || t.consumers[c].pc.LoadingPublished? {
      var u, available := BarrierAnswers(cfg, t, c, t.consumers[c].pc.call, 0);
      ThenAlone(cfg, s, t, u, c);
      t := u;
    }
    if t.consumers[c].pc.Handling? {
      var u := FinishBatch(cfg, t, c);
      ThenAlone(cfg, s, t, u, c);
      t := u;
    } else if t.consumers[c].pc.CheckingShutdown? {
      var u := CheckForShutdown(cfg, t, c);
      ThenAlone(cfg, s, t, u, c);
      t := u;
    }
  }

  lemma FirstIsEnabled(cfg: Config, s: State, c: nat)
    requires Reached(cfg, s) && c < |s.consumers| && s.consumers[c].pc.CheckingFirst?
    ensures Enabled(cfg, s, ByConsumer(c, CheckShutdownFirst))
  {
    ReachableIsSound(cfg, s);
  }

  lemma CheckForShutdown(cfg: Config, s: State, c: nat) returns (t: State)
    requires Reached(cfg, s) && c < |s.consumers| && s.consumers[c].pc.CheckingShutdown?
    ensures Leads(cfg, Consumers, s, t) && Reached(cfg, t) && Solo(s, t, c)
    ensures t.consumers[c]
         == s.consumers[c].(pc := Resting, stopped := s.consumers[c].stopped || s.shutdown == s.consumers[c].cursor + 1)
  {
    ReachableIsSound(cfg, s);
    t := OneStep(cfg, s, c, CheckShutdown);
  }

  lemma {:induction false} SettleFirst(cfg: Config, s: State, k: nat) returns (t: State)
    requires Reached(cfg, s) && k <= |s.consumers|
    ensures Leads(cfg, Consumers, s, t) && Reached(cfg, t) && OnlyConsumers(s, t) && Rested(t, k)
  {
    if k == 0 {
      LeadsNowhere(cfg, Consumers, s);
      t := s;
    } else {
      var u := SettleFirst(cfg, s, k - 1);
      t := Settle(cfg, u, k - 1);
      LeadsOn(cfg, Consumers, s, u, t);
    }
  }

  /** The shutdown sequence is stored, and all gates are open. */
  ghost predicate Draining(s: State) {
    s.shutdown != -1 && GatesOpen(s)
  }

  /** Everything claimed is published, and all gates are open. */
  ghost predicate Settled(s: State) {
    GatesOpen(s) && forall q :: 0 <= q <= s.claimed ==> Published(s, q)
  }

  /** With everything settled, the consumer furthest upstream of those behind can read on. */
  lemma SomebodyCanDrain(cfg: Config, s: State, c0: nat) returns (c: nat)
    requires Reached(cfg, s) && Settled(s) && c0 < |s.consumers| && s.consumers[c0].cursor < s.claimed
    ensures c < |s.consumers| && c < |cfg.graph.barriers| && s.consumers[c].cursor < s.claimed
    ensures !s.consumers[c].stopped && CanRead(cfg, s, c)
  {
    ReachableIsSound(cfg, s);
    var stage: seq<nat>, last: nat :| Layered(cfg.graph, stage, last);
    c := SomebodyCanRead(cfg, s, stage, last, c0);
  }

  lemma CursorsAreBelow(cfg: Config, s: State)
    requires Reached(cfg, s)
    ensures forall c :: 0 <= c < |s.consumers| ==> s.consumers[c].cursor <= s.claimed
  {
    ReachableIsSound(cfg, s);
    BelowTotal(cfg, s);
  }

  lemma StaysSettled(s: State, t: State)
    requires Settled(s) && OnlyConsumers(s, t)
    ensures Settled(t)
  {
    forall q | 0 <= q <= t.claimed ensures Published(t, q) {
      SamePublished(s, t, q);
    }
  }

  /** With everything settled, the consumers alone can read all of it. */
  lemma {:induction false} CatchUp(cfg: Config, s: State) returns (t: State)
    requires Reached(cfg, s) && Settled(s) && Rested(s, |s.consumers|)
    ensures Leads(cfg, Consumers, s, t) && Reached(cfg, t) && OnlyConsumers(s, t) && Rested(t, |t.consumers|)
    ensures forall c :: 0 <= c < |t.consumers| ==> t.consumers[c].cursor == t.claimed
    decreases Lag(s.consumers, s.claimed)
  {
    CursorsAreBelow(cfg, s);
    if exists c0 :: 0 <= c0 < |s.consumers| && s.consumers[c0].cursor < s.claimed {
      var c0 :| 0 <= c0 < |s.consumers| && s.consumers[c0].cursor < s.claimed;
      var c := SomebodyCanDrain(cfg, s, c0);
      var u := Advance(cfg, s, c);
      StaysSettled(s, u);
      LagUpdated(s.consumers, s.claimed, c, u.consumers[c]);
      CursorsAreBelow(cfg, u);
      LagIsNatural(u.consumers, u.claimed);
      t := CatchUp(cfg, u);
      LeadsOn(cfg, Consumers, s, u, t);
    } else {
      LeadsNowhere(cfg, Consumers, s);
      t := s;
    }
  }

  /** A consumer that has finished everything is told to stop. */
  lemma Stop(cfg: Config, s: State, c: nat) returns (t: State)
    requires Reached(cfg, s) && Draining(s) && c < |s.consumers|
    requires s.consumers[c].pc == Resting && s.consumers[c].cursor == s.claimed
    ensures Leads(cfg, Consumers, s, t) && Reached(cfg, t) && Solo(s, t, c)
    ensures t.consumers[c] == s.consumers[c].(stopped := true)
  {
    if s.consumers[c].stopped {
      LeadsNowhere(cfg, Consumers, s);
      t := s;
    } else {
      var u, available := BarrierOffers(cfg, s, c);
      NothingBeyond(cfg, u, c);
      t := CheckForShutdown(cfg, u, c);
      TotalIsStored(cfg, s);
      ThenAlone(cfg, s, u, t, c);
    }
  }

  lemma NothingBeyond(cfg: Config, s: State, c: nat)
    requires Reached(cfg, s) && c < |s.consumers| && s.consumers[c].cursor == s.claimed
    ensures s.consumers[c].pc.Handling? ==> s.consumers[c].pc.available <= s.consumers[c].cursor
  {
    ReachableIsSound(cfg, s);
    assert ConsumerOk(cfg, s, cfg.graph.barriers[c], s.consumers[c]);
  }

  lemma TotalIsStored(cfg: Config, s: State)
    requires Reached(cfg, s) && s.shutdown != -1
    ensures s.shutdown == s.claimed + 1 && s.refCount == 0
  {
    ReachableIsSound(cfg, s);
  }

  lemma {:induction false} StopFirst(cfg: Config, s: State, k: nat) returns (t: State)
    requires Reached(cfg, s) && Draining(s) && Rested(s, |s.consumers|) && k <= |s.consumers|
    requires forall c :: 0 <= c < |s.consumers| ==> s.consumers[c].cursor == s.claimed
    ensures Leads(cfg, Consumers, s, t) && Reached(cfg, t) && OnlyConsumers(s, t) && Rested(t, |t.consumers|)
    ensures forall c :: 0 <= c < |t.consumers| ==> t.consumers[c].cursor == t.claimed
    ensures forall c :: 0 <= c < k ==> t.consumers[c].stopped
  {
    if k == 0 {
      LeadsNowhere(cfg, Consumers, s);
      t := s;
    } else {
      var u := StopFirst(cfg, s, k - 1);
      t := Stop(cfg, u, k - 1);
      LeadsOn(cfg, Consumers, s, u, t);
    }
  }

  lemma SettledIsDraining(cfg: Config, s: State)
    requires Reached(cfg, s) && Draining(s)
    ensures Settled(s)
  {
    ReachableIsSound(cfg, s);
    NoneInFlight(cfg, s);
  }

  /** From every reachable state in which the shutdown sequence is stored and the gates are open, the
      consumers alone can get to a state where each of them has finished every published event and has
      been told to stop: no reachable state is stuck. */
  lemma DrainCompletes(cfg: Config, s: State) returns (t: State)
    requires ValidConfig(cfg) && Reachable(cfg, s) && s.shutdown != -1 && GatesOpen(s)
    ensures Leads(cfg, Consumers, s, t) && Reachable(cfg, t) && OnlyConsumers(s, t)
    ensures forall c :: 0 <= c < |t.consumers| ==>
              && t.consumers[c].stopped && t.consumers[c].cursor == s.claimed
              && (c < |cfg.poller| && !cfg.poller[c] ==> |t.consumers[c].handled| == s.claimed + 1)
  {
    var a := SettleFirst(cfg, s, |s.consumers|);
    SettledIsDraining(cfg, a);
    var b := CatchUp(cfg, a);
    t := StopFirst(cfg, b, |b.consumers|);
    LeadsOn(cfg, Consumers, s, a, b);
    LeadsOn(cfg, Consumers, s, b, t);
    forall c | 0 <= c < |t.consumers| && c < |cfg.poller| && !cfg.poller[c]
      ensures |t.consumers[c].handled| == s.claimed + 1
    {
      ShutdownIsExact(cfg, t, c);
    }
  }

  /** After the last handle is dropped, its producer can always go on to store the shutdown sequence. */
  lemma ShutdownIsUnderway(cfg: Config, s: State)
    requires ValidConfig(cfg) && Reachable(cfg, s) && s.refCount == 0 && s.shutdown == -1
    ensures exists p :: Enabled(cfg, s, ByProducer(p, LoadTotal)) || Enabled(cfg, s, ByProducer(p, StoreShutdown))
  {
    ReachableIsSound(cfg, s);
    var p :| 0 <= p < |s.producers| && IsLast(s.producers[p]);
    assert Enabled(cfg, s, ByProducer(p, LoadTotal)) || Enabled(cfg, s, ByProducer(p, StoreShutdown));
  }
}
