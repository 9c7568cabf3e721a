/** Producers competing for the ring: whoever wants to claim can be served, and whoever loses a race has
    lost it to somebody who won. */
module Contention {
  import opened Protocol
  import opened Delivery
  import opened Progress
  import opened Drain

  // --- every claim can be granted -------------------------------------------------------------------

  predicate HoldsNothing(x: Producer) {
    !x.pc.Writing? && !x.pc.Publishing?
  }

  lemma Among(cfg: Config, who: Who, p: nat, s: State, t: State)
    requires Leads(cfg, who, s, t) && (who.TheProducer? ==> who.p != p) && (who.AllBut? ==> who.p == p)
    ensures Leads(cfg, AllBut(p), s, t)
  {
    var steps :| OnlyBy(who, steps) && IsRun(cfg, s, steps) && After(cfg, s, steps) == t;
    forall i | 0 <= i < |steps| ensures IsBy(AllBut(p), steps[i]) {
      assert IsBy(who, steps[i]);
    }
  }

  /** A producer left alone gives up all it holds. */
  lemma Relinquish(cfg: Config, s: State, p: nat) returns (t: State)
    requires Reached(cfg, s) && p < |s.producers|
    ensures Leads(cfg, TheProducer(p), s, t) && Reached(cfg, t)
    ensures OnlyPublishes(s, t, p) && HoldsNothing(t.producers[p])
    ensures HoldsNothing(s.producers[p]) ==> t == s
  {
    t := s;
    LeadsNowhere(cfg, TheProducer(p), s);
    if t.producers[p].pc.Writing? {
      t := StepBy(cfg, TheProducer(p), s, ByProducer(p, FinishWriting));
    }
    if t.producers[p].pc.Publishing? {
      var u := t;
      t := PublishingCompletes(cfg, u, p);
      LeadsOn(cfg, TheProducer(p), s, u, t);
    }
  }

  /** Only producers differ, and those have claimed nothing. */
  ghost predicate OnlyProducers(s: State, t: State) {
    && t == s.(words := t.words, published := t.published, producers := t.producers)
    && |t.producers| == |s.producers|
  }

  lemma {:induction false} RelinquishFirst(cfg: Config, s: State, p: nat, k: nat) returns (t: State)
    requires Reached(cfg, s) && p < |s.producers| && s.producers[p].pc == Idle && k <= |s.producers|
    ensures Leads(cfg, AllBut(p), s, t) && Reached(cfg, t) && OnlyProducers(s, t)
    ensures t.producers[p] == s.producers[p]
    ensures forall i :: 0 <= i < k ==> HoldsNothing(t.producers[i])
  {
    if k == 0 {
      t := s;
      LeadsNowhere(cfg, AllBut(p), s);
    } else {
      var u := RelinquishFirst(cfg, s, p, k - 1);
      if k - 1 == p {
        t := u;
      } else {
        t := Relinquish(cfg, u, k - 1);
        Among(cfg, TheProducer(k - 1), p, u, t);
        LeadsOn(cfg, AllBut(p), s, u, t);
      }
    }
  }

  lemma NothingHeldIsSettled(cfg: Config, s: State)
    requires Reached(cfg, s) && GatesOpen(s)
    requires forall i :: 0 <= i < |s.producers| ==> HoldsNothing(s.producers[i])
    ensures Settled(s)
  {
    ReachableIsSound(cfg, s);
  }

  /** From every reachable state with open gates, a producer that wants to claim any batch that fits the
      ring at all can be granted it: the others, finishing what they hold and reading what is there, can
      always make room, and then it gets the next `n` sequences. */
  lemma AnyClaimCanBeGranted(cfg: Config, s: State, p: nat, n: nat) returns (u: State, t: State)
    requires ValidConfig(cfg) && Reachable(cfg, s) && GatesOpen(s)
    requires p < |s.producers| && s.producers[p].pc == Idle && n <= cfg.capacity
    ensures Leads(cfg, AllBut(p), s, u) && Leads(cfg, TheProducer(p), u, t) && Reachable(cfg, t)
    ensures p < |t.producers| && t.producers[p].pc == Writing(s.claimed + 1, s.claimed + n)
    ensures t.claimed == s.claimed + n
  {
    var a := RelinquishFirst(cfg, s, p, |s.producers|);
    NothingHeldIsSettled(cfg, a);
    var b := SettleFirst(cfg, a, |a.consumers|);
    StaysSettled(a, b);
    u := CatchUp(cfg, b);
    Among(cfg, Consumers, p, a, b);
    Among(cfg, Consumers, p, b, u);
    LeadsOn(cfg, AllBut(p), s, a, b);
    LeadsOn(cfg, AllBut(p), s, b, u);
    RearExists(cfg, u);
    t := ClaimThatFitsSucceeds(cfg, u, p, n);
  }

  lemma RearExists(cfg: Config, s: State)
    requires Reached(cfg, s)
    ensures forall t :: t in cfg.graph.rear ==> t < |s.consumers|
  {
    ReachableIsSound(cfg, s);
  }

  // --- lost races -----------------------------------------------------------------------------------

  /** Does the step claim something: a compare-and-exchange that succeeds, for at least one sequence? */
  predicate Claims(s: State, step: Step) {
    && step.ByProducer? && step.producerAction.CompareExchange? && step.p < |s.producers|
    && s.producers[step.p].pc.Claiming? && s.producers[step.p].pc.n > 0
    && s.producers[step.p].pc.current == s.claimed
  }

  lemma OnlyClaimsMove(cfg: Config, s: State, step: Step)
    requires Enabled(cfg, s, step) && !Claims(s, step)
    ensures Apply(cfg, s, step).claimed == s.claimed
  {
  }

  lemma {:induction false} SomebodyClaimed(cfg: Config, s: State, steps: seq<Step>) returns (i: nat)
    requires IsRun(cfg, s, steps) && After(cfg, s, steps).claimed != s.claimed
    ensures i < |steps| && Claims(StateAt(cfg, s, steps, i), steps[i])
    decreases |steps|
  {
    if Claims(s, steps[0]) {
      i := 0;
    } else {
      OnlyClaimsMove(cfg, s, steps[0]);
      var j := SomebodyClaimed(cfg, Apply(cfg, s, steps[0]), steps[1..]);
      i := j + 1;
    }
  }

  /** Claiming is lock-free: when a compare-and-exchange fails, then since the producer read the value it
      expected, another producer has claimed at least one sequence. */
  lemma FailedClaimIsAnothersSuccess(cfg: Config, s: State, steps: seq<Step>, p: nat) returns (i: nat)
    requires IsRun(cfg, s, steps) && forall j :: 0 <= j < |steps| ==> steps[j] != ByProducer(p, CompareExchange)
    requires Enabled(cfg, After(cfg, s, steps), ByProducer(p, CompareExchange))
    requires After(cfg, s, steps).producers[p].pc.current == s.claimed != After(cfg, s, steps).claimed
    ensures i < |steps| && Claims(StateAt(cfg, s, steps, i), steps[i]) && steps[i].p != p
  {
    i := SomebodyClaimed(cfg, s, steps);
    assert steps[i] == ByProducer(steps[i].p, CompareExchange);
  }
}
