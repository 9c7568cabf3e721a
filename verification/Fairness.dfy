/** Fairness of steps is enough: a consumer that takes its own steps completes its calls, within a number
    of steps that the configuration fixes, whatever everybody else does meanwhile. */
module Fairness {
  import opened Wiring
  import opened Protocol
  import opened Invariant
  import opened Preservation
  import opened Delivery
  import opened Drain
  import opened EveryRun
  import opened Progress

  // --- how long a call takes ------------------------------------------------------------------------

  /** How many steps of its own, at most, keep a consumer from the end of its call: the loads of a scan of
      the ring or of a minimum, and then a batch no longer than the ring. */
  function CallWork(capacity: nat, b: Barrier, x: Consumer): int {
    match x.pc
    case Resting => 0
    case CheckingShutdown => 1
    case Handling(next, available) => available - next + 2
    case LoadingPublished(_) => capacity + 2
    case Scanning(_, sequence) => (x.cursor + 1 + capacity - sequence) + capacity + 2
    case ReadingMin(_, read, _) => Dependencies(b) - read + capacity + 2
    case CheckingFirst(_) => MostWork(capacity, b)
  }

  function MostWork(capacity: nat, b: Barrier): nat {
    2 * capacity + Dependencies(b) + 3
  }

  /** The batch of a consumer is never longer than the ring. */
  lemma BatchFits(cfg: Config, s: State, c: nat, y: Consumer)
    requires Inv(cfg, s) && c < |s.consumers| && y.cursor == s.consumers[c].cursor
    requires ConsumerOk(cfg, s, cfg.graph.barriers[c], y)
    ensures y.pc.Handling? ==> y.pc.available <= y.cursor + cfg.capacity
  {
    NobodyIsLapped(cfg, s, c);
  }

  lemma WorkIsBounded(cfg: Config, s: State, c: nat)
    requires Inv(cfg, s) && c < |s.consumers|
    ensures 0 <= CallWork(cfg.capacity, cfg.graph.barriers[c], s.consumers[c]) <= MostWork(cfg.capacity, cfg.graph.barriers[c])
  {
    var x := s.consumers[c];
    assert ConsumerOk(cfg, s, cfg.graph.barriers[c], x);
    BatchFits(cfg, s, c, x);
  }

  /** Every step of a consumer in a call brings the end of the call closer. */
  lemma CallGoesOn(cfg: Config, s: State, c: nat, action: ConsumerAction)
    requires Inv(cfg, s) && Enabled(cfg, s, ByConsumer(c, action)) && s.consumers[c].pc != Resting
    ensures CallWork(cfg.capacity, cfg.graph.barriers[c], ConsumerAfter(cfg, s, c, action))
          < CallWork(cfg.capacity, cfg.graph.barriers[c], s.consumers[c])
  {
    var x := s.consumers[c];
    assert ConsumerOk(cfg, s, cfg.graph.barriers[c], x);
    if x.pc.Handling? {
      BatchGoesOn(cfg, s, c, action);
    } else {
      ConsumerKeeps(cfg, s, c, action);
      BatchFits(cfg, s, c, ConsumerAfter(cfg, s, c, action));
      if action.ScanAvailability? {
        LoadGoesOn(cfg, s, c);
      } else {
        OtherGoesOn(cfg, s, c, action);
      }
    }
  }

  lemma BatchGoesOn(cfg: Config, s: State, c: nat, action: ConsumerAction)
    requires Enabled(cfg, s, ByConsumer(c, action)) && s.consumers[c].pc.Handling?
    requires s.consumers[c].pc.next <= s.consumers[c].pc.available + 1
    ensures CallWork(cfg.capacity, cfg.graph.barriers[c], ConsumerAfter(cfg, s, c, action))
          < CallWork(cfg.capacity, cfg.graph.barriers[c], s.consumers[c])
  {
  }

  lemma OtherGoesOn(cfg: Config, s: State, c: nat, action: ConsumerAction)
    requires Enabled(cfg, s, ByConsumer(c, action)) && !action.ScanAvailability?
    requires s.consumers[c].pc != Resting && !s.consumers[c].pc.Handling?
    requires var y := ConsumerAfter(cfg, s, c, action); y.pc.Handling? ==> y.pc.available <= y.cursor + cfg.capacity
    ensures CallWork(cfg.capacity, cfg.graph.barriers[c], ConsumerAfter(cfg, s, c, action))
          < CallWork(cfg.capacity, cfg.graph.barriers[c], s.consumers[c])
  {
  }

  lemma LoadGoesOn(cfg: Config, s: State, c: nat)
    requires Inv(cfg, s) && Enabled(cfg, s, ByConsumer(c, ScanAvailability))
    ensures var x, y := s.consumers[c], ConsumerAfter(cfg, s, c, ScanAvailability);
            && y.cursor == x.cursor && x.pc.sequence <= x.cursor + 1 + cfg.capacity
            && match y.pc
               case Scanning(_, sequence) => sequence > x.pc.sequence
               case Handling(next, _) => next == x.cursor + 1
               case CheckingShutdown => true
               case Resting => true
               case _ => false
  {
    var x, y := s.consumers[c], ConsumerAfter(cfg, s, c, ScanAvailability);
    ScanLeadsTo(cfg, s, c);
    if !ScanGoesFurther(cfg, s, x, y) {
      var available :| ScanAnswers(s, x, y, available);
    }
  }

  function OwnSteps(c: nat, steps: seq<Step>): nat {
    if steps == [] then 0 else (if steps[0].ByConsumer? && steps[0].c == c then 1 else 0) + OwnSteps(c, steps[1..])
  }

  /** A consumer in a call has finished it after so many steps of its own, whoever else runs. */
  lemma {:induction false} FinishesWithin(cfg: Config, s: State, steps: seq<Step>, c: nat)
    requires Inv(cfg, s) && IsRun(cfg, s, steps) && c < |s.consumers|
    requires OwnSteps(c, steps) >= CallWork(cfg.capacity, cfg.graph.barriers[c], s.consumers[c])
    ensures FinishesCall(cfg, s, steps, c)
    decreases |steps|
  {
    WorkIsBounded(cfg, s, c);
    if s.consumers[c].pc != Resting {
      if steps == [] {
        InCallHasWork(cfg, s, c);
      } else {
        StepKeeps(cfg, s, steps[0]);
        RecordsChange(cfg, s, steps[0]);
        if steps[0].ByConsumer? && steps[0].c == c {
          CallGoesOn(cfg, s, c, steps[0].consumerAction);
        }
        FinishesWithin(cfg, Apply(cfg, s, steps[0]), steps[1..], c);
      }
    }
  }

  lemma InCallHasWork(cfg: Config, s: State, c: nat)
    requires Inv(cfg, s) && c < |s.consumers| && s.consumers[c].pc != Resting
    ensures CallWork(cfg.capacity, cfg.graph.barriers[c], s.consumers[c]) > 0
  {
    assert ConsumerOk(cfg, s, cfg.graph.barriers[c], s.consumers[c]);
  }

  /** Between two calls, a consumer's only step is to begin one. */
  lemma RestingBegins(cfg: Config, s: State, c: nat, action: ConsumerAction)
    requires Inv(cfg, s) && Enabled(cfg, s, ByConsumer(c, action)) && s.consumers[c].pc == Resting
    ensures Begins(ByConsumer(c, action), c)
  {
  }

  /** From wherever it is, a consumer has begun a call and finished it after so many steps of its own. */
  lemma {:induction false} CompletesWithin(cfg: Config, s: State, steps: seq<Step>, c: nat)
    requires Inv(cfg, s) && IsRun(cfg, s, steps) && c < |s.consumers|
    requires OwnSteps(c, steps) >= CallWork(cfg.capacity, cfg.graph.barriers[c], s.consumers[c])
                                   + MostWork(cfg.capacity, cfg.graph.barriers[c]) + 1
    ensures CompletesCall(cfg, s, steps, c)
    decreases |steps|
  {
    var t := Apply(cfg, s, steps[0]);
    WorkIsBounded(cfg, s, c);
    StepKeeps(cfg, s, steps[0]);
    RecordsChange(cfg, s, steps[0]);
    if steps[0].ByConsumer? && steps[0].c == c {
      if s.consumers[c].pc == Resting {
        RestingBegins(cfg, s, c, steps[0].consumerAction);
        WorkIsBounded(cfg, t, c);
        FinishesWithin(cfg, t, steps[1..], c);
      } else {
        CallGoesOn(cfg, s, c, steps[0].consumerAction);
        CompletesWithin(cfg, t, steps[1..], c);
      }
    } else {
      CompletesWithin(cfg, t, steps[1..], c);
    }
  }

  // --- draining under every fair schedule -----------------------------------------------------------

  /** So many steps of its own are enough for any consumer to begin a call and finish it. */
  function Turn(cfg: Config, c: nat): nat
    requires c < |cfg.graph.barriers|
  {
    2 * MostWork(cfg.capacity, cfg.graph.barriers[c]) + 1
  }

  /** In every reachable state, whatever the others do, a consumer that takes a turn completes a call. */
  lemma TurnCompletesCall(cfg: Config, s: State, steps: seq<Step>, c: nat)
    requires ValidConfig(cfg) && Reachable(cfg, s) && IsRun(cfg, s, steps)
    requires c < |s.consumers| && c < |cfg.graph.barriers| && OwnSteps(c, steps) >= Turn(cfg, c)
    ensures CompletesCall(cfg, s, steps, c)
  {
    ReachableIsSound(cfg, s);
    WorkIsBounded(cfg, s, c);
    CompletesWithin(cfg, s, steps, c);
  }

  /** A stretch of a run in which every consumer that has not been told to stop by its end takes a turn. */
  ghost predicate IsFairRound(cfg: Config, s: State, steps: seq<Step>) {
    && IsRun(cfg, s, steps) && AllKeepDraining(s.claimed, steps)
    && var t := After(cfg, s, steps);
       forall c :: 0 <= c < |cfg.graph.barriers| && c < |t.consumers| && !t.consumers[c].stopped ==>
         OwnSteps(c, steps) >= Turn(cfg, c)
  }

  ghost predicate AreFairRounds(cfg: Config, s: State, rounds: seq<seq<Step>>)
    decreases |rounds|
  {
    rounds == [] || (IsFairRound(cfg, s, rounds[0]) && AreFairRounds(cfg, After(cfg, s, rounds[0]), rounds[1..]))
  }

  lemma FairRoundIsRound(cfg: Config, s: State, steps: seq<Step>)
    requires Drains(cfg, s) && IsFairRound(cfg, s, steps)
    ensures IsRound(cfg, s, steps)
  {
    var t := After(cfg, s, steps);
    CursorsOnlyAdvance(cfg, s, steps);
    forall c | 0 <= c < |s.consumers| && !t.consumers[c].stopped ensures CompletesCall(cfg, s, steps, c) {
      WorkIsBounded(cfg, s, c);
      CompletesWithin(cfg, s, steps, c);
    }
  }

  lemma {:induction false} FairRoundsAreRounds(cfg: Config, s: State, rounds: seq<seq<Step>>)
    requires Drains(cfg, s) && AreFairRounds(cfg, s, rounds)
    ensures AreRounds(cfg, s, rounds)
    decreases |rounds|
  {
    if rounds != [] {
      FairRoundIsRound(cfg, s, rounds[0]);
      CursorsOnlyAdvance(cfg, s, rounds[0]);
      FairRoundsAreRounds(cfg, After(cfg, s, rounds[0]), rounds[1..]);
    }
  }

  /** Draining needs nothing of the schedule but that consumers take steps: after more rounds of turns
      than there are events left, in any order and with anybody else's steps between, every consumer has
      finished every published event and has been told to stop. */
  lemma EveryFairRunDrains(cfg: Config, s: State, rounds: seq<seq<Step>>)
    requires ValidConfig(cfg) && Reachable(cfg, s) && s.shutdown != -1 && GatesOpen(s)
    requires AreFairRounds(cfg, s, rounds) && |rounds| > Lag(s.consumers, s.claimed)
    ensures AreRounds(cfg, s, rounds)
    ensures var t := AfterRounds(cfg, s, rounds);
            && t.claimed == s.claimed && |t.consumers| == |s.consumers|
            && forall c :: 0 <= c < |t.consumers| ==> t.consumers[c].stopped && HasEverything(cfg, t, c)
  {
    ReachableIsSound(cfg, s);
    FairRoundsAreRounds(cfg, s, rounds);
    EveryRunDrains(cfg, s, rounds);
  }
}
