/** Draining under every schedule: whatever the threads do and in whatever order, once the shutdown
    sequence is stored and every consumer keeps completing calls, all of them finish and stop. */
module EveryRun {
  import opened Wiring
  import opened Protocol
  import opened Invariant
  import opened Preservation
  import opened Delivery
  import opened Safety
  import opened Progress
  import opened Drain

  // --- what the users of a draining disruptor do ----------------------------------------------------

  /** Gates stay open, and nobody polls for no event at all. */
  predicate KeepsDraining(total: int, step: Step) {
    match step
    case SetGate(_, value) => value >= total
    case ByConsumer(_, BeginPoll(limit)) => limit > 0
    case _ => true
  }

  predicate AllKeepDraining(total: int, steps: seq<Step>) {
    forall i :: 0 <= i < |steps| ==> KeepsDraining(total, steps[i])
  }

  predicate Begins(step: Step, c: nat) {
    step.ByConsumer? && step.c == c && (step.consumerAction.BeginWait? || step.consumerAction.BeginPoll?)
  }

  /** Is consumer `c` between two calls at some time during the run? */
  predicate FinishesCall(cfg: Config, s: State, steps: seq<Step>, c: nat)
    requires IsRun(cfg, s, steps) && c < |s.consumers|
    decreases |steps|
  {
    || s.consumers[c].pc == Resting
    || (&& steps != [] && c < |Apply(cfg, s, steps[0]).consumers|
        && FinishesCall(cfg, Apply(cfg, s, steps[0]), steps[1..], c))
  }

  /** Does consumer `c` begin a call during the run, and finish it? */
  predicate CompletesCall(cfg: Config, s: State, steps: seq<Step>, c: nat)
    requires IsRun(cfg, s, steps) && c < |s.consumers|
    decreases |steps|
  {
    && steps != [] && c < |Apply(cfg, s, steps[0]).consumers|
    && var t := Apply(cfg, s, steps[0]);
       || (Begins(steps[0], c) && FinishesCall(cfg, t, steps[1..], c))
       || CompletesCall(cfg, t, steps[1..], c)
  }

  ghost predicate Drains(cfg: Config, s: State) {
    Sound(cfg, s) && Draining(s)
  }

  lemma DrainingStays(cfg: Config, s: State, step: Step)
    requires Drains(cfg, s) && Enabled(cfg, s, step) && KeepsDraining(s.claimed, step)
    ensures var t := Apply(cfg, s, step);
            && Drains(cfg, t) && t.claimed == s.claimed && Advances(s, t)
            && |t.gates| == |s.gates|
  {
    StepIsSound(cfg, s, step);
    StepKeeps(cfg, s, step);
    TotalStays(cfg, s, step);
    ShutdownStays(cfg, s, step);
  }

  lemma StoppedStays(cfg: Config, s: State, step: Step, c: nat)
    requires Enabled(cfg, s, step) && c < |s.consumers| && s.consumers[c].stopped
    ensures c < |Apply(cfg, s, step).consumers| && Apply(cfg, s, step).consumers[c].stopped
  {
    RecordsChange(cfg, s, step);
    if step.ByConsumer? && step.c == c {
      assert ConsumerAfter(cfg, s, c, step.consumerAction).stopped;
    }
  }

  lemma ShutdownStays(cfg: Config, s: State, step: Step)
    requires Sound(cfg, s) && s.shutdown != -1 && Enabled(cfg, s, step)
    ensures Apply(cfg, s, step).shutdown == s.shutdown
    ensures Apply(cfg, s, step).gates == if step.SetGate? then s.gates[step.g := step.value] else s.gates
  {
  }

  // --- a consumer that can read on ------------------------------------------------------------------

  lemma CanReadIsBelow(cfg: Config, s: State, c: nat)
    requires Inv(cfg, s) && c < |s.consumers| && CanRead(cfg, s, c)
    ensures s.consumers[c].cursor + 1 <= s.claimed
  {
    var b := cfg.graph.barriers[c];
    if b.Stage? {
      var stage: seq<nat>, last: nat :| Layered(cfg.graph, stage, last);
      assert WaitsForStageBelow(b, stage[c], stage);
      var d := b.cursors[0];
      assert d in b.cursors;
      assert ConsumerOk(cfg, s, cfg.graph.barriers[d], s.consumers[d]);
    }
  }

  /** Nobody takes away what a consumer can read. */
  lemma CanReadStays(cfg: Config, s: State, step: Step, c: nat)
    requires Drains(cfg, s) && Enabled(cfg, s, step) && KeepsDraining(s.claimed, step)
    requires c < |s.consumers| && CanRead(cfg, s, c)
    requires Apply(cfg, s, step).consumers[c].cursor == s.consumers[c].cursor
    ensures CanRead(cfg, Apply(cfg, s, step), c)
  {
    CanReadIsBelow(cfg, s, c);
    DrainingStays(cfg, s, step);
    ShutdownStays(cfg, s, step);
    CanReadAdvances(cfg, s, Apply(cfg, s, step), c);
  }

  lemma CanReadAdvances(cfg: Config, s: State, t: State, c: nat)
    requires c < |s.consumers| && c < |cfg.graph.barriers| && CanRead(cfg, s, c)
    requires Advances(s, t) && t.consumers[c].cursor == s.consumers[c].cursor < s.claimed
    requires |t.gates| == |s.gates| && forall g :: 0 <= g < |s.gates| ==> t.gates[g] == s.gates[g] || t.gates[g] >= s.claimed
    ensures CanRead(cfg, t, c)
  {
  }

  predicate WantsEvents(call: Call) {
    call.PollTake? ==> call.limit > 0
  }

  /** Is the consumer in the middle of a call that has found nothing yet against moving its cursor? */
  predicate OnTheWay(x: Consumer) {
    match x.pc
    case CheckingFirst(limit) => limit > 0
    case Scanning(call, _) => WantsEvents(call)
    case LoadingPublished(call) => WantsEvents(call)
    case ReadingMin(call, read, least) => WantsEvents(call) && (read > 0 ==> least > x.cursor)
    case Handling(_, available) => available > x.cursor
    case _ => false
  }

  /** Is consumer `c` in the middle of a call that will move its cursor? */
  ghost predicate WillMove(cfg: Config, s: State, c: nat)
    requires c < |s.consumers| && c < |cfg.graph.barriers|
  {
    OnTheWay(s.consumers[c]) && (s.consumers[c].pc.Handling? || CanRead(cfg, s, c))
  }

  /** Has the cursor of `c` got beyond `from`, or will the call that is under way move it? */
  ghost predicate Moves(cfg: Config, s: State, c: nat, from: int)
    requires c < |s.consumers| && c < |cfg.graph.barriers|
  {
    s.consumers[c].cursor > from || (s.consumers[c].cursor == from && WillMove(cfg, s, c))
  }

  lemma OfferMoves(x: Consumer, call: Call, available: int)
    requires WantsEvents(call) && available > x.cursor
    ensures Offer(x, call, available).Handling? && Offer(x, call, available).available > x.cursor
  {
  }

  lemma ScanMoves(cfg: Config, s: State, c: nat)
    requires Inv(cfg, s) && Enabled(cfg, s, ByConsumer(c, ScanAvailability)) && WillMove(cfg, s, c)
    ensures var x, y := s.consumers[c], ConsumerAfter(cfg, s, c, ScanAvailability);
            && y.cursor == x.cursor
            && ((y.pc.Scanning? && y.pc.call == x.pc.call) || (y.pc.Handling? && y.pc.available > x.cursor))
  {
    var x, y := s.consumers[c], ConsumerAfter(cfg, s, c, ScanAvailability);
    ScanLeadsTo(cfg, s, c);
    if !ScanGoesFurther(cfg, s, x, y) {
      var available :| ScanAnswers(s, x, y, available);
      assert Published(s, x.cursor + 1);
      OfferMoves(x, x.pc.call, available);
    }
  }

  lemma LoadMoves(cfg: Config, s: State, c: nat)
    requires Inv(cfg, s) && Enabled(cfg, s, ByConsumer(c, LoadPublished)) && WillMove(cfg, s, c)
    ensures var x, y := s.consumers[c], ConsumerAfter(cfg, s, c, LoadPublished);
            y.cursor == x.cursor && y.pc.Handling? && y.pc.available > x.cursor
  {
    var x := s.consumers[c];
    assert ConsumerOk(cfg, s, cfg.graph.barriers[c], x);
    PublishedAreLoaded(cfg, s, c);
    OfferMoves(x, x.pc.call, s.published);
  }

  lemma MinimumMoves(cfg: Config, s: State, c: nat, action: ConsumerAction)
    requires Inv(cfg, s) && Enabled(cfg, s, ByConsumer(c, action)) && WillMove(cfg, s, c)
    requires action.ReadDependency? || action.CompleteMinimum?
    ensures var x, y := s.consumers[c], ConsumerAfter(cfg, s, c, action);
            && y.cursor == x.cursor
            && (|| (y.pc.ReadingMin? && y.pc.call == x.pc.call && y.pc.least > x.cursor)
                || (y.pc.Handling? && y.pc.available > x.cursor))
  {
    var x, b := s.consumers[c], cfg.graph.barriers[c];
    var i := x.pc.read;
    if action.ReadDependency? {
      if i < |b.cursors| {
        assert b.cursors[i] in b.cursors;
      } else {
        assert b.gates[i - |b.cursors|] in b.gates;
      }
    } else {
      var stage: seq<nat>, last: nat :| Layered(cfg.graph, stage, last);
      assert WaitsForStageBelow(b, stage[c], stage);
      OfferMoves(x, x.pc.call, x.pc.least);
    }
  }

  /** A poll for an event that is there gets past its check for shutdown. */
  lemma FirstMoves(cfg: Config, s: State, c: nat)
    requires Drains(cfg, s) && Enabled(cfg, s, ByConsumer(c, CheckShutdownFirst)) && WillMove(cfg, s, c)
    ensures ConsumerAfter(cfg, s, c, CheckShutdownFirst).cursor == s.consumers[c].cursor
    ensures OnTheWay(ConsumerAfter(cfg, s, c, CheckShutdownFirst))
  {
    CanReadIsBelow(cfg, s, c);
  }

  lemma HandlingMoves(cfg: Config, s: State, c: nat, action: ConsumerAction)
    requires Enabled(cfg, s, ByConsumer(c, action)) && s.consumers[c].pc.Handling? && OnTheWay(s.consumers[c])
    ensures var x, y := s.consumers[c], ConsumerAfter(cfg, s, c, action);
            y.cursor > x.cursor || (y.cursor == x.cursor && y.pc.Handling? && OnTheWay(y))
  {
  }

  lemma StaysOnTheWay(cfg: Config, s: State, c: nat, action: ConsumerAction)
    requires Drains(cfg, s) && Enabled(cfg, s, ByConsumer(c, action)) && WillMove(cfg, s, c)
    requires !s.consumers[c].pc.Handling?
    ensures ConsumerAfter(cfg, s, c, action).cursor == s.consumers[c].cursor
    ensures OnTheWay(ConsumerAfter(cfg, s, c, action))
  {
    match action {
      case CheckShutdownFirst => FirstMoves(cfg, s, c);
      case ScanAvailability => ScanMoves(cfg, s, c);
      case LoadPublished => LoadMoves(cfg, s, c);
      case _ => MinimumMoves(cfg, s, c, action);
    }
  }

  /** A call under way that will move the cursor goes on to do so. */
  lemma OwnStepMoves(cfg: Config, s: State, c: nat, action: ConsumerAction)
    requires Drains(cfg, s) && Enabled(cfg, s, ByConsumer(c, action)) && KeepsDraining(s.claimed, ByConsumer(c, action))
    requires WillMove(cfg, s, c)
    ensures Moves(cfg, Apply(cfg, s, ByConsumer(c, action)), c, s.consumers[c].cursor)
  {
    RecordsChange(cfg, s, ByConsumer(c, action));
    if s.consumers[c].pc.Handling? {
      HandlingMoves(cfg, s, c, action);
    } else {
      StaysOnTheWay(cfg, s, c, action);
      CanReadStays(cfg, s, ByConsumer(c, action), c);
    }
  }

  /** Whoever takes the step, the call stays on its way. */
  lemma StepMoves(cfg: Config, s: State, step: Step, c: nat, from: int)
    requires Drains(cfg, s) && Enabled(cfg, s, step) && KeepsDraining(s.claimed, step)
    requires c < |s.consumers| && Moves(cfg, s, c, from)
    ensures Moves(cfg, Apply(cfg, s, step), c, from)
  {
    var t := Apply(cfg, s, step);
    DrainingStays(cfg, s, step);
    RecordsChange(cfg, s, step);
    if s.consumers[c].cursor == from {
      if step.ByConsumer? && step.c == c {
        OwnStepMoves(cfg, s, c, step.consumerAction);
      } else if !s.consumers[c].pc.Handling? {
        CanReadStays(cfg, s, step, c);
      }
    }
  }

  /** A consumer that can read on, and begins a call, will move. */
  lemma BeginMoves(cfg: Config, s: State, step: Step, c: nat)
    requires Drains(cfg, s) && Enabled(cfg, s, step) && KeepsDraining(s.claimed, step)
    requires c < |s.consumers| && Begins(step, c) && CanRead(cfg, s, c)
    ensures Moves(cfg, Apply(cfg, s, step), c, s.consumers[c].cursor)
  {
    CanReadStays(cfg, s, step, c);
  }

  lemma {:induction false} FinishedCallMoved(cfg: Config, s: State, steps: seq<Step>, c: nat, from: int)
    requires Drains(cfg, s) && IsRun(cfg, s, steps) && AllKeepDraining(s.claimed, steps)
    requires c < |s.consumers| && Moves(cfg, s, c, from) && FinishesCall(cfg, s, steps, c)
    ensures c < |After(cfg, s, steps).consumers| && After(cfg, s, steps).consumers[c].cursor > from
    decreases |steps|
  {
    if s.consumers[c].pc == Resting {
      CursorsOnlyAdvance(cfg, s, steps);
    } else {
      StepMoves(cfg, s, steps[0], c, from);
      DrainingStays(cfg, s, steps[0]);
      FinishedCallMoved(cfg, Apply(cfg, s, steps[0]), steps[1..], c, from);
    }
  }

  /** What a run of a draining disruptor keeps. */
  lemma {:induction false} CursorsOnlyAdvance(cfg: Config, s: State, steps: seq<Step>)
    requires Drains(cfg, s) && IsRun(cfg, s, steps) && AllKeepDraining(s.claimed, steps)
    ensures var t := After(cfg, s, steps);
            && Drains(cfg, t) && t.claimed == s.claimed && |t.consumers| == |s.consumers|
            && (forall c :: 0 <= c < |s.consumers| ==> s.consumers[c].cursor <= t.consumers[c].cursor)
            && (forall c :: 0 <= c < |s.consumers| && s.consumers[c].stopped ==> t.consumers[c].stopped)
    decreases |steps|
  {
    if steps != [] {
      var t := Apply(cfg, s, steps[0]);
      DrainingStays(cfg, s, steps[0]);
      forall c | 0 <= c < |s.consumers| && s.consumers[c].stopped ensures t.consumers[c].stopped {
        StoppedStays(cfg, s, steps[0], c);
      }
      CursorsOnlyAdvance(cfg, t, steps[1..]);
    }
  }

  /** A consumer that can read on, and completes a call, whoever else runs meanwhile, has moved. */
  lemma {:induction false} CompletedCallMoved(cfg: Config, s: State, steps: seq<Step>, c: nat, from: int)
    requires Drains(cfg, s) && IsRun(cfg, s, steps) && AllKeepDraining(s.claimed, steps)
    requires c < |s.consumers| && CompletesCall(cfg, s, steps, c)
    requires s.consumers[c].cursor > from || (s.consumers[c].cursor == from && CanRead(cfg, s, c))
    ensures c < |After(cfg, s, steps).consumers| && After(cfg, s, steps).consumers[c].cursor > from
    decreases |steps|
  {
    var t := Apply(cfg, s, steps[0]);
    DrainingStays(cfg, s, steps[0]);
    if Begins(steps[0], c) && FinishesCall(cfg, t, steps[1..], c) {
      if s.consumers[c].cursor == from {
        BeginMoves(cfg, s, steps[0], c);
      }
      FinishedCallMoved(cfg, t, steps[1..], c, from);
    } else {
      if t.consumers[c].cursor == from {
        CanReadStays(cfg, s, steps[0], c);
      }
      CompletedCallMoved(cfg, t, steps[1..], c, from);
    }
  }

  // --- a consumer that has read everything ----------------------------------------------------------

  /** Has `c` been told to stop, or will the call that is under way tell it? */
  ghost predicate WillStop(s: State, c: nat)
    requires c < |s.consumers|
  {
    var x := s.consumers[c];
    x.stopped
    || (&& x.cursor == s.claimed
        && match x.pc
           case CheckingFirst(_) => true
           case Scanning(call, _) => call.WaitFor?
           case LoadingPublished(call) => call.WaitFor?
           case ReadingMin(call, _, _) => call.WaitFor?
           case CheckingShutdown => true
           case _ => false)
  }

  lemma StepStops(cfg: Config, s: State, step: Step, c: nat)
    requires Drains(cfg, s) && Enabled(cfg, s, step) && KeepsDraining(s.claimed, step)
    requires c < |s.consumers| && WillStop(s, c)
    ensures WillStop(Apply(cfg, s, step), c)
  {
    DrainingStays(cfg, s, step);
    if s.consumers[c].stopped {
      StoppedStays(cfg, s, step, c);
    } else {
      RecordsChange(cfg, s, step);
      if step.ByConsumer? && step.c == c {
        OwnStepStops(cfg, s, c, step.consumerAction);
      }
    }
  }

  lemma OwnStepStops(cfg: Config, s: State, c: nat, action: ConsumerAction)
    requires Drains(cfg, s) && Enabled(cfg, s, ByConsumer(c, action))
    requires WillStop(s, c) && !s.consumers[c].stopped
    ensures WillStop(Apply(cfg, s, ByConsumer(c, action)), c)
  {
    if action.ScanAvailability? {
      ScanStops(cfg, s, c);
    } else if action.LoadPublished? || action.CompleteMinimum? {
      ConsumerKeeps(cfg, s, c, action);
      assert Horizon(ConsumerAfter(cfg, s, c, action)) <= s.claimed;
    }
  }

  lemma ScanStops(cfg: Config, s: State, c: nat)
    requires Inv(cfg, s) && Enabled(cfg, s, ByConsumer(c, ScanAvailability))
    requires s.consumers[c].cursor == s.claimed && s.consumers[c].pc.call.WaitFor?
    ensures ConsumerAfter(cfg, s, c, ScanAvailability).cursor == s.claimed
    ensures ConsumerAfter(cfg, s, c, ScanAvailability).pc == CheckingShutdown
  {
    var x, y := s.consumers[c], ConsumerAfter(cfg, s, c, ScanAvailability);
    ScanLeadsTo(cfg, s, c);
    assert !Published(s, x.cursor + 1);
    if !ScanGoesFurther(cfg, s, x, y) {
      var available :| ScanAnswers(s, x, y, available);
    }
  }

  lemma {:induction false} FinishedCallStopped(cfg: Config, s: State, steps: seq<Step>, c: nat)
    requires Drains(cfg, s) && IsRun(cfg, s, steps) && AllKeepDraining(s.claimed, steps)
    requires c < |s.consumers| && WillStop(s, c) && FinishesCall(cfg, s, steps, c)
    ensures c < |After(cfg, s, steps).consumers| && After(cfg, s, steps).consumers[c].stopped
    decreases |steps|
  {
    if s.consumers[c].pc == Resting {
      CursorsOnlyAdvance(cfg, s, steps);
    } else {
      StepStops(cfg, s, steps[0], c);
      DrainingStays(cfg, s, steps[0]);
      FinishedCallStopped(cfg, Apply(cfg, s, steps[0]), steps[1..], c);
    }
  }

  lemma BeginStops(cfg: Config, s: State, step: Step, c: nat)
    requires Drains(cfg, s) && Enabled(cfg, s, step) && KeepsDraining(s.claimed, step)
    requires c < |s.consumers| && Begins(step, c) && s.consumers[c].cursor == s.claimed
    ensures WillStop(Apply(cfg, s, step), c)
  {
  }

  lemma StaysAtTotal(cfg: Config, s: State, step: Step, c: nat)
    requires Drains(cfg, s) && Enabled(cfg, s, step) && KeepsDraining(s.claimed, step)
    requires c < |s.consumers| && s.consumers[c].cursor == s.claimed
    ensures c < |Apply(cfg, s, step).consumers| && Apply(cfg, s, step).consumers[c].cursor == s.claimed
  {
    DrainingStays(cfg, s, step);
    BelowTotal(cfg, Apply(cfg, s, step));
  }

  /** A consumer that has read everything, and completes a call, is told to stop. */
  lemma {:induction false} CompletedCallStopped(cfg: Config, s: State, steps: seq<Step>, c: nat)
    requires Drains(cfg, s) && IsRun(cfg, s, steps) && AllKeepDraining(s.claimed, steps)
    requires c < |s.consumers| && CompletesCall(cfg, s, steps, c) && s.consumers[c].cursor == s.claimed
    ensures c < |After(cfg, s, steps).consumers| && After(cfg, s, steps).consumers[c].stopped
    decreases |steps|
  {
    var t := Apply(cfg, s, steps[0]);
    DrainingStays(cfg, s, steps[0]);
    StaysAtTotal(cfg, s, steps[0], c);
    if Begins(steps[0], c) && FinishesCall(cfg, t, steps[1..], c) {
      BeginStops(cfg, s, steps[0], c);
      FinishedCallStopped(cfg, t, steps[1..], c);
    } else {
      CompletedCallStopped(cfg, t, steps[1..], c);
    }
  }

  // --- rounds ---------------------------------------------------------------------------------------

  /** A stretch of a run, long enough for every consumer that has not been told to stop by its end to
      begin a call and finish it. Nothing is said about the order of the steps. */
  ghost predicate IsRound(cfg: Config, s: State, steps: seq<Step>) {
    && IsRun(cfg, s, steps) && AllKeepDraining(s.claimed, steps)
    && var t := After(cfg, s, steps);
       forall c :: 0 <= c < |s.consumers| && c < |t.consumers| && !t.consumers[c].stopped ==>
         CompletesCall(cfg, s, steps, c)
  }

  ghost predicate AreRounds(cfg: Config, s: State, rounds: seq<seq<Step>>)
    decreases |rounds|
  {
    rounds == [] || (IsRound(cfg, s, rounds[0]) && AreRounds(cfg, After(cfg, s, rounds[0]), rounds[1..]))
  }

  ghost function AfterRounds(cfg: Config, s: State, rounds: seq<seq<Step>>): State
    requires AreRounds(cfg, s, rounds)
    decreases |rounds|
  {
    if rounds == [] then s else AfterRounds(cfg, After(cfg, s, rounds[0]), rounds[1..])
  }

  lemma {:induction false} LagIsLess(before: seq<Consumer>, after: seq<Consumer>, total: int, c: nat)
    requires |before| == |after| && c < |before| && before[c].cursor < after[c].cursor
    requires forall i :: 0 <= i < |before| ==> before[i].cursor <= after[i].cursor
    ensures Lag(after, total) < Lag(before, total)
  {
    if c == 0 {
      LagIsNoMore(before[1..], after[1..], total);
    } else {
      LagIsLess(before[1..], after[1..], total, c - 1);
    }
  }

  lemma {:induction false} LagIsNoMore(before: seq<Consumer>, after: seq<Consumer>, total: int)
    requires |before| == |after| && forall i :: 0 <= i < |before| ==> before[i].cursor <= after[i].cursor
    ensures Lag(after, total) <= Lag(before, total)
  {
    if before != [] {
      LagIsNoMore(before[1..], after[1..], total);
    }
  }

  /** While any consumer is behind, a round lowers what is left. */
  lemma RoundLowersLag(cfg: Config, s: State, steps: seq<Step>, c0: nat)
    requires Drains(cfg, s) && IsRound(cfg, s, steps) && c0 < |s.consumers| && s.consumers[c0].cursor < s.claimed
    ensures Drains(cfg, After(cfg, s, steps)) && After(cfg, s, steps).claimed == s.claimed
    ensures Lag(After(cfg, s, steps).consumers, s.claimed) < Lag(s.consumers, s.claimed)
  {
    var t := After(cfg, s, steps);
    CursorsOnlyAdvance(cfg, s, steps);
    NoneInFlight(cfg, s);
    var stage: seq<nat>, last: nat :| Layered(cfg.graph, stage, last);
    var c := SomebodyCanRead(cfg, s, stage, last, c0);
    if !t.consumers[c].stopped {
      CompletedCallMoved(cfg, s, steps, c, s.consumers[c].cursor);
    }
    LagIsLess(s.consumers, t.consumers, s.claimed, c);
  }

  /** Once no consumer is behind, a round stops them all. */
  lemma RoundStops(cfg: Config, s: State, steps: seq<Step>)
    requires Drains(cfg, s) && IsRound(cfg, s, steps)
    requires forall c :: 0 <= c < |s.consumers| ==> s.consumers[c].cursor == s.claimed
    ensures Drains(cfg, After(cfg, s, steps)) && After(cfg, s, steps).claimed == s.claimed
    ensures forall c :: 0 <= c < |After(cfg, s, steps).consumers| ==> After(cfg, s, steps).consumers[c].stopped
  {
    var t := After(cfg, s, steps);
    CursorsOnlyAdvance(cfg, s, steps);
    forall c | 0 <= c < |t.consumers| ensures t.consumers[c].stopped {
      if !t.consumers[c].stopped {
        CompletedCallStopped(cfg, s, steps, c);
      }
    }
  }

  lemma {:induction false} StoppedStay(cfg: Config, s: State, rounds: seq<seq<Step>>)
    requires Drains(cfg, s) && AreRounds(cfg, s, rounds)
    requires forall c :: 0 <= c < |s.consumers| ==> s.consumers[c].stopped
    ensures var t := AfterRounds(cfg, s, rounds);
            && Drains(cfg, t) && t.claimed == s.claimed && |t.consumers| == |s.consumers|
            && forall c :: 0 <= c < |t.consumers| ==> t.consumers[c].stopped
    decreases |rounds|
  {
    if rounds != [] {
      CursorsOnlyAdvance(cfg, s, rounds[0]);
      StoppedStay(cfg, After(cfg, s, rounds[0]), rounds[1..]);
    }
  }

  lemma {:induction false} RoundsDrain(cfg: Config, s: State, rounds: seq<seq<Step>>)
    requires Drains(cfg, s) && AreRounds(cfg, s, rounds) && |rounds| > Lag(s.consumers, s.claimed)
    ensures var t := AfterRounds(cfg, s, rounds);
            && Drains(cfg, t) && t.claimed == s.claimed && |t.consumers| == |s.consumers|
            && forall c :: 0 <= c < |t.consumers| ==> t.consumers[c].stopped
    decreases |rounds|
  {
    BelowTotal(cfg, s);
    LagIsNatural(s.consumers, s.claimed);
    CursorsOnlyAdvance(cfg, s, rounds[0]);
    if c0: nat :| c0 < |s.consumers| && s.consumers[c0].cursor < s.claimed {
      RoundLowersLag(cfg, s, rounds[0], c0);
      RoundsDrain(cfg, After(cfg, s, rounds[0]), rounds[1..]);
    } else {
      RoundStops(cfg, s, rounds[0]);
      StoppedStay(cfg, After(cfg, s, rounds[0]), rounds[1..]);
    }
  }

  /** From every reachable state in which the shutdown sequence is stored and the gates are open, under
      every schedule: once there have been more rounds than events left, every consumer has finished
      every published event and has been told to stop. Nothing is asked of the schedule but that every
      consumer keeps completing calls, and of the users but that gates stay open and polls want events. */
  lemma EveryRunDrains(cfg: Config, s: State, rounds: seq<seq<Step>>)
    requires ValidConfig(cfg) && Reachable(cfg, s) && s.shutdown != -1 && GatesOpen(s)
    requires AreRounds(cfg, s, rounds) && |rounds| > Lag(s.consumers, s.claimed)
    ensures var t := AfterRounds(cfg, s, rounds);
            && t.claimed == s.claimed && |t.consumers| == |s.consumers|
            && forall c :: 0 <= c < |t.consumers| ==> t.consumers[c].stopped && HasEverything(cfg, t, c)
  {
    ReachableIsSound(cfg, s);
    RoundsDrain(cfg, s, rounds);
    var t := AfterRounds(cfg, s, rounds);
    forall c | 0 <= c < |t.consumers| ensures HasEverything(cfg, t, c) {
      StoppedHaveEverything(cfg, t, c);
    }
  }

  /** Has `c` finished with every event, and has its handler, if it is a processor, been given them all? */
  predicate HasEverything(cfg: Config, s: State, c: nat)
    requires c < |s.consumers|
  {
    && s.consumers[c].cursor == s.claimed
    && (c < |cfg.poller| && !cfg.poller[c] ==> |s.consumers[c].handled| == s.claimed + 1)
  }

  lemma StoppedHaveEverything(cfg: Config, s: State, c: nat)
    requires Sound(cfg, s) && c < |s.consumers| && s.consumers[c].stopped
    ensures HasEverything(cfg, s, c)
  {
    assert ConsumerOk(cfg, s, cfg.graph.barriers[c], s.consumers[c]);
    assert DeliveredOk(s, cfg.poller[c], s.consumers[c]);
  }

  /** Such schedules exist: however many rounds are asked for, the consumers can complete them. */
  lemma RoundsExist(cfg: Config, s: State, n: nat) returns (rounds: seq<seq<Step>>)
    requires ValidConfig(cfg) && Reachable(cfg, s) && s.shutdown != -1 && GatesOpen(s)
    ensures AreRounds(cfg, s, rounds) && |rounds| == n
  {
    if n == 0 {
      rounds := [];
    } else {
      var t := DrainCompletes(cfg, s);
      var steps :| OnlyBy(Consumers, steps) && IsRun(cfg, s, steps) && After(cfg, s, steps) == t;
      forall i | 0 <= i < |steps| ensures KeepsDraining(s.claimed, steps[i]) {
        assert IsBy(Consumers, steps[i]);
      }
      var rest := EmptyRounds(cfg, t, n - 1);
      rounds := [steps] + rest;
      assert rounds[1..] == rest;
    }
  }

  lemma {:induction false} EmptyRounds(cfg: Config, s: State, n: nat) returns (rounds: seq<seq<Step>>)
    requires forall c :: 0 <= c < |s.consumers| ==> s.consumers[c].stopped
    ensures AreRounds(cfg, s, rounds) && |rounds| == n
  {
    rounds := [];
    if n > 0 {
      var rest := EmptyRounds(cfg, s, n - 1);
      rounds := [[]] + rest;
      assert rounds[1..] == rest;
    }
  }

  // --- until the shutdown sequence is stored --------------------------------------------------------

  function StepsBy(p: nat, steps: seq<Step>): nat {
    if steps == [] then 0 else (if steps[0].ByProducer? && steps[0].p == p then 1 else 0) + StepsBy(p, steps[1..])
  }

  /** Whatever else happens, two steps of the producer that dropped the last handle store the shutdown
      sequence. */
  lemma {:induction false} LastProducerStores(cfg: Config, s: State, steps: seq<Step>, p: nat)
    requires Sound(cfg, s) && s.refCount == 0 && IsRun(cfg, s, steps)
    requires s.shutdown != -1
          || (p < |s.producers| && IsLast(s.producers[p])
              && StepsBy(p, steps) >= if s.producers[p].pc.LoadingTotal? then 2 else 1)
    ensures After(cfg, s, steps).shutdown == After(cfg, s, steps).claimed + 1 == s.claimed + 1
    decreases |steps|
  {
    if steps != [] {
      StepIsSound(cfg, s, steps[0]);
      TotalStays(cfg, s, steps[0]);
      LastGoesOn(cfg, s, steps[0], p);
      LastProducerStores(cfg, Apply(cfg, s, steps[0]), steps[1..], p);
    }
  }

  lemma LastGoesOn(cfg: Config, s: State, step: Step, p: nat)
    requires Sound(cfg, s) && s.refCount == 0 && Enabled(cfg, s, step)
    requires s.shutdown != -1 || (p < |s.producers| && IsLast(s.producers[p]))
    ensures var t := Apply(cfg, s, step);
            if s.shutdown != -1 then t.shutdown != -1
            else if step.ByProducer? && step.p == p then
              if s.producers[p].pc.LoadingTotal? then p < |t.producers| && t.producers[p].pc.StoringShutdown?
              else t.shutdown != -1
            else t.shutdown != -1 || (p < |t.producers| && t.producers[p].pc == s.producers[p].pc)
  {
    if s.shutdown != -1 {
      ShutdownStays(cfg, s, step);
    }
  }
}
