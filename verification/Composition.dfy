/** The protocol and the blocking strategies in one machine: consumers that really block between their
    calls, and are woken by the stores of the protocol itself. */
module Composition {
  import opened Availability
  import opened Wiring
  import opened Protocol
  import opened Invariant
  import opened Preservation
  import opened Delivery
  import opened Safety
  import opened BoundedLog
  import opened Progress
  import opened Drain
  import opened EveryRun
  import opened Fairness
  import W = Waiting
  import Wakeup

  datatype Both = Both(protocol: State, waiting: W.State)

  // --- what the waiters watch -----------------------------------------------------------------------

  /** The cells of the wait strategies: the consumers' cursors, then the gates, then the frontier. */
  ghost function CellsOf(s: State): (r: seq<int>)
    ensures |r| == |s.consumers| + |s.gates| + 1
  {
    Cursors(s) + s.gates + [Frontier(s)]
  }

  /** The cells that the barrier of consumer `c` reads. */
  function Watched(cfg: Config, c: nat): seq<nat>
    requires c < |cfg.graph.barriers|
  {
    var n := |cfg.graph.barriers|;
    match cfg.graph.barriers[c]
    case Producers => [n + cfg.gates]
    case Stage(cursors, gates) => cursors + seq(|gates|, i requires 0 <= i < |gates| => n + gates[i])
  }

  ghost predicate IsSetup(cfg: Config, setup: W.Setup) {
    && |setup.watched| == |cfg.graph.barriers|
    && forall c :: 0 <= c < |setup.watched| ==> setup.watched[c] == Watched(cfg, c)
  }

  ghost predicate Mirrors(b: Both) {
    b.waiting.cells == CellsOf(b.protocol) && b.waiting.shutdown == b.protocol.shutdown
  }

  /** The store, if any, by which a step of the protocol may end somebody's wait. */
  ghost function StoreOf(cfg: Config, s: State, step: Step): Option<W.NotifierAction>
    requires Enabled(cfg, s, step)
  {
    match step
    case ByConsumer(c, StoreCursor) => Some(W.StoreCell(c, s.consumers[c].pc.available))
    case SetGate(g, value) => Some(W.StoreCell(|s.consumers| + g, value))
    case ByProducer(_, Publish) => Some(W.StoreCell(|s.consumers| + |s.gates|, Frontier(Apply(cfg, s, step))))
    case ByProducer(p, StoreShutdown) => Some(W.StoreShutdown(s.producers[p].pc.total))
    case _ => None
  }

  // --- moves ----------------------------------------------------------------------------------------

  /** A step of the protocol, whose store, if it makes one, is announced by notifier `n`; or a step of
      the wait strategies that stores nothing. */
  datatype Move = Act(step: Step, n: nat) | Block(blocking: W.Step)

  ghost predicate MoveEnabled(cfg: Config, setup: W.Setup, b: Both, move: Move) {
    match move
    case Act(step, n) =>
      && Enabled(cfg, b.protocol, step)
      && (step.ByConsumer? ==> step.c < |b.waiting.waiters| && b.waiting.waiters[step.c].pc.Away?)
      && (StoreOf(cfg, b.protocol, step).Some? ==>
            W.Enabled(setup, b.waiting, W.ByNotifier(n, StoreOf(cfg, b.protocol, step).value)))
    case Block(blocking) => W.Enabled(setup, b.waiting, blocking) && MayBlock(b.protocol, blocking)
  }

  /** A consumer blocks between two calls, asking for its next sequence. */
  predicate MayBlock(s: State, blocking: W.Step) {
    match blocking
    case ByWaiter(c, WaitFor(requested)) =>
      c < |s.consumers| && s.consumers[c].pc == Resting && requested == s.consumers[c].cursor + 1
    case ByWaiter(_, _) => true
    case ByNotifier(_, action) => !action.StoreCell? && !action.StoreShutdown?
  }

  ghost function MoveTo(cfg: Config, setup: W.Setup, b: Both, move: Move): Both
    requires MoveEnabled(cfg, setup, b, move)
  {
    match move
    case Act(step, n) =>
      Both(Apply(cfg, b.protocol, step),
           match StoreOf(cfg, b.protocol, step)
           case Some(action) => W.Apply(setup, b.waiting, W.ByNotifier(n, action))
           case None => b.waiting)
    case Block(blocking) => b.(waiting := W.Apply(setup, b.waiting, blocking))
  }

  ghost predicate AreMoves(cfg: Config, setup: W.Setup, b: Both, moves: seq<Move>)
    decreases |moves|
  {
    moves == [] || (MoveEnabled(cfg, setup, b, moves[0]) && AreMoves(cfg, setup, MoveTo(cfg, setup, b, moves[0]), moves[1..]))
  }

  ghost function AfterMoves(cfg: Config, setup: W.Setup, b: Both, moves: seq<Move>): Both
    requires AreMoves(cfg, setup, b, moves)
    decreases |moves|
  {
    if moves == [] then b else AfterMoves(cfg, setup, MoveTo(cfg, setup, b, moves[0]), moves[1..])
  }

  ghost predicate IsStart(cfg: Config, setup: W.Setup, b: Both) {
    IsInitial(cfg, b.protocol) && W.IsInitial(setup, b.waiting) && Mirrors(b)
  }

  ghost predicate IsReached(cfg: Config, setup: W.Setup, b: Both) {
    exists start: Both, moves: seq<Move> ::
      IsStart(cfg, setup, start) && AreMoves(cfg, setup, start, moves) && AfterMoves(cfg, setup, start, moves) == b
  }

  // --- invariant ------------------------------------------------------------------------------------

  /** A consumer whose waiter is at work is between two calls, and waits for its next sequence. */
  ghost predicate WaitsForNext(b: Both) {
    && |b.waiting.waiters| == |b.protocol.consumers|
    && forall c :: 0 <= c < |b.waiting.waiters| && !b.waiting.waiters[c].pc.Away? ==>
         && b.protocol.consumers[c].pc == Resting
         && b.waiting.waiters[c].requested == b.protocol.consumers[c].cursor + 1
  }

  ghost predicate BothOk(cfg: Config, setup: W.Setup, b: Both) {
    && IsSetup(cfg, setup) && Sound(cfg, b.protocol) && W.Inv(setup, b.waiting)
    && Mirrors(b) && WaitsForNext(b)
  }

  /** Only publications change what is published. */
  lemma PublishedSame(cfg: Config, s: State, step: Step)
    requires Inv(cfg, s) && Enabled(cfg, s, step) && !(step.ByProducer? && step.producerAction.Publish?)
    ensures forall q :: Published(Apply(cfg, s, step), q) <==> Published(s, q)
  {
    if step.ByProducer? {
      ProducersPublishSame(cfg, s, step.p, step.producerAction);
    }
  }

  lemma ProducersPublishSame(cfg: Config, s: State, p: nat, action: ProducerAction)
    requires Inv(cfg, s) && Enabled(cfg, s, ByProducer(p, action)) && !action.Publish?
    ensures forall q :: Published(ApplyProducer(cfg, s, p, action), q) <==> Published(s, q)
  {
    var t := ApplyProducer(cfg, s, p, action);
    if action.CompareExchange? && s.claimed == s.producers[p].pc.current {
      ClaimFits(cfg, s, p);
      ClaimOwnership(cfg, s, p);
    } else {
      HoldersStay(cfg, s, p, action);
      SameHolders(s, t);
    }
  }

  lemma HoldersStay(cfg: Config, s: State, p: nat, action: ProducerAction)
    requires Enabled(cfg, s, ByProducer(p, action)) && !action.Publish?
    requires action.CompareExchange? ==> s.claimed != s.producers[p].pc.current
    ensures var t := ApplyProducer(cfg, s, p, action);
            && t.owner == s.owner && t.claimed == s.claimed && |t.producers| >= |s.producers|
            && (forall i :: 0 <= i < |s.producers| ==> HoldSame(t.producers[i], s.producers[i]))
            && (forall i :: |s.producers| <= i < |t.producers| ==> t.producers[i].pc == Idle)
  {
  }

  /** Does `t` differ from `s`, as far as waiters can see, by exactly that store? */
  ghost predicate StoresExactly(s: State, t: State, store: Option<W.NotifierAction>) {
    match store
    case Some(StoreCell(cell, value)) =>
      cell < |CellsOf(s)| && CellsOf(t) == CellsOf(s)[cell := value] && t.shutdown == s.shutdown
    case Some(StoreShutdown(sequence)) => CellsOf(t) == CellsOf(s) && t.shutdown == sequence
    case _ => CellsOf(t) == CellsOf(s) && t.shutdown == s.shutdown
  }

  /** A step changes exactly the cell it is said to store. */
  lemma CellsChange(cfg: Config, s: State, step: Step)
    requires Inv(cfg, s) && Enabled(cfg, s, step)
    ensures StoresExactly(s, Apply(cfg, s, step), StoreOf(cfg, s, step))
  {
    match step
    case ByConsumer(c, action) => ConsumerStores(cfg, s, c, action);
    case SetGate(g, v) => GateStores(cfg, s, g, v);
    case ByProducer(p, action) => ProducerStores(cfg, s, p, action);
  }

  lemma ConsumerStores(cfg: Config, s: State, c: nat, action: ConsumerAction)
    requires Inv(cfg, s) && Enabled(cfg, s, ByConsumer(c, action))
    ensures StoresExactly(s, Apply(cfg, s, ByConsumer(c, action)), StoreOf(cfg, s, ByConsumer(c, action)))
  {
    var t := Apply(cfg, s, ByConsumer(c, action));
    RecordsChange(cfg, s, ByConsumer(c, action));
    PublishedSame(cfg, s, ByConsumer(c, action));
    SameFrontier(s, t);
    if action.StoreCursor? {
      assert Cursors(t) == Cursors(s)[c := s.consumers[c].pc.available];
    } else {
      NothingStored(cfg, s, c, action);
      assert Cursors(t) == Cursors(s);
    }
  }

  lemma GateStores(cfg: Config, s: State, g: nat, v: int)
    requires Inv(cfg, s) && Enabled(cfg, s, SetGate(g, v))
    ensures StoresExactly(s, Apply(cfg, s, SetGate(g, v)), StoreOf(cfg, s, SetGate(g, v)))
  {
    var t := Apply(cfg, s, SetGate(g, v));
    PublishedSame(cfg, s, SetGate(g, v));
    SameFrontier(s, t);
    assert Cursors(t) == Cursors(s);
  }

  lemma ProducerStores(cfg: Config, s: State, p: nat, action: ProducerAction)
    requires Inv(cfg, s) && Enabled(cfg, s, ByProducer(p, action))
    ensures StoresExactly(s, Apply(cfg, s, ByProducer(p, action)), StoreOf(cfg, s, ByProducer(p, action)))
  {
    var t := Apply(cfg, s, ByProducer(p, action));
    ProducersLeave(cfg, s, p, action);
    assert Cursors(t) == Cursors(s);
    if !action.Publish? {
      PublishedSame(cfg, s, ByProducer(p, action));
      SameFrontier(s, t);
    }
  }

  lemma ProducersLeave(cfg: Config, s: State, p: nat, action: ProducerAction)
    requires Enabled(cfg, s, ByProducer(p, action))
    ensures var t := ApplyProducer(cfg, s, p, action);
            && t.gates == s.gates && t.consumers == s.consumers
            && t.shutdown == if action.StoreShutdown? then s.producers[p].pc.total else s.shutdown
  {
  }

  lemma ActKeeps(cfg: Config, setup: W.Setup, b: Both, step: Step, n: nat)
    requires BothOk(cfg, setup, b) && MoveEnabled(cfg, setup, b, Act(step, n))
    ensures BothOk(cfg, setup, MoveTo(cfg, setup, b, Act(step, n)))
  {
    var t := MoveTo(cfg, setup, b, Act(step, n));
    StepIsSound(cfg, b.protocol, step);
    CellsChange(cfg, b.protocol, step);
    RecordsChange(cfg, b.protocol, step);
    var store := StoreOf(cfg, b.protocol, step);
    if store.Some? {
      W.StepKeeps(setup, b.waiting, W.ByNotifier(n, store.value));
    }
    assert t.waiting.waiters == b.waiting.waiters;
  }

  lemma BlockKeeps(cfg: Config, setup: W.Setup, b: Both, blocking: W.Step)
    requires BothOk(cfg, setup, b) && MoveEnabled(cfg, setup, b, Block(blocking))
    ensures BothOk(cfg, setup, MoveTo(cfg, setup, b, Block(blocking)))
  {
    W.StepKeeps(setup, b.waiting, blocking);
    BlockingStoresNothing(cfg, setup, b, blocking);
  }

  lemma BlockingStoresNothing(cfg: Config, setup: W.Setup, b: Both, blocking: W.Step)
    requires W.Inv(setup, b.waiting) && WaitsForNext(b) && MoveEnabled(cfg, setup, b, Block(blocking))
    ensures var t := MoveTo(cfg, setup, b, Block(blocking));
            t.waiting.cells == b.waiting.cells && t.waiting.shutdown == b.waiting.shutdown && WaitsForNext(t)
  {
    var t := W.Apply(setup, b.waiting, blocking);
    match blocking
    case ByWaiter(c, action) =>
      W.MutexMoves(setup, b.waiting, c, action);
      assert t.waiters[c].requested == match action
                                       case WaitFor(r) => r
                                       case _ => b.waiting.waiters[c].requested;
      assert !action.WaitFor? ==> !b.waiting.waiters[c].pc.Away?;
    case ByNotifier(n, action) =>
      assert forall c :: 0 <= c < |t.waiters| ==>
               t.waiters[c].requested == b.waiting.waiters[c].requested && (t.waiters[c].pc.Away? <==> b.waiting.waiters[c].pc.Away?);
  }

  lemma MoveKeeps(cfg: Config, setup: W.Setup, b: Both, move: Move)
    requires BothOk(cfg, setup, b) && MoveEnabled(cfg, setup, b, move)
    ensures BothOk(cfg, setup, MoveTo(cfg, setup, b, move))
  {
    match move
    case Act(step, n) => ActKeeps(cfg, setup, b, step, n);
    case Block(blocking) => BlockKeeps(cfg, setup, b, blocking);
  }

  lemma {:induction false} MovesKeep(cfg: Config, setup: W.Setup, b: Both, moves: seq<Move>)
    requires BothOk(cfg, setup, b) && AreMoves(cfg, setup, b, moves)
    ensures BothOk(cfg, setup, AfterMoves(cfg, setup, b, moves))
    decreases |moves|
  {
    if moves != [] {
      MoveKeeps(cfg, setup, b, moves[0]);
      MovesKeep(cfg, setup, MoveTo(cfg, setup, b, moves[0]), moves[1..]);
    }
  }

  lemma StartIsOk(cfg: Config, setup: W.Setup, b: Both)
    requires ValidConfig(cfg) && IsSetup(cfg, setup) && IsStart(cfg, setup, b)
    ensures BothOk(cfg, setup, b)
  {
    InitIsSound(cfg, b.protocol);
    var none: seq<W.Step> := [];
    assert W.IsRun(setup, b.waiting, none) && W.After(setup, b.waiting, none) == b.waiting;
    W.ReachableIsOk(setup, b.waiting);
  }

  lemma ReachedIsOk(cfg: Config, setup: W.Setup, b: Both)
    requires ValidConfig(cfg) && IsSetup(cfg, setup) && IsReached(cfg, setup, b)
    ensures BothOk(cfg, setup, b)
  {
    var start: Both, moves: seq<Move> :|
      IsStart(cfg, setup, start) && AreMoves(cfg, setup, start, moves) && AfterMoves(cfg, setup, start, moves) == b;
    StartIsOk(cfg, setup, start);
    MovesKeep(cfg, setup, start, moves);
  }

  // --- nobody sleeps on what is there ---------------------------------------------------------------

  /** Is consumer `c` parked, with no wake on its way to anybody? */
  ghost predicate IsParkedInPeace(b: Both, c: nat) {
    c < |b.waiting.waiters| && b.waiting.waiters[c].pc.Parked? && !W.SomePending(b.waiting)
  }

  /** What a consumer can read in the protocol is what its waiter waits for. */
  lemma CanReadIsDue(cfg: Config, setup: W.Setup, b: Both, c: nat)
    requires BothOk(cfg, setup, b) && c < |b.waiting.waiters| && !b.waiting.waiters[c].pc.Away?
    requires CanRead(cfg, b.protocol, c)
    ensures W.IsDue(setup, b.waiting, c)
  {
    match cfg.graph.barriers[c]
    case Producers => FrontierIsDue(cfg, b.protocol, c);
    case Stage(_, _) => StageIsDue(cfg, b.protocol, c);
  }

  lemma FrontierIsDue(cfg: Config, s: State, c: nat)
    requires Inv(cfg, s) && c < |s.consumers| && CanRead(cfg, s, c) && cfg.graph.barriers[c].Producers?
    ensures Watched(cfg, c) == [|s.consumers| + |s.gates|]
    ensures CellsOf(s)[|s.consumers| + |s.gates|] >= s.consumers[c].cursor + 1
  {
    assert ConsumerOk(cfg, s, cfg.graph.barriers[c], s.consumers[c]);
    assert Frontier(s) < s.consumers[c].cursor + 1 ==> Published(s, Frontier(s) + 1);
  }

  lemma StageIsDue(cfg: Config, s: State, c: nat)
    requires Inv(cfg, s) && c < |s.consumers| && CanRead(cfg, s, c) && cfg.graph.barriers[c].Stage?
    ensures forall i :: i in Watched(cfg, c) ==> i < |CellsOf(s)| && CellsOf(s)[i] >= s.consumers[c].cursor + 1
  {
    var n, b := |s.consumers|, cfg.graph.barriers[c];
    forall i | i in Watched(cfg, c) ensures i < |CellsOf(s)| && CellsOf(s)[i] >= s.consumers[c].cursor + 1 {
      if i in b.cursors {
        assert CellsOf(s)[i] == s.consumers[i].cursor;
      } else {
        var j :| 0 <= j < |b.gates| && i == n + b.gates[j];
        assert b.gates[j] in b.gates;
        assert CellsOf(s)[i] == s.gates[b.gates[j]];
      }
    }
  }

  /** In every reachable state of the composed machine, a consumer that is parked while no wake is on its
      way can read nothing, and is not to stop. */
  lemma ParkedInPeaceHasNothing(cfg: Config, setup: W.Setup, b: Both, c: nat)
    requires ValidConfig(cfg) && IsSetup(cfg, setup) && IsReached(cfg, setup, b) && IsParkedInPeace(b, c)
    ensures c < |b.protocol.consumers| && c < |cfg.graph.barriers| && !CanRead(cfg, b.protocol, c)
    ensures b.protocol.shutdown != b.protocol.consumers[c].cursor + 1
  {
    ReachedIsOk(cfg, setup, b);
    PeaceHasNothing(cfg, setup, b, c);
  }

  lemma PeaceHasNothing(cfg: Config, setup: W.Setup, b: Both, c: nat)
    requires BothOk(cfg, setup, b) && IsParkedInPeace(b, c)
    ensures c < |b.protocol.consumers| && c < |cfg.graph.barriers| && !CanRead(cfg, b.protocol, c)
    ensures b.protocol.shutdown != b.protocol.consumers[c].cursor + 1
  {
    assert W.WaiterOk(setup, b.waiting, c);
    if CanRead(cfg, b.protocol, c) {
      CanReadIsDue(cfg, setup, b, c);
    }
  }

  /** A drained disruptor has no parked consumer: once everything is read and the shutdown stored, whoever
      is still parked has a wake on its way. */
  lemma NobodyParkedWhenDrained(cfg: Config, setup: W.Setup, b: Both, c: nat)
    requires ValidConfig(cfg) && IsSetup(cfg, setup) && IsReached(cfg, setup, b)
    requires c < |b.waiting.waiters| && c < |b.protocol.consumers|
    requires b.protocol.shutdown != -1 && b.protocol.consumers[c].cursor == b.protocol.claimed
    ensures !IsParkedInPeace(b, c)
  {
    ReachedIsOk(cfg, setup, b);
    if IsParkedInPeace(b, c) {
      PeaceHasNothing(cfg, setup, b, c);
    }
  }

  // --- draining with consumers that block -----------------------------------------------------------

  /** The steps of the protocol among the moves. */
  function StepsOf(moves: seq<Move>): seq<Step> {
    if moves == [] then [] else (if moves[0].Act? then [moves[0].step] else []) + StepsOf(moves[1..])
  }

  lemma {:induction false} ProtocolRuns(cfg: Config, setup: W.Setup, b: Both, moves: seq<Move>)
    requires AreMoves(cfg, setup, b, moves)
    ensures IsRun(cfg, b.protocol, StepsOf(moves))
    ensures After(cfg, b.protocol, StepsOf(moves)) == AfterMoves(cfg, setup, b, moves).protocol
    decreases |moves|
  {
    if moves != [] {
      ProtocolRuns(cfg, setup, MoveTo(cfg, setup, b, moves[0]), moves[1..]);
      if moves[0].Act? {
        assert StepsOf(moves)[0] == moves[0].step && StepsOf(moves)[1..] == StepsOf(moves[1..]);
      } else {
        assert StepsOf(moves) == StepsOf(moves[1..]);
      }
    }
  }

  /** Is consumer `c` parked in peace at some time during the moves? */
  ghost predicate ComesToRest(cfg: Config, setup: W.Setup, b: Both, moves: seq<Move>, c: nat)
    requires AreMoves(cfg, setup, b, moves)
    decreases |moves|
  {
    || IsParkedInPeace(b, c)
    || (moves != [] && ComesToRest(cfg, setup, MoveTo(cfg, setup, b, moves[0]), moves[1..], c))
  }

  /** A stretch of moves in which every consumer that has not been told to stop by its end either takes a
      turn, or is at some time parked with no wake on its way. */
  ghost predicate IsBlockingRound(cfg: Config, setup: W.Setup, b: Both, moves: seq<Move>) {
    && AreMoves(cfg, setup, b, moves) && AllKeepDraining(b.protocol.claimed, StepsOf(moves))
    && var t := AfterMoves(cfg, setup, b, moves).protocol;
       forall c :: 0 <= c < |cfg.graph.barriers| && c < |t.consumers| && !t.consumers[c].stopped ==>
         OwnSteps(c, StepsOf(moves)) >= Turn(cfg, c) || ComesToRest(cfg, setup, b, moves, c)
  }

  /** A consumer that can read on, and comes to rest, has moved before. */
  lemma {:induction false} RestedHasMoved(cfg: Config, setup: W.Setup, b: Both, moves: seq<Move>, c: nat, from: int)
    requires BothOk(cfg, setup, b) && Draining(b.protocol) && c < |b.protocol.consumers|
    requires AreMoves(cfg, setup, b, moves) && AllKeepDraining(b.protocol.claimed, StepsOf(moves))
    requires ComesToRest(cfg, setup, b, moves, c)
    requires b.protocol.consumers[c].cursor > from || (b.protocol.consumers[c].cursor == from && CanRead(cfg, b.protocol, c))
    ensures var t := AfterMoves(cfg, setup, b, moves).protocol; c < |t.consumers| && t.consumers[c].cursor > from
    decreases |moves|
  {
    if IsParkedInPeace(b, c) {
      PeaceHasNothing(cfg, setup, b, c);
      ProtocolRuns(cfg, setup, b, moves);
      CursorsOnlyAdvance(cfg, b.protocol, StepsOf(moves));
    } else {
      MoveKeeps(cfg, setup, b, moves[0]);
      FirstStepKeeps(cfg, setup, b, moves, c, from);
      RestedHasMoved(cfg, setup, MoveTo(cfg, setup, b, moves[0]), moves[1..], c, from);
    }
  }

  lemma FirstStepKeeps(cfg: Config, setup: W.Setup, b: Both, moves: seq<Move>, c: nat, from: int)
    requires BothOk(cfg, setup, b) && Draining(b.protocol) && c < |b.protocol.consumers|
    requires moves != [] && MoveEnabled(cfg, setup, b, moves[0]) && AllKeepDraining(b.protocol.claimed, StepsOf(moves))
    requires b.protocol.consumers[c].cursor > from || (b.protocol.consumers[c].cursor == from && CanRead(cfg, b.protocol, c))
    ensures var t := MoveTo(cfg, setup, b, moves[0]).protocol;
            && Draining(t) && t.claimed == b.protocol.claimed && AllKeepDraining(t.claimed, StepsOf(moves[1..]))
            && c < |t.consumers| && c < |cfg.graph.barriers|
            && (t.consumers[c].cursor > from || (t.consumers[c].cursor == from && CanRead(cfg, t, c)))
  {
    if moves[0].Act? {
      var step := moves[0].step;
      assert StepsOf(moves)[0] == step && StepsOf(moves)[1..] == StepsOf(moves[1..]);
      DrainingStays(cfg, b.protocol, step);
      if Apply(cfg, b.protocol, step).consumers[c].cursor == from {
        CanReadStays(cfg, b.protocol, step, c);
      }
    } else {
      assert StepsOf(moves) == StepsOf(moves[1..]);
    }
  }

  lemma {:induction false} RestedIsBehind(cfg: Config, setup: W.Setup, b: Both, moves: seq<Move>, c: nat)
    requires BothOk(cfg, setup, b) && Draining(b.protocol) && c < |b.protocol.consumers|
    requires AreMoves(cfg, setup, b, moves) && AllKeepDraining(b.protocol.claimed, StepsOf(moves))
    requires b.protocol.consumers[c].cursor == b.protocol.claimed
    ensures !ComesToRest(cfg, setup, b, moves, c)
    decreases |moves|
  {
    if IsParkedInPeace(b, c) {
      PeaceHasNothing(cfg, setup, b, c);
    } else if moves != [] {
      MoveKeeps(cfg, setup, b, moves[0]);
      FirstStepStaysAtTotal(cfg, setup, b, moves, c);
      RestedIsBehind(cfg, setup, MoveTo(cfg, setup, b, moves[0]), moves[1..], c);
    }
  }

  lemma FirstStepStaysAtTotal(cfg: Config, setup: W.Setup, b: Both, moves: seq<Move>, c: nat)
    requires BothOk(cfg, setup, b) && Draining(b.protocol) && c < |b.protocol.consumers|
    requires moves != [] && MoveEnabled(cfg, setup, b, moves[0]) && AllKeepDraining(b.protocol.claimed, StepsOf(moves))
    requires b.protocol.consumers[c].cursor == b.protocol.claimed
    ensures var t := MoveTo(cfg, setup, b, moves[0]).protocol;
            && Draining(t) && AllKeepDraining(t.claimed, StepsOf(moves[1..]))
            && c < |t.consumers| && t.consumers[c].cursor == t.claimed
  {
    if moves[0].Act? {
      var step := moves[0].step;
      assert StepsOf(moves)[0] == step && StepsOf(moves)[1..] == StepsOf(moves[1..]);
      DrainingStays(cfg, b.protocol, step);
      StaysAtTotal(cfg, b.protocol, step, c);
    } else {
      assert StepsOf(moves) == StepsOf(moves[1..]);
    }
  }

  ghost predicate AreBlockingRounds(cfg: Config, setup: W.Setup, b: Both, rounds: seq<seq<Move>>)
    decreases |rounds|
  {
    rounds == []
    || (&& IsBlockingRound(cfg, setup, b, rounds[0])
        && AreBlockingRounds(cfg, setup, AfterMoves(cfg, setup, b, rounds[0]), rounds[1..]))
  }

  ghost function AfterBlockingRounds(cfg: Config, setup: W.Setup, b: Both, rounds: seq<seq<Move>>): Both
    requires AreBlockingRounds(cfg, setup, b, rounds)
    decreases |rounds|
  {
    if rounds == [] then b else AfterBlockingRounds(cfg, setup, AfterMoves(cfg, setup, b, rounds[0]), rounds[1..])
  }

  ghost predicate BothDrain(cfg: Config, setup: W.Setup, b: Both) {
    BothOk(cfg, setup, b) && Draining(b.protocol)
  }

  lemma RoundKeeps(cfg: Config, setup: W.Setup, b: Both, moves: seq<Move>)
    requires BothDrain(cfg, setup, b) && IsBlockingRound(cfg, setup, b, moves)
    ensures BothDrain(cfg, setup, AfterMoves(cfg, setup, b, moves))
    ensures var s, t := b.protocol, AfterMoves(cfg, setup, b, moves).protocol;
            && t.claimed == s.claimed && |t.consumers| == |s.consumers|
            && (forall c :: 0 <= c < |s.consumers| ==> s.consumers[c].cursor <= t.consumers[c].cursor)
            && (forall c :: 0 <= c < |s.consumers| && s.consumers[c].stopped ==> t.consumers[c].stopped)
  {
    MovesKeep(cfg, setup, b, moves);
    ProtocolRuns(cfg, setup, b, moves);
    CursorsOnlyAdvance(cfg, b.protocol, StepsOf(moves));
  }

  lemma BlockingRoundLowersLag(cfg: Config, setup: W.Setup, b: Both, moves: seq<Move>, c0: nat)
    requires BothDrain(cfg, setup, b) && IsBlockingRound(cfg, setup, b, moves)
    requires c0 < |b.protocol.consumers| && b.protocol.consumers[c0].cursor < b.protocol.claimed
    ensures Lag(AfterMoves(cfg, setup, b, moves).protocol.consumers, b.protocol.claimed)
          < Lag(b.protocol.consumers, b.protocol.claimed)
  {
    var s, t := b.protocol, AfterMoves(cfg, setup, b, moves).protocol;
    RoundKeeps(cfg, setup, b, moves);
    NoneInFlight(cfg, s);
    var stage: seq<nat>, last: nat :| Layered(cfg.graph, stage, last);
    var c := SomebodyCanRead(cfg, s, stage, last, c0);
    if !t.consumers[c].stopped {
      if ComesToRest(cfg, setup, b, moves, c) {
        RestedHasMoved(cfg, setup, b, moves, c, s.consumers[c].cursor);
      } else {
        ProtocolRuns(cfg, setup, b, moves);
        WorkIsBounded(cfg, s, c);
        CompletesWithin(cfg, s, StepsOf(moves), c);
        CompletedCallMoved(cfg, s, StepsOf(moves), c, s.consumers[c].cursor);
      }
    }
    LagIsLess(s.consumers, t.consumers, s.claimed, c);
  }

  lemma BlockingRoundStops(cfg: Config, setup: W.Setup, b: Both, moves: seq<Move>)
    requires BothDrain(cfg, setup, b) && IsBlockingRound(cfg, setup, b, moves)
    requires forall c :: 0 <= c < |b.protocol.consumers| ==> b.protocol.consumers[c].cursor == b.protocol.claimed
    ensures var t := AfterMoves(cfg, setup, b, moves).protocol;
            forall c :: 0 <= c < |t.consumers| ==> t.consumers[c].stopped
  {
    var s, t := b.protocol, AfterMoves(cfg, setup, b, moves).protocol;
    RoundKeeps(cfg, setup, b, moves);
    ProtocolRuns(cfg, setup, b, moves);
    forall c | 0 <= c < |t.consumers| ensures t.consumers[c].stopped {
      RestedIsBehind(cfg, setup, b, moves, c);
      if !t.consumers[c].stopped {
        WorkIsBounded(cfg, s, c);
        CompletesWithin(cfg, s, StepsOf(moves), c);
        CompletedCallStopped(cfg, s, StepsOf(moves), c);
      }
    }
  }

  lemma {:induction false} AllStayStopped(cfg: Config, setup: W.Setup, b: Both, rounds: seq<seq<Move>>)
    requires BothDrain(cfg, setup, b) && AreBlockingRounds(cfg, setup, b, rounds)
    requires forall c :: 0 <= c < |b.protocol.consumers| ==> b.protocol.consumers[c].stopped
    ensures BothDrain(cfg, setup, AfterBlockingRounds(cfg, setup, b, rounds))
    ensures var t := AfterBlockingRounds(cfg, setup, b, rounds).protocol;
            && t.claimed == b.protocol.claimed && |t.consumers| == |b.protocol.consumers|
            && forall c :: 0 <= c < |t.consumers| ==> t.consumers[c].stopped
    decreases |rounds|
  {
    if rounds != [] {
      RoundKeeps(cfg, setup, b, rounds[0]);
      AllStayStopped(cfg, setup, AfterMoves(cfg, setup, b, rounds[0]), rounds[1..]);
    }
  }

  lemma LagIsLeft(cfg: Config, setup: W.Setup, b: Both)
    requires BothDrain(cfg, setup, b)
    ensures Lag(b.protocol.consumers, b.protocol.claimed) >= 0
    ensures forall c :: 0 <= c < |b.protocol.consumers| ==> b.protocol.consumers[c].cursor <= b.protocol.claimed
  {
    BelowTotal(cfg, b.protocol);
    LagIsNatural(b.protocol.consumers, b.protocol.claimed);
  }

  lemma {:induction false} BlockingRoundsDrain(cfg: Config, setup: W.Setup, b: Both, rounds: seq<seq<Move>>)
    requires BothDrain(cfg, setup, b) && AreBlockingRounds(cfg, setup, b, rounds)
    requires |rounds| > Lag(b.protocol.consumers, b.protocol.claimed)
    ensures BothDrain(cfg, setup, AfterBlockingRounds(cfg, setup, b, rounds))
    ensures var t := AfterBlockingRounds(cfg, setup, b, rounds).protocol;
            && t.claimed == b.protocol.claimed && |t.consumers| == |b.protocol.consumers|
            && forall c :: 0 <= c < |t.consumers| ==> t.consumers[c].stopped
    decreases |rounds|
  {
    var s := b.protocol;
    LagIsLeft(cfg, setup, b);
    RoundKeeps(cfg, setup, b, rounds[0]);
    if c0: nat :| c0 < |s.consumers| && s.consumers[c0].cursor < s.claimed {
      BlockingRoundLowersLag(cfg, setup, b, rounds[0], c0);
      BlockingRoundsDrain(cfg, setup, AfterMoves(cfg, setup, b, rounds[0]), rounds[1..]);
    } else {
      BlockingRoundStops(cfg, setup, b, rounds[0]);
      AllStayStopped(cfg, setup, AfterMoves(cfg, setup, b, rounds[0]), rounds[1..]);
    }
  }

  /** Draining with consumers that really block, under every schedule: from every reachable state of the
      composed machine in which the shutdown sequence is stored and the gates are open, after more rounds
      than there are events left, every consumer has finished every published event and has been told to
      stop. In a round a consumer takes its turn, or sleeps with nobody about to wake anyone; and nobody
      sleeps like that over an event it could read, or over the shutdown. */
  lemma EveryBlockingRunDrains(cfg: Config, setup: W.Setup, b: Both, rounds: seq<seq<Move>>)
    requires ValidConfig(cfg) && IsSetup(cfg, setup) && IsReached(cfg, setup, b)
    requires b.protocol.shutdown != -1 && GatesOpen(b.protocol)
    requires AreBlockingRounds(cfg, setup, b, rounds) && |rounds| > Lag(b.protocol.consumers, b.protocol.claimed)
    ensures var t := AfterBlockingRounds(cfg, setup, b, rounds);
            && t.protocol.claimed == b.protocol.claimed && |t.protocol.consumers| == |b.protocol.consumers|
            && forall c :: 0 <= c < |t.protocol.consumers| ==>
                 && t.protocol.consumers[c].stopped && HasEverything(cfg, t.protocol, c)
                 && !IsParkedInPeace(t, c)
  {
    ReachedIsOk(cfg, setup, b);
    BlockingRoundsDrain(cfg, setup, b, rounds);
    var t := AfterBlockingRounds(cfg, setup, b, rounds);
    forall c | 0 <= c < |t.protocol.consumers| ensures HasEverything(cfg, t.protocol, c) && !IsParkedInPeace(t, c) {
      StoppedHaveEverything(cfg, t.protocol, c);
      if IsParkedInPeace(t, c) {
        PeaceHasNothing(cfg, setup, t, c);
      }
    }
  }

  // --- blocked consumers settle ---------------------------------------------------------------------

  function Blocks(steps: seq<W.Step>): (r: seq<Move>)
    ensures |r| == |steps| && forall i :: 0 <= i < |r| ==> r[i] == Block(steps[i])
  {
    seq(|steps|, i requires 0 <= i < |steps| => Block(steps[i]))
  }

  lemma {:induction false} CarriedRunsAreMoves(cfg: Config, setup: W.Setup, b: Both, steps: seq<W.Step>)
    requires Wakeup.IsCarriedRun(setup, b.waiting, steps) && W.IsRun(setup, b.waiting, steps)
    ensures AreMoves(cfg, setup, b, Blocks(steps))
    ensures AfterMoves(cfg, setup, b, Blocks(steps)) == b.(waiting := W.After(setup, b.waiting, steps))
    decreases |steps|
  {
    if steps != [] {
      CarriedRunsAreMoves(cfg, setup, b.(waiting := W.Apply(setup, b.waiting, steps[0])), steps[1..]);
      assert Blocks(steps)[0] == Block(steps[0]) && Blocks(steps)[1..] == Blocks(steps[1..]);
    }
  }

  /** From every state that satisfies the invariant, the strategies alone can always get every consumer
      out of its wait or to rest, and every notifier to the end of its wake. */
  lemma BlockedConsumersSettle(cfg: Config, setup: W.Setup, b: Both) returns (moves: seq<Move>)
    requires BothOk(cfg, setup, b)
    ensures AreMoves(cfg, setup, b, moves) && StepsOf(moves) == []
    ensures var t := AfterMoves(cfg, setup, b, moves);
            && BothOk(cfg, setup, t) && t.protocol == b.protocol
            && (forall c :: 0 <= c < |t.waiting.waiters| ==> t.waiting.waiters[c].pc.Away? || IsParkedInPeace(t, c))
            && |t.waiting.notifiers| == |b.waiting.notifiers|
            && (forall n :: 0 <= n < |t.waiting.notifiers| ==> t.waiting.notifiers[n] == W.Quiet)
  {
    var steps := Wakeup.CarryOnToTheEnd(setup, b.waiting);
    CarriedRunsAreMoves(cfg, setup, b, steps);
    moves := Blocks(steps);
    NoSteps(moves);
    MovesKeep(cfg, setup, b, moves);
    NotifiersStay(setup, b.waiting, steps);
    var t := AfterMoves(cfg, setup, b, moves);
    Wakeup.QuiescentIsQuiet(setup, t.waiting);
    forall c | 0 <= c < |t.waiting.waiters| ensures t.waiting.waiters[c].pc.Away? || IsParkedInPeace(t, c) {
      Wakeup.QuiescentHasReturned(setup, t.waiting, c);
    }
  }

  lemma {:induction false} NotifiersStay(setup: W.Setup, s: W.State, steps: seq<W.Step>)
    requires W.IsRun(setup, s, steps)
    ensures |W.After(setup, s, steps).notifiers| == |s.notifiers|
    decreases |steps|
  {
    if steps != [] {
      NotifiersStay(setup, W.Apply(setup, s, steps[0]), steps[1..]);
    }
  }

  lemma {:induction false} NoSteps(moves: seq<Move>)
    requires forall i :: 0 <= i < |moves| ==> moves[i].Block?
    ensures StepsOf(moves) == []
  {
    if moves != [] {
      NoSteps(moves[1..]);
    }
  }

  // --- rounds can be had ----------------------------------------------------------------------------

  lemma FirstMove(cfg: Config, setup: W.Setup, b: Both, move: Move, rest: seq<Move>)
    requires MoveEnabled(cfg, setup, b, move) && AreMoves(cfg, setup, MoveTo(cfg, setup, b, move), rest)
    ensures AreMoves(cfg, setup, b, [move] + rest)
    ensures AfterMoves(cfg, setup, b, [move] + rest) == AfterMoves(cfg, setup, MoveTo(cfg, setup, b, move), rest)
  {
    assert ([move] + rest)[1..] == rest;
  }

  lemma {:induction false} MovesJoin(cfg: Config, setup: W.Setup, b: Both, first: seq<Move>, next: seq<Move>)
    requires AreMoves(cfg, setup, b, first) && AreMoves(cfg, setup, AfterMoves(cfg, setup, b, first), next)
    ensures AreMoves(cfg, setup, b, first + next)
    ensures AfterMoves(cfg, setup, b, first + next) == AfterMoves(cfg, setup, AfterMoves(cfg, setup, b, first), next)
    decreases |first|
  {
    if first == [] {
      assert first + next == next;
    } else {
      var rest := first[1..];
      MovesJoin(cfg, setup, MoveTo(cfg, setup, b, first[0]), rest, next);
      FirstMove(cfg, setup, b, first[0], rest + next);
      HeadFirst(first, next);
    }
  }

  lemma {:induction false} StepsJoin(first: seq<Move>, next: seq<Move>)
    ensures StepsOf(first + next) == StepsOf(first) + StepsOf(next)
  {
    if first == [] {
      assert first + next == next;
    } else {
      var rest := first[1..];
      StepsJoin(rest, next);
      HeadFirst(first, next);
      StepsOfMore(first[0], rest);
      StepsOfMore(first[0], rest + next);
      Regroup(if first[0].Act? then [first[0].step] else [], StepsOf(rest), StepsOf(next));
    }
  }

  lemma Regroup(a: seq<Step>, b: seq<Step>, c: seq<Step>)
    ensures a + (b + c) == (a + b) + c
  {
  }

  lemma StepsOfMore(move: Move, rest: seq<Move>)
    ensures StepsOf([move] + rest) == (if move.Act? then [move.step] else []) + StepsOf(rest)
  {
    assert ([move] + rest)[1..] == rest;
  }

  lemma HeadFirst(first: seq<Move>, next: seq<Move>)
    requires first != []
    ensures first + next == [first[0]] + (first[1..] + next) && first == [first[0]] + first[1..]
  {
  }

  lemma {:induction false} OwnStepsJoin(c: nat, first: seq<Step>, next: seq<Step>)
    ensures OwnSteps(c, first + next) == OwnSteps(c, first) + OwnSteps(c, next)
  {
    if first == [] {
      assert first + next == next;
    } else {
      OwnStepsJoin(c, first[1..], next);
      assert (first + next)[0] == first[0] && (first + next)[1..] == first[1..] + next;
    }
  }

  lemma {:induction false} RestsAfter(cfg: Config, setup: W.Setup, b: Both, first: seq<Move>, next: seq<Move>, c: nat)
    requires AreMoves(cfg, setup, b, first) && AreMoves(cfg, setup, b, first + next)
    requires IsParkedInPeace(AfterMoves(cfg, setup, b, first), c)
    ensures ComesToRest(cfg, setup, b, first + next, c)
    decreases |first|
  {
    if first != [] {
      assert (first + next)[0] == first[0] && (first + next)[1..] == first[1..] + next;
      RestsAfter(cfg, setup, MoveTo(cfg, setup, b, first[0]), first[1..], next, c);
    }
  }

  /** A state in which the first notifier can announce stores. */
  ghost predicate MayAct(cfg: Config, setup: W.Setup, b: Both) {
    && BothDrain(cfg, setup, b) && Reached(cfg, b.protocol)
    && |b.waiting.notifiers| > 0 && (b.waiting.notifiers[0] == W.Quiet || b.waiting.notifiers[0] == W.Stored)
  }

  /** Nobody has begun or ended a wait, claimed, or taken back that it is to stop. */
  ghost predicate LeavesWaiters(b: Both, t: Both) {
    && t.waiting.waiters == b.waiting.waiters && t.protocol.claimed == b.protocol.claimed
    && |t.protocol.consumers| == |b.protocol.consumers|
    && forall c :: 0 <= c < |b.protocol.consumers| && b.protocol.consumers[c].stopped ==> t.protocol.consumers[c].stopped
  }

  /** Moves of consumers that drain, from `b` to `t`. */
  ghost predicate AreTurns(cfg: Config, setup: W.Setup, b: Both, moves: seq<Move>, t: Both) {
    && AreMoves(cfg, setup, b, moves) && AfterMoves(cfg, setup, b, moves) == t
    && AllKeepDraining(b.protocol.claimed, StepsOf(moves)) && LeavesWaiters(b, t)
  }

  lemma TurnsJoin(cfg: Config, setup: W.Setup, b: Both, first: seq<Move>, t: Both, next: seq<Move>, u: Both)
    requires AreTurns(cfg, setup, b, first, t) && AreTurns(cfg, setup, t, next, u)
    ensures AreTurns(cfg, setup, b, first + next, u)
  {
    MovesJoin(cfg, setup, b, first, next);
    StepsJoin(first, next);
  }

  lemma MoreSteps(c: nat, first: seq<Move>, next: seq<Move>)
    ensures OwnSteps(c, StepsOf(first + next)) == OwnSteps(c, StepsOf(first)) + OwnSteps(c, StepsOf(next))
  {
    StepsJoin(first, next);
    OwnStepsJoin(c, StepsOf(first), StepsOf(next));
  }

  lemma OneTurnStep(cfg: Config, setup: W.Setup, b: Both, c: nat) returns (move: Move, t: Both)
    requires MayAct(cfg, setup, b) && c < |b.protocol.consumers| && !b.protocol.consumers[c].stopped
    requires b.waiting.waiters[c].pc.Away?
    ensures AreTurns(cfg, setup, b, [move], t) && MayAct(cfg, setup, t) && OwnSteps(c, StepsOf([move])) == 1
  {
    var action := ConsumersAreNotBlocked(cfg, b.protocol, c);
    var step := ByConsumer(c, action);
    move := Act(step, 0);
    t := MoveTo(cfg, setup, b, move);
    StoreIsEnabled(cfg, setup, b, step);
    FirstMove(cfg, setup, b, move, []);
    assert [move] + [] == [move];
    MoveKeeps(cfg, setup, b, move);
    ConsumerStepDrains(cfg, b.protocol, step);
    StepsOfOne(step, c);
  }

  lemma StepsOfOne(step: Step, c: nat)
    requires step.ByConsumer? && step.c == c
    ensures StepsOf([Act(step, 0)]) == [step] && OwnSteps(c, [step]) == 1
  {
    assert StepsOf([Act(step, 0)]) == [step] + StepsOf([]);
    assert OwnSteps(c, [step]) == 1 + OwnSteps(c, [step][1..]);
  }

  lemma ConsumerStepDrains(cfg: Config, s: State, step: Step)
    requires Drains(cfg, s) && Reached(cfg, s) && Enabled(cfg, s, step) && IsBy(Consumers, step)
    ensures var t := Apply(cfg, s, step);
            && Drains(cfg, t) && Reached(cfg, t) && t.claimed == s.claimed && |t.consumers| == |s.consumers|
            && forall d :: 0 <= d < |s.consumers| && s.consumers[d].stopped ==> t.consumers[d].stopped
  {
    DrainingStays(cfg, s, step);
    var t := StepBy(cfg, Consumers, s, step);
    forall d | 0 <= d < |s.consumers| && s.consumers[d].stopped ensures t.consumers[d].stopped {
      StoppedStays(cfg, s, step, d);
    }
  }

  lemma StoreIsEnabled(cfg: Config, setup: W.Setup, b: Both, step: Step)
    requires MayAct(cfg, setup, b) && Enabled(cfg, b.protocol, step)
    ensures var store := StoreOf(cfg, b.protocol, step);
            store.Some? ==>
              && W.Enabled(setup, b.waiting, W.ByNotifier(0, store.value))
              && var t := W.Apply(setup, b.waiting, W.ByNotifier(0, store.value));
                 t.waiters == b.waiting.waiters && |t.notifiers| == |b.waiting.notifiers| && t.notifiers[0] == W.Stored
  {
    CellsChange(cfg, b.protocol, step);
  }

  lemma NoTurns(cfg: Config, setup: W.Setup, b: Both)
    ensures AreTurns(cfg, setup, b, [], b)
  {
  }

  lemma {:induction false} TakeTurn(cfg: Config, setup: W.Setup, b: Both, c: nat, k: nat) returns (moves: seq<Move>, t: Both)
    requires MayAct(cfg, setup, b) && c < |b.protocol.consumers| && b.waiting.waiters[c].pc.Away?
    ensures AreTurns(cfg, setup, b, moves, t) && MayAct(cfg, setup, t)
    ensures t.protocol.consumers[c].stopped || OwnSteps(c, StepsOf(moves)) >= k
    decreases k
  {
    if k == 0 || b.protocol.consumers[c].stopped {
      moves, t := [], b;
      NoTurns(cfg, setup, b);
    } else {
      var move, u := OneTurnStep(cfg, setup, b, c);
      var rest;
      rest, t := TakeTurn(cfg, setup, u, c, k - 1);
      moves := [move] + rest;
      TurnsJoin(cfg, setup, b, [move], u, rest, t);
      MoreSteps(c, [move], rest);
    }
  }

  /** Has consumer `c` taken a turn, has it been told to stop, or does it wait? */
  ghost predicate HadTurn(cfg: Config, t: Both, moves: seq<Move>, c: nat)
    requires c < |cfg.graph.barriers|
  {
    && c < |t.protocol.consumers| && c < |t.waiting.waiters|
    && (|| t.protocol.consumers[c].stopped
        || !t.waiting.waiters[c].pc.Away?
        || OwnSteps(c, StepsOf(moves)) >= Turn(cfg, c))
  }

  lemma KeepsTurn(cfg: Config, t: Both, moves: seq<Move>, u: Both, rest: seq<Move>, c: nat)
    requires c < |cfg.graph.barriers| && HadTurn(cfg, t, moves, c) && LeavesWaiters(t, u)
    ensures HadTurn(cfg, u, moves + rest, c)
  {
    MoreSteps(c, moves, rest);
  }

  /** Moves from `b` to `t` in which each of the first `k` consumers has had its turn. */
  ghost predicate AreTurnsOf(cfg: Config, setup: W.Setup, b: Both, moves: seq<Move>, t: Both, k: nat) {
    && AreTurns(cfg, setup, b, moves, t) && MayAct(cfg, setup, t)
    && forall c :: 0 <= c < k ==> c < |cfg.graph.barriers| && HadTurn(cfg, t, moves, c)
  }

  lemma {:induction false} TakeTurns(cfg: Config, setup: W.Setup, b: Both, k: nat) returns (moves: seq<Move>, t: Both)
    requires MayAct(cfg, setup, b) && k <= |b.protocol.consumers|
    ensures AreTurnsOf(cfg, setup, b, moves, t, k)
  {
    if k == 0 {
      moves, t := [], b;
      NoTurns(cfg, setup, b);
    } else {
      var before, u := TakeTurns(cfg, setup, b, k - 1);
      moves, t := OneMoreTurn(cfg, setup, b, before, u, k - 1);
    }
  }

  lemma OneMoreTurn(cfg: Config, setup: W.Setup, b: Both, before: seq<Move>, u: Both, k: nat)
    returns (moves: seq<Move>, t: Both)
    requires AreTurnsOf(cfg, setup, b, before, u, k) && k < |b.protocol.consumers|
    ensures AreTurnsOf(cfg, setup, b, moves, t, k + 1)
  {
    var rest;
    rest, t := TurnIfAway(cfg, setup, u, k);
    moves := before + rest;
    TurnsJoin(cfg, setup, b, before, u, rest, t);
    OneMoreHadTurn(cfg, u, before, t, rest, k);
  }

  lemma OneMoreHadTurn(cfg: Config, t: Both, moves: seq<Move>, u: Both, rest: seq<Move>, k: nat)
    requires forall c :: 0 <= c < k ==> c < |cfg.graph.barriers| && HadTurn(cfg, t, moves, c)
    requires k < |cfg.graph.barriers| && HadTurn(cfg, u, rest, k) && LeavesWaiters(t, u)
    ensures forall c :: 0 <= c < k + 1 ==> c < |cfg.graph.barriers| && HadTurn(cfg, u, moves + rest, c)
  {
    forall c | 0 <= c < k + 1 ensures HadTurn(cfg, u, moves + rest, c) {
      if c < k {
        KeepsTurn(cfg, t, moves, u, rest, c);
      } else {
        MoreSteps(c, moves, rest);
      }
    }
  }

  lemma TurnIfAway(cfg: Config, setup: W.Setup, b: Both, c: nat) returns (moves: seq<Move>, t: Both)
    requires MayAct(cfg, setup, b) && c < |b.protocol.consumers|
    ensures AreTurns(cfg, setup, b, moves, t) && MayAct(cfg, setup, t)
    ensures c < |cfg.graph.barriers| && HadTurn(cfg, t, moves, c)
  {
    if b.waiting.waiters[c].pc.Away? {
      moves, t := TakeTurn(cfg, setup, b, c, Turn(cfg, c));
    } else {
      moves, t := [], b;
      NoTurns(cfg, setup, b);
    }
  }

  /** Rounds can be had: while the disruptor drains, its consumers, and the wakes on their way, can always
      complete another one. */
  lemma BlockingRoundExists(cfg: Config, setup: W.Setup, b: Both) returns (moves: seq<Move>)
    requires ValidConfig(cfg) && IsSetup(cfg, setup) && IsReached(cfg, setup, b) && |b.waiting.notifiers| > 0
    requires b.protocol.shutdown != -1 && GatesOpen(b.protocol)
    ensures IsBlockingRound(cfg, setup, b, moves)
  {
    ReachedIsOk(cfg, setup, b);
    ProtocolIsReached(cfg, setup, b);
    var settle := BlockedConsumersSettle(cfg, setup, b);
    var u := AfterMoves(cfg, setup, b, settle);
    var turns, t := TakeTurns(cfg, setup, u, |u.protocol.consumers|);
    moves := settle + turns;
    MovesJoin(cfg, setup, b, settle, turns);
    StepsJoin(settle, turns);
    assert StepsOf(moves) == StepsOf(turns);
    forall c | 0 <= c < |cfg.graph.barriers| && c < |t.protocol.consumers| && !t.protocol.consumers[c].stopped
      ensures OwnSteps(c, StepsOf(moves)) >= Turn(cfg, c) || ComesToRest(cfg, setup, b, moves, c)
    {
      assert HadTurn(cfg, t, turns, c);
      if !u.waiting.waiters[c].pc.Away? {
        RestsAfter(cfg, setup, b, settle, turns, c);
      }
    }
  }

  lemma ProtocolIsReached(cfg: Config, setup: W.Setup, b: Both)
    requires ValidConfig(cfg) && IsReached(cfg, setup, b)
    ensures Reached(cfg, b.protocol)
  {
    var start: Both, moves: seq<Move> :|
      IsStart(cfg, setup, start) && AreMoves(cfg, setup, start, moves) && AfterMoves(cfg, setup, start, moves) == b;
    ProtocolRuns(cfg, setup, start, moves);
  }

  lemma {:induction false} NotifiersRemain(cfg: Config, setup: W.Setup, b: Both, moves: seq<Move>)
    requires AreMoves(cfg, setup, b, moves)
    ensures |AfterMoves(cfg, setup, b, moves).waiting.notifiers| == |b.waiting.notifiers|
    decreases |moves|
  {
    if moves != [] {
      NotifiersRemain(cfg, setup, MoveTo(cfg, setup, b, moves[0]), moves[1..]);
    }
  }

  lemma ReachedOn(cfg: Config, setup: W.Setup, b: Both, moves: seq<Move>)
    requires IsReached(cfg, setup, b) && AreMoves(cfg, setup, b, moves)
    ensures IsReached(cfg, setup, AfterMoves(cfg, setup, b, moves))
  {
    var start: Both, before: seq<Move> :|
      IsStart(cfg, setup, start) && AreMoves(cfg, setup, start, before) && AfterMoves(cfg, setup, start, before) == b;
    MovesJoin(cfg, setup, start, before, moves);
  }

  /** And as many of them as one likes. */
  lemma {:induction false} BlockingRoundsExist(cfg: Config, setup: W.Setup, b: Both, n: nat) returns (rounds: seq<seq<Move>>)
    requires ValidConfig(cfg) && IsSetup(cfg, setup) && IsReached(cfg, setup, b) && |b.waiting.notifiers| > 0
    requires b.protocol.shutdown != -1 && GatesOpen(b.protocol)
    ensures AreBlockingRounds(cfg, setup, b, rounds) && |rounds| == n
    decreases n
  {
    if n == 0 {
      rounds := [];
    } else {
      var moves := BlockingRoundExists(cfg, setup, b);
      StillDrains(cfg, setup, b, moves);
      var rest := BlockingRoundsExist(cfg, setup, AfterMoves(cfg, setup, b, moves), n - 1);
      rounds := FirstRound(cfg, setup, b, moves, rest);
    }
  }

  lemma StillDrains(cfg: Config, setup: W.Setup, b: Both, moves: seq<Move>)
    requires ValidConfig(cfg) && IsSetup(cfg, setup) && IsReached(cfg, setup, b)
    requires b.protocol.shutdown != -1 && GatesOpen(b.protocol) && IsBlockingRound(cfg, setup, b, moves)
    ensures var t := AfterMoves(cfg, setup, b, moves);
            && IsReached(cfg, setup, t) && |t.waiting.notifiers| == |b.waiting.notifiers|
            && t.protocol.shutdown != -1 && GatesOpen(t.protocol)
  {
    ReachedIsOk(cfg, setup, b);
    RoundKeeps(cfg, setup, b, moves);
    ReachedOn(cfg, setup, b, moves);
    NotifiersRemain(cfg, setup, b, moves);
  }

  lemma FirstRound(cfg: Config, setup: W.Setup, b: Both, moves: seq<Move>, rest: seq<seq<Move>>)
    returns (rounds: seq<seq<Move>>)
    requires IsBlockingRound(cfg, setup, b, moves) && AreBlockingRounds(cfg, setup, AfterMoves(cfg, setup, b, moves), rest)
    ensures AreBlockingRounds(cfg, setup, b, rounds) && |rounds| == 1 + |rest|
  {
    rounds := [moves] + rest;
    assert rounds[1..] == rest;
  }
}
