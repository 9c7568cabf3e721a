/** The blocking wait strategies as a step machine: waiters that check, park and wake, notifiers that
    store and then wake, one mutex, one condition variable, one epoch and, for the lite strategy, the
    `signal_needed` flag.

    A barrier is a list of shared cells (consumer cursors, gates, the producers' frontier); it offers
    sequence `r` when every cell is at least `r`. Cells may be set to anything, also backwards, and
    every store is followed by a wake. */
module Waiting {
  import opened Bits
  import opened Availability

  datatype Strategy = Blocking | LiteBlocking

  /** `watched[w]` are the cells the barrier of waiter `w` reads. */
  datatype Setup = Setup(strategy: Strategy, spinTries: nat, watched: seq<seq<nat>>)

  // --- state ----------------------------------------------------------------------------------------

  /** How a check runs: without the mutex, with so many spins to go, or holding the mutex. */
  datatype Mode = Free(spins: nat) | Locked

  /** Where a waiter is. `short` is a cell that was found below the requested sequence. */
  datatype WaiterPc =
    | Away
    | Reading(mode: Mode, read: nat, found: Option<nat>)
    | ReadingShutdown(mode: Mode, short: nat)
    | Locking
    | Signalling
    | Parking(short: nat)
    | Parked(short: nat)
    | Woken
    | Rechecking

  datatype Waiter = Waiter(pc: WaiterPc, requested: int, epoch: nat)

  datatype NotifierPc =
    | Quiet
    | Stored
    | WantsMutex
    | Bumping
    | Broadcasting
    | Unlocking

  datatype Holder = Nobody | TheWaiter(w: nat) | TheNotifier(n: nat)

  datatype State = State(
    cells: seq<int>,
    shutdown: int,
    mutex: Holder,
    epoch: nat,
    signalNeeded: bool,
    waiters: seq<Waiter>,
    notifiers: seq<NotifierPc>)

  predicate IsInitial(setup: Setup, s: State) {
    && |s.waiters| == |setup.watched|
    && (forall w :: 0 <= w < |s.waiters| ==> s.waiters[w].pc == Away)
    && (forall n :: 0 <= n < |s.notifiers| ==> s.notifiers[n] == Quiet)
    && s.mutex == Nobody && s.epoch == 0 && !s.signalNeeded
    && (forall w :: 0 <= w < |setup.watched| ==> forall i :: i in setup.watched[w] ==> i < |s.cells|)
  }

  // --- steps ----------------------------------------------------------------------------------------

  datatype WaiterAction =
    | WaitFor(requested: int)
    | ReadCell
    | FinishReading
    | ReadShutdown
    | Lock
    | StoreSignal
    | Park
    | WakeSpuriously
    | Relock
    | CompareEpochs

  datatype NotifierAction =
    | StoreCell(cell: nat, value: int)
    | StoreShutdown(sequence: int)
    | BeginWake
    | LockForWake
    | BumpEpoch
    | NotifyAll
    | Unlock

  datatype Step = ByWaiter(w: nat, waiterAction: WaiterAction) | ByNotifier(n: nat, notifierAction: NotifierAction)

  predicate Enabled(setup: Setup, s: State, step: Step) {
    match step
    case ByWaiter(w, action) => w < |s.waiters| && w < |setup.watched| && WaiterEnabled(setup, s, w, action)
    case ByNotifier(n, action) => n < |s.notifiers| && NotifierEnabled(s, s.notifiers[n], action)
  }

  predicate WaiterEnabled(setup: Setup, s: State, w: nat, action: WaiterAction)
    requires w < |s.waiters| && w < |setup.watched|
  {
    var pc := s.waiters[w].pc;
    match action
    case WaitFor(_) => pc.Away?
    case ReadCell => pc.Reading? && pc.read < |setup.watched[w]| && setup.watched[w][pc.read] < |s.cells|
    case FinishReading => pc.Reading? && pc.read == |setup.watched[w]|
    case ReadShutdown => pc.ReadingShutdown?
    case Lock => pc.Locking? && s.mutex == Nobody
    case StoreSignal => pc.Signalling?
    case Park => pc.Parking?
    case WakeSpuriously => pc.Parked?
    case Relock => pc.Woken? && s.mutex == Nobody
    case CompareEpochs => pc.Rechecking?
  }

  predicate NotifierEnabled(s: State, pc: NotifierPc, action: NotifierAction) {
    match action
    case StoreCell(i, _) => (pc.Quiet? || pc.Stored?) && i < |s.cells|
    case StoreShutdown(_) => pc.Quiet? || pc.Stored?
    case BeginWake => pc.Quiet? || pc.Stored?
    case LockForWake => pc.WantsMutex? && s.mutex == Nobody
    case BumpEpoch => pc.Bumping?
    case NotifyAll => pc.Broadcasting?
    case Unlock => pc.Unlocking?
  }

  function Apply(setup: Setup, s: State, step: Step): State
    requires Enabled(setup, s, step)
  {
    match step
    case ByWaiter(w, action) => ApplyWaiter(setup, s, w, action)
    case ByNotifier(n, action) => ApplyNotifier(setup, s, n, action)
  }

  function Go(s: State, w: nat, pc: WaiterPc): State
    requires w < |s.waiters|
  {
    s.(waiters := s.waiters[w := s.waiters[w].(pc := pc)])
  }

  /** The top of the loop under the mutex. */
  function InnerLoop(setup: Setup): WaiterPc {
    if setup.strategy == LiteBlocking then Signalling else Reading(Locked, 0, None)
  }

  /** Leaving `wait_for` releases the mutex if it is held. */
  function Return(s: State, w: nat, mode: Mode): State
    requires w < |s.waiters|
  {
    Go(if mode == Locked then s.(mutex := Nobody) else s, w, Away)
  }

  function ApplyWaiter(setup: Setup, s: State, w: nat, action: WaiterAction): State
    requires w < |s.waiters| && w < |setup.watched| && WaiterEnabled(setup, s, w, action)
  {
    var x := s.waiters[w];
    match action
    case WaitFor(r) => s.(waiters := s.waiters[w := x.(pc := Reading(Free(setup.spinTries), 0, None), requested := r)])
    case ReadCell =>
      var i := setup.watched[w][x.pc.read];
      Go(s, w, x.pc.(read := x.pc.read + 1,
                     found := if x.pc.found == None && s.cells[i] < x.requested then Some(i) else x.pc.found))
    case FinishReading =>
      (match x.pc.found
       case None => Return(s, w, x.pc.mode)
       case Some(i) => Go(s, w, ReadingShutdown(x.pc.mode, i)))
    case ReadShutdown =>
      if s.shutdown == x.requested then Return(s, w, x.pc.mode)
      else
        (match x.pc.mode
         case Free(spins) => Go(s, w, if spins > 0 then Reading(Free(spins - 1), 0, None) else Locking)
         case Locked => Go(s, w, Parking(x.pc.short)))
    case Lock => s.(mutex := TheWaiter(w), waiters := s.waiters[w := x.(pc := InnerLoop(setup), epoch := s.epoch)])
    case StoreSignal => Go(s.(signalNeeded := true), w, Reading(Locked, 0, None))
    case Park => Go(s.(mutex := Nobody), w, Parked(x.pc.short))
    case WakeSpuriously => Go(s, w, Woken)
    case Relock => Go(s.(mutex := TheWaiter(w)), w, Rechecking)
    case CompareEpochs =>
      if s.epoch == x.epoch then Go(s, w, InnerLoop(setup))
      else Go(s.(mutex := Nobody), w, Reading(Free(setup.spinTries), 0, None))
  }

  function Move(s: State, n: nat, pc: NotifierPc): State
    requires n < |s.notifiers|
  {
    s.(notifiers := s.notifiers[n := pc])
  }

  function UnparkAll(waiters: seq<Waiter>): (r: seq<Waiter>)
    ensures |r| == |waiters|
    ensures forall w :: 0 <= w < |r| ==>
              r[w] == if waiters[w].pc.Parked? then waiters[w].(pc := Woken) else waiters[w]
  {
    seq(|waiters|, w requires 0 <= w < |waiters| =>
      if waiters[w].pc.Parked? then waiters[w].(pc := Woken) else waiters[w])
  }

  function ApplyNotifier(setup: Setup, s: State, n: nat, action: NotifierAction): State
    requires n < |s.notifiers| && NotifierEnabled(s, s.notifiers[n], action)
  {
    match action
    case StoreCell(i, v) => Move(s.(cells := s.cells[i := v]), n, Stored)
    case StoreShutdown(v) => Move(s.(shutdown := v), n, Stored)
    case BeginWake =>
      if setup.strategy == LiteBlocking
      then Move(s.(signalNeeded := false), n, if s.signalNeeded then WantsMutex else Quiet)
      else Move(s, n, WantsMutex)
    case LockForWake => Move(s.(mutex := TheNotifier(n)), n, Bumping)
    case BumpEpoch => Move(s.(epoch := (s.epoch + 1) % Pow2(WIDTH)), n, Broadcasting)
    case NotifyAll => Move(s.(waiters := UnparkAll(s.waiters)), n, Unlocking)
    case Unlock => Move(s.(mutex := Nobody), n, Quiet)
  }

  predicate IsRun(setup: Setup, s: State, steps: seq<Step>)
    decreases |steps|
  {
    steps == [] || (Enabled(setup, s, steps[0]) && IsRun(setup, Apply(setup, s, steps[0]), steps[1..]))
  }

  function After(setup: Setup, s: State, steps: seq<Step>): State
    requires IsRun(setup, s, steps)
    decreases |steps|
  {
    if steps == [] then s else After(setup, Apply(setup, s, steps[0]), steps[1..])
  }

  ghost predicate Reachable(setup: Setup, s: State) {
    exists start: State, steps: seq<Step> ::
      IsInitial(setup, start) && IsRun(setup, start, steps) && After(setup, start, steps) == s
  }

  // --- what may be asked ----------------------------------------------------------------------------

  /** Is what waiter `w` waits for the case: everything it asked for is available, or shutdown? */
  ghost predicate IsDue(setup: Setup, s: State, w: nat)
    requires w < |s.waiters| && w < |setup.watched|
  {
    || s.shutdown == s.waiters[w].requested
    || forall i :: i in setup.watched[w] ==> i < |s.cells| && s.cells[i] >= s.waiters[w].requested
  }

  /** Is the notifier bound to notify: has it stored something, or taken the signal, and not notified yet? */
  predicate Pending(pc: NotifierPc) {
    pc.Stored? || Carrying(pc)
  }

  predicate Carrying(pc: NotifierPc) {
    pc.WantsMutex? || pc.Bumping? || pc.Broadcasting?
  }

  ghost predicate SomePending(s: State) {
    exists n :: 0 <= n < |s.notifiers| && Pending(s.notifiers[n])
  }

  ghost predicate SomeCarrying(s: State) {
    exists n :: 0 <= n < |s.notifiers| && Carrying(s.notifiers[n])
  }

  // --- invariant ------------------------------------------------------------------------------------

  predicate WaiterHolds(pc: WaiterPc) {
    || (pc.Reading? && pc.mode == Locked)
    || (pc.ReadingShutdown? && pc.mode == Locked)
    || pc.Signalling? || pc.Parking? || pc.Rechecking?
  }

  predicate NotifierHolds(pc: NotifierPc) {
    pc.Bumping? || pc.Broadcasting? || pc.Unlocking?
  }

  /** The cell, if any, on which the waiter has given up while holding the mutex, or is parked. */
  function ShortOf(pc: WaiterPc): Option<nat> {
    match pc
    case Reading(Locked, _, found) => found
    case ReadingShutdown(Locked, short) => Some(short)
    case Parking(short) => Some(short)
    case Parked(short) => Some(short)
    case _ => None
  }

  predicate GaveUpOnShutdown(pc: WaiterPc) {
    pc.Parking? || pc.Parked?
  }

  /** Has the waiter announced itself under the mutex and not been woken since? */
  predicate Announced(pc: WaiterPc) {
    || (pc.Reading? && pc.mode == Locked)
    || (pc.ReadingShutdown? && pc.mode == Locked)
    || pc.Parking? || pc.Parked?
  }

  ghost predicate WaiterOk(setup: Setup, s: State, w: nat)
    requires w < |s.waiters| && w < |setup.watched|
  {
    var x := s.waiters[w];
    && (WaiterHolds(x.pc) <==> s.mutex == TheWaiter(w))
    && (x.pc.Reading? ==> x.pc.read <= |setup.watched[w]|)
    && (ShortOf(x.pc).Some? ==>
          var i := ShortOf(x.pc).value;
          i in setup.watched[w] && i < |s.cells| && (s.cells[i] < x.requested || SomePending(s)))
    && (GaveUpOnShutdown(x.pc) ==> s.shutdown != x.requested || SomePending(s))
    && (setup.strategy == LiteBlocking && Announced(x.pc) ==> s.signalNeeded || SomeCarrying(s))
  }

  ghost predicate Inv(setup: Setup, s: State) {
    && |s.waiters| == |setup.watched|
    && (forall w :: 0 <= w < |setup.watched| ==> forall i :: i in setup.watched[w] ==> i < |s.cells|)
    && (forall w :: 0 <= w < |s.waiters| ==> WaiterOk(setup, s, w))
    && (s.mutex.TheWaiter? ==> s.mutex.w < |s.waiters|) && (s.mutex.TheNotifier? ==> s.mutex.n < |s.notifiers|)
    && (forall n :: 0 <= n < |s.notifiers| ==> (NotifierHolds(s.notifiers[n]) <==> s.mutex == TheNotifier(n)))
  }

  lemma WaiterKeeps(setup: Setup, s: State, w: nat, action: WaiterAction)
    requires Inv(setup, s) && Enabled(setup, s, ByWaiter(w, action))
    ensures Inv(setup, ApplyWaiter(setup, s, w, action))
  {
    var t := ApplyWaiter(setup, s, w, action);
    var x := s.waiters[w];
    assert WaiterOk(setup, s, w);
    assert t.notifiers == s.notifiers;
    assert SomePending(t) == SomePending(s) && SomeCarrying(t) == SomeCarrying(s);
    MutexMoves(setup, s, w, action);
    forall v | 0 <= v < |t.waiters| ensures WaiterOk(setup, t, v) {
      assert WaiterOk(setup, s, v);
      if v == w {
        OwnStep(setup, s, w, action);
      } else {
        OthersStay(setup, s, t, v);
      }
    }
  }

  lemma MutexMoves(setup: Setup, s: State, w: nat, action: WaiterAction)
    requires Inv(setup, s) && Enabled(setup, s, ByWaiter(w, action))
    ensures var t := ApplyWaiter(setup, s, w, action);
            && t.waiters == s.waiters[w := t.waiters[w]]
            && t.cells == s.cells && t.shutdown == s.shutdown && t.notifiers == s.notifiers
            && (t.mutex == s.mutex || (s.mutex == Nobody && t.mutex == TheWaiter(w))
                                   || (s.mutex == TheWaiter(w) && t.mutex == Nobody))
            && (WaiterHolds(t.waiters[w].pc) <==> t.mutex == TheWaiter(w))
            && (s.signalNeeded ==> t.signalNeeded)
  {
    assert WaiterOk(setup, s, w);
  }

  lemma OthersStay(setup: Setup, s: State, t: State, v: nat)
    requires v < |s.waiters| == |setup.watched| == |t.waiters| && WaiterOk(setup, s, v)
    requires t.waiters[v] == s.waiters[v] && t.cells == s.cells && t.shutdown == s.shutdown
    requires t.notifiers == s.notifiers && (s.signalNeeded ==> t.signalNeeded)
    requires s.mutex == TheWaiter(v) <==> t.mutex == TheWaiter(v)
    ensures WaiterOk(setup, t, v)
  {
    assert SomePending(t) == SomePending(s) && SomeCarrying(t) == SomeCarrying(s);
  }

  lemma OwnStep(setup: Setup, s: State, w: nat, action: WaiterAction)
    requires Inv(setup, s) && Enabled(setup, s, ByWaiter(w, action))
    ensures WaiterOk(setup, ApplyWaiter(setup, s, w, action), w)
  {
    var t := ApplyWaiter(setup, s, w, action);
    assert WaiterOk(setup, s, w);
    MutexMoves(setup, s, w, action);
    assert SomePending(t) == SomePending(s) && SomeCarrying(t) == SomeCarrying(s);
    if action.ReadCell? {
      assert setup.watched[w][s.waiters[w].pc.read] in setup.watched[w];
    }
  }

  lemma NotifierKeeps(setup: Setup, s: State, n: nat, action: NotifierAction)
    requires Inv(setup, s) && Enabled(setup, s, ByNotifier(n, action))
    ensures Inv(setup, ApplyNotifier(setup, s, n, action))
  {
    var t := ApplyNotifier(setup, s, n, action);
    if action.NotifyAll? {
      BroadcastKeeps(setup, s, n);
    } else if action.BeginWake? {
      BeginWakeKeeps(setup, s, n);
    } else {
      PendingKept(s, t, n);
      assert action.StoreCell? || action.StoreShutdown? ==> Pending(t.notifiers[n]);
      forall w | 0 <= w < |t.waiters| ensures WaiterOk(setup, t, w) {
        assert WaiterOk(setup, s, w);
      }
    }
  }

  /** Another notifier's duty is not affected by what notifier `n` does. */
  lemma PendingKept(s: State, t: State, n: nat)
    requires n < |s.notifiers| == |t.notifiers| && t.notifiers == s.notifiers[n := t.notifiers[n]]
    requires Pending(s.notifiers[n]) ==> Pending(t.notifiers[n])
    requires Carrying(s.notifiers[n]) ==> Carrying(t.notifiers[n])
    ensures SomePending(s) ==> SomePending(t)
    ensures SomeCarrying(s) ==> SomeCarrying(t)
  {
    forall m | 0 <= m < |s.notifiers| ensures Pending(s.notifiers[m]) ==> Pending(t.notifiers[m]) {
    }
    forall m | 0 <= m < |s.notifiers| ensures Carrying(s.notifiers[m]) ==> Carrying(t.notifiers[m]) {
    }
  }

  /** A broadcast happens under the mutex, so that nobody is between its check and its parking, and
      everybody who is parked wakes up. */
  lemma BroadcastKeeps(setup: Setup, s: State, n: nat)
    requires Inv(setup, s) && Enabled(setup, s, ByNotifier(n, NotifyAll))
    ensures Inv(setup, ApplyNotifier(setup, s, n, NotifyAll))
  {
    var t := ApplyNotifier(setup, s, n, NotifyAll);
    forall w | 0 <= w < |t.waiters| ensures WaiterOk(setup, t, w) {
      assert WaiterOk(setup, s, w);
      assert !Announced(t.waiters[w].pc) && ShortOf(t.waiters[w].pc) == None;
    }
  }

  /** Whoever finds the flag cleared may leave: somebody else has taken the signal and will notify. */
  lemma BeginWakeKeeps(setup: Setup, s: State, n: nat)
    requires Inv(setup, s) && Enabled(setup, s, ByNotifier(n, BeginWake))
    ensures Inv(setup, ApplyNotifier(setup, s, n, BeginWake))
  {
    var t := ApplyNotifier(setup, s, n, BeginWake);
    if t.notifiers[n] == WantsMutex {
      assert Carrying(t.notifiers[n]) && Pending(t.notifiers[n]);
    } else {
      assert SomeCarrying(s) ==> SomeCarrying(t) && SomePending(t) by {
        if SomeCarrying(s) {
          var m :| 0 <= m < |s.notifiers| && Carrying(s.notifiers[m]);
          assert Carrying(t.notifiers[m]) && Pending(t.notifiers[m]);
        }
      }
    }
    forall w | 0 <= w < |t.waiters| ensures WaiterOk(setup, t, w) {
      assert WaiterOk(setup, s, w);
    }
  }

  lemma StepKeeps(setup: Setup, s: State, step: Step)
    requires Inv(setup, s) && Enabled(setup, s, step)
    ensures Inv(setup, Apply(setup, s, step))
  {
    match step
    case ByWaiter(w, action) => WaiterKeeps(setup, s, w, action);
    case ByNotifier(n, action) => NotifierKeeps(setup, s, n, action);
  }

  lemma {:induction false} RunKeeps(setup: Setup, s: State, steps: seq<Step>)
    requires Inv(setup, s) && IsRun(setup, s, steps)
    ensures Inv(setup, After(setup, s, steps))
    decreases |steps|
  {
    if steps != [] {
      StepKeeps(setup, s, steps[0]);
      RunKeeps(setup, Apply(setup, s, steps[0]), steps[1..]);
    }
  }

  lemma ReachableIsOk(setup: Setup, s: State)
    requires Reachable(setup, s)
    ensures Inv(setup, s)
  {
    var start: State, steps: seq<Step> :|
      IsInitial(setup, start) && IsRun(setup, start, steps) && After(setup, start, steps) == s;
    RunKeeps(setup, start, steps);
  }

  // --- theorems -------------------------------------------------------------------------------------

  /** No wakeup is lost, with either strategy: while the wait of a waiter that is parked, or has failed
      its last check under the mutex and is about to park, is over, some notifier is bound to notify.
      This holds whatever cells are stored, also gates moving backwards, with spurious wakeups, and
      with an epoch that wraps round. */
  lemma NoLostWakeup(setup: Setup, s: State, w: nat)
    requires Reachable(setup, s) && w < |s.waiters| && w < |setup.watched|
    requires (s.waiters[w].pc.Parked? || s.waiters[w].pc.Parking?) && IsDue(setup, s, w)
    ensures SomePending(s)
  {
    ReachableIsOk(setup, s);
    assert WaiterOk(setup, s, w);
  }

  /** What the lite strategy rests on: as long as somebody is parked, due or not, the flag is up, or a
      notifier has taken it down and has not notified yet. */
  lemma ParkedIsAnnounced(setup: Setup, s: State, w: nat)
    requires setup.strategy == LiteBlocking && Reachable(setup, s)
    requires w < |s.waiters| && s.waiters[w].pc.Parked?
    ensures s.signalNeeded || SomeCarrying(s)
  {
    ReachableIsOk(setup, s);
    assert WaiterOk(setup, s, w);
  }
}
