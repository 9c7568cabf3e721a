/** A due wakeup arrives under every schedule: threads that carry on with what they have begun have
    only so much to do, and when nothing of it is left, every wait that is over has returned. */
module Wakeup {
  import opened Waiting

  // --- carrying on ----------------------------------------------------------------------------------

  /** A step that only carries on with what its thread is doing: no new store, no new wait, no wake
      without a store, no spurious wakeup. */
  predicate CarriesOn(s: State, step: Step) {
    match step
    case ByWaiter(_, action) => !action.WaitFor? && !action.WakeSpuriously?
    case ByNotifier(n, action) =>
      !action.StoreCell? && !action.StoreShutdown? && (action.BeginWake? ==> n < |s.notifiers| && s.notifiers[n].Stored?)
  }

  predicate IsCarriedRun(setup: Setup, s: State, steps: seq<Step>)
    decreases |steps|
  {
    steps == []
    || (&& Enabled(setup, s, steps[0]) && CarriesOn(s, steps[0])
        && IsCarriedRun(setup, Apply(setup, s, steps[0]), steps[1..]))
  }

  lemma {:induction false} CarriedIsRun(setup: Setup, s: State, steps: seq<Step>)
    requires IsCarriedRun(setup, s, steps)
    ensures IsRun(setup, s, steps)
    decreases |steps|
  {
    if steps != [] {
      CarriedIsRun(setup, Apply(setup, s, steps[0]), steps[1..]);
    }
  }

  /** Has everybody finished what was begun? */
  ghost predicate Quiescent(setup: Setup, s: State) {
    forall step :: Enabled(setup, s, step) ==> !CarriesOn(s, step)
  }

  // --- how much is left to do -----------------------------------------------------------------------

  function Laps(n: nat, lap: nat): nat {
    if n == 0 then 0 else lap + Laps(n - 1, lap)
  }

  /** How many steps a waiter takes at most until it returns or parks. */
  function WaiterWork(pc: WaiterPc, watched: nat, spinTries: nat): nat {
    match pc
    case Away => 0
    case Parked(_) => 0
    case Parking(_) => 1
    case ReadingShutdown(Locked, _) => 2
    case Reading(Locked, read, _) => 3 + ToRead(read, watched)
    case Signalling => watched + 4
    case Locking => watched + 5
    case ReadingShutdown(Free(spins), _) => watched + 6 + Laps(spins, watched + 3)
    case Reading(Free(spins), read, _) => watched + 7 + Laps(spins, watched + 3) + ToRead(read, watched)
    case Rechecking => MostWork(watched, spinTries) - 1
    case Woken => MostWork(watched, spinTries)
  }

  function ToRead(read: nat, watched: nat): nat {
    if read <= watched then watched - read else 0
  }

  function MostWork(watched: nat, spinTries: nat): nat {
    2 * watched + 9 + Laps(spinTries, watched + 3)
  }

  function WaitersWork(waiters: seq<Waiter>, watched: seq<seq<nat>>, spinTries: nat): nat
    requires |waiters| == |watched|
  {
    if waiters == [] then 0
    else WaiterWork(waiters[0].pc, |watched[0]|, spinTries) + WaitersWork(waiters[1..], watched[1..], spinTries)
  }

  /** More than all waiters together can be made to do by waking them. */
  function Price(watched: seq<seq<nat>>, spinTries: nat): nat {
    if watched == [] then 1 else MostWork(|watched[0]|, spinTries) + Price(watched[1..], spinTries)
  }

  /** How much a notifier has left to do, counting each step as what it may make the waiters do. */
  function NotifierWork(pc: NotifierPc, price: nat): nat {
    match pc
    case Quiet => 0
    case Unlocking => price
    case Broadcasting => 2 * price
    case Bumping => 3 * price
    case WantsMutex => 4 * price
    case Stored => 5 * price
  }

  function NotifiersWork(notifiers: seq<NotifierPc>, price: nat): nat {
    if notifiers == [] then 0 else NotifierWork(notifiers[0], price) + NotifiersWork(notifiers[1..], price)
  }

  function Work(setup: Setup, s: State): nat
    requires |s.waiters| == |setup.watched|
  {
    WaitersWork(s.waiters, setup.watched, setup.spinTries) + NotifiersWork(s.notifiers, Price(setup.watched, setup.spinTries))
  }

  lemma {:induction false} WaitersWorkUpdated(waiters: seq<Waiter>, watched: seq<seq<nat>>, spinTries: nat, w: nat, y: Waiter)
    requires w < |waiters| == |watched|
    ensures WaitersWork(waiters[w := y], watched, spinTries)
         == WaitersWork(waiters, watched, spinTries)
            - WaiterWork(waiters[w].pc, |watched[w]|, spinTries) + WaiterWork(y.pc, |watched[w]|, spinTries)
  {
    if w == 0 {
      assert waiters[w := y][1..] == waiters[1..];
    } else {
      WaitersWorkUpdated(waiters[1..], watched[1..], spinTries, w - 1, y);
      assert waiters[w := y][1..] == waiters[1..][w - 1 := y];
    }
  }

  lemma {:induction false} NotifiersWorkUpdated(notifiers: seq<NotifierPc>, price: nat, n: nat, y: NotifierPc)
    requires n < |notifiers|
    ensures NotifiersWork(notifiers[n := y], price)
         == NotifiersWork(notifiers, price) - NotifierWork(notifiers[n], price) + NotifierWork(y, price)
  {
    if n == 0 {
      assert notifiers[n := y][1..] == notifiers[1..];
    } else {
      NotifiersWorkUpdated(notifiers[1..], price, n - 1, y);
      assert notifiers[n := y][1..] == notifiers[1..][n - 1 := y];
    }
  }

  /** A broadcast makes the waiters do less than its price. */
  lemma {:induction false} UnparkingCosts(waiters: seq<Waiter>, watched: seq<seq<nat>>, spinTries: nat)
    requires |waiters| == |watched|
    ensures WaitersWork(UnparkAll(waiters), watched, spinTries)
          < WaitersWork(waiters, watched, spinTries) + Price(watched, spinTries)
  {
    if waiters != [] {
      UnparkingCosts(waiters[1..], watched[1..], spinTries);
      assert UnparkAll(waiters)[1..] == UnparkAll(waiters[1..]);
    }
  }

  lemma {:induction false} PriceIsMost(watched: seq<seq<nat>>, spinTries: nat, w: nat)
    requires w < |watched|
    ensures MostWork(|watched[w]|, spinTries) < Price(watched, spinTries)
  {
    PriceIsPositive(watched[1..], spinTries);
    if w > 0 {
      PriceIsMost(watched[1..], spinTries, w - 1);
    }
  }

  lemma {:induction false} PriceIsPositive(watched: seq<seq<nat>>, spinTries: nat)
    ensures Price(watched, spinTries) > 0
  {
    if watched != [] {
      PriceIsPositive(watched[1..], spinTries);
    }
  }

  // --- every step of carrying on is progress --------------------------------------------------------

  lemma OneWaiter(setup: Setup, s: State, w: nat, action: WaiterAction)
    requires Inv(setup, s) && Enabled(setup, s, ByWaiter(w, action))
    ensures var t, pc := ApplyWaiter(setup, s, w, action), s.waiters[w].pc;
            && t.waiters == s.waiters[w := t.waiters[w]] && t.notifiers == s.notifiers
            && var work := WaiterWork(t.waiters[w].pc, |setup.watched[w]|, setup.spinTries);
               if action.WaitFor? || action.WakeSpuriously? then work <= MostWork(|setup.watched[w]|, setup.spinTries)
               else work < WaiterWork(pc, |setup.watched[w]|, setup.spinTries)
  {
    assert WaiterOk(setup, s, w);
  }

  lemma OneNotifier(setup: Setup, s: State, n: nat, action: NotifierAction, price: nat)
    requires Enabled(setup, s, ByNotifier(n, action))
    ensures var t, pc := ApplyNotifier(setup, s, n, action), s.notifiers[n];
            && n < |t.notifiers| && t.notifiers == s.notifiers[n := t.notifiers[n]]
            && t.waiters == (if action.NotifyAll? then UnparkAll(s.waiters) else s.waiters)
            && NotifierWork(t.notifiers[n], price) <= 5 * price
            && (CarriesOn(s, ByNotifier(n, action)) ==> NotifierWork(t.notifiers[n], price) + price <= NotifierWork(pc, price))
  {
  }

  /** A step that carries on leaves less to do; any other adds a bounded amount. */
  lemma StepWorks(setup: Setup, s: State, step: Step)
    requires Inv(setup, s) && Enabled(setup, s, step)
    ensures var t, price := Apply(setup, s, step), Price(setup.watched, setup.spinTries);
            && |t.waiters| == |setup.watched|
            && if CarriesOn(s, step) then Work(setup, t) < Work(setup, s) else Work(setup, t) <= Work(setup, s) + 5 * price
  {
    var price := Price(setup.watched, setup.spinTries);
    var t := Apply(setup, s, step);
    PriceIsPositive(setup.watched, setup.spinTries);
    match step
    case ByWaiter(w, action) =>
      OneWaiter(setup, s, w, action);
      PriceIsMost(setup.watched, setup.spinTries, w);
      WaitersWorkUpdated(s.waiters, setup.watched, setup.spinTries, w, t.waiters[w]);
    case ByNotifier(n, action) =>
      OneNotifier(setup, s, n, action, price);
      UnparkingCosts(s.waiters, setup.watched, setup.spinTries);
      NotifiersWorkUpdated(s.notifiers, price, n, t.notifiers[n]);
  }

  /** How many steps of a run carry on, and how many begin something. */
  function Carried(setup: Setup, s: State, steps: seq<Step>): nat
    requires IsRun(setup, s, steps)
    decreases |steps|
  {
    if steps == [] then 0
    else (if CarriesOn(s, steps[0]) then 1 else 0) + Carried(setup, Apply(setup, s, steps[0]), steps[1..])
  }

  function Begun(setup: Setup, s: State, steps: seq<Step>): nat
    requires IsRun(setup, s, steps)
    decreases |steps|
  {
    if steps == [] then 0
    else (if CarriesOn(s, steps[0]) then 0 else 1) + Begun(setup, Apply(setup, s, steps[0]), steps[1..])
  }

  /** In any run at all, the steps that carry on are bounded by what there was to do and by how much was
      begun: nobody keeps checking, parking or waking for ever. */
  lemma {:induction false} CarryingOnIsBounded(setup: Setup, s: State, steps: seq<Step>)
    requires Inv(setup, s) && IsRun(setup, s, steps)
    ensures |After(setup, s, steps).waiters| == |setup.watched|
    ensures Carried(setup, s, steps) + Work(setup, After(setup, s, steps))
         <= Work(setup, s) + Begun(setup, s, steps) * (5 * Price(setup.watched, setup.spinTries))
    decreases |steps|
  {
    if steps != [] {
      var t := Apply(setup, s, steps[0]);
      StepWorks(setup, s, steps[0]);
      StepKeeps(setup, s, steps[0]);
      CarryingOnIsBounded(setup, t, steps[1..]);
      OneMore(Begun(setup, t, steps[1..]), 5 * Price(setup.watched, setup.spinTries));
    }
  }

  lemma OneMore(n: nat, amount: nat)
    ensures (1 + n) * amount == amount + n * amount
  {
  }

  // --- when nothing is left to carry on -------------------------------------------------------------

  /** The next step of a waiter that holds the mutex; none of them can block. */
  lemma HoldingWaiterGoesOn(setup: Setup, s: State, v: nat) returns (action: WaiterAction)
    requires Inv(setup, s) && v < |s.waiters| && s.mutex == TheWaiter(v)
    ensures Enabled(setup, s, ByWaiter(v, action)) && CarriesOn(s, ByWaiter(v, action))
  {
    assert WaiterOk(setup, s, v);
    match s.waiters[v].pc
    case Rechecking => action := CompareEpochs;
    case Signalling => action := StoreSignal;
    case Reading(_, _, _) => action := ReadingGoesOn(setup, s, v);
    case ReadingShutdown(_, _) => action := ReadShutdown;
    case _ => action := Park;
  }

  lemma ReadingGoesOn(setup: Setup, s: State, v: nat) returns (action: WaiterAction)
    requires Inv(setup, s) && v < |s.waiters| && s.waiters[v].pc.Reading?
    ensures Enabled(setup, s, ByWaiter(v, action)) && CarriesOn(s, ByWaiter(v, action))
  {
    assert WaiterOk(setup, s, v);
    var read := s.waiters[v].pc.read;
    if read < |setup.watched[v]| {
      assert setup.watched[v][read] in setup.watched[v];
      action := ReadCell;
    } else {
      action := FinishReading;
    }
  }

  function NotifierGoesOn(pc: NotifierPc): NotifierAction {
    match pc
    case WantsMutex => LockForWake
    case Bumping => BumpEpoch
    case Broadcasting => NotifyAll
    case Unlocking => Unlock
    case _ => BeginWake
  }

  /** While a waiter is neither away nor parked for good reason, somebody has something to carry on. */
  lemma SomebodyGoesOn(setup: Setup, s: State, w: nat) returns (step: Step)
    requires Inv(setup, s) && w < |s.waiters|
    requires s.waiters[w].pc != Away && (s.waiters[w].pc.Parked? ==> IsDue(setup, s, w))
    ensures Enabled(setup, s, step) && CarriesOn(s, step)
  {
    assert WaiterOk(setup, s, w);
    if s.mutex.TheWaiter? {
      var action := HoldingWaiterGoesOn(setup, s, s.mutex.w);
      step := ByWaiter(s.mutex.w, action);
    } else if s.mutex.TheNotifier? {
      step := ByNotifier(s.mutex.n, NotifierGoesOn(s.notifiers[s.mutex.n]));
    } else if n: nat :| n < |s.notifiers| && s.notifiers[n] != Quiet {
      step := ByNotifier(n, NotifierGoesOn(s.notifiers[n]));
    } else if s.waiters[w].pc.Reading? {
      var action := ReadingGoesOn(setup, s, w);
      step := ByWaiter(w, action);
    } else {
      step := ByWaiter(w, if s.waiters[w].pc == Woken then Relock else if s.waiters[w].pc == Locking then Lock else ReadShutdown);
    }
  }

  /** When nobody has anything left to carry on, every waiter has returned, or is parked for good reason. */
  lemma QuiescentHasReturned(setup: Setup, s: State, w: nat)
    requires Inv(setup, s) && Quiescent(setup, s) && w < |s.waiters|
    ensures s.waiters[w].pc == Away || (s.waiters[w].pc.Parked? && !IsDue(setup, s, w))
  {
    if s.waiters[w].pc != Away && (s.waiters[w].pc.Parked? ==> IsDue(setup, s, w)) {
      var step := SomebodyGoesOn(setup, s, w);
    }
  }

  /** When nobody has anything left to carry on, no wake is on its way. */
  lemma QuiescentIsQuiet(setup: Setup, s: State)
    requires Inv(setup, s) && Quiescent(setup, s)
    ensures forall n :: 0 <= n < |s.notifiers| ==> s.notifiers[n] == Quiet
  {
    if n: nat :| n < |s.notifiers| && s.notifiers[n] != Quiet {
      var step := BusyNotifierGoesOn(setup, s, n);
    }
  }

  lemma BusyNotifierGoesOn(setup: Setup, s: State, n: nat) returns (step: Step)
    requires Inv(setup, s) && n < |s.notifiers| && s.notifiers[n] != Quiet
    ensures Enabled(setup, s, step) && CarriesOn(s, step)
  {
    if s.mutex.TheWaiter? {
      var action := HoldingWaiterGoesOn(setup, s, s.mutex.w);
      step := ByWaiter(s.mutex.w, action);
    } else if s.mutex.TheNotifier? {
      step := ByNotifier(s.mutex.n, NotifierGoesOn(s.notifiers[s.mutex.n]));
    } else {
      step := ByNotifier(n, NotifierGoesOn(s.notifiers[n]));
    }
  }

  /** Carrying on changes neither what is stored nor what was asked for. */
  lemma DueStays(setup: Setup, s: State, step: Step, w: nat)
    requires Inv(setup, s) && Enabled(setup, s, step) && CarriesOn(s, step)
    requires w < |s.waiters| && IsDue(setup, s, w)
    ensures w < |Apply(setup, s, step).waiters| && IsDue(setup, Apply(setup, s, step), w)
  {
    match step
    case ByWaiter(v, action) =>
      MutexMoves(setup, s, v, action);
      assert ApplyWaiter(setup, s, v, action).waiters[v].requested == s.waiters[v].requested;
    case ByNotifier(n, action) => NothingStored(setup, s, n, action);
  }

  lemma NothingStored(setup: Setup, s: State, n: nat, action: NotifierAction)
    requires Enabled(setup, s, ByNotifier(n, action)) && CarriesOn(s, ByNotifier(n, action))
    ensures var t := ApplyNotifier(setup, s, n, action);
            && t.cells == s.cells && t.shutdown == s.shutdown && |t.waiters| == |s.waiters|
            && forall w :: 0 <= w < |s.waiters| ==> t.waiters[w].requested == s.waiters[w].requested
  {
  }

  lemma {:induction false} CarriedRunReturns(setup: Setup, s: State, steps: seq<Step>, w: nat)
    requires Inv(setup, s) && w < |s.waiters| && IsDue(setup, s, w)
    requires IsCarriedRun(setup, s, steps) && IsRun(setup, s, steps) && Quiescent(setup, After(setup, s, steps))
    ensures w < |After(setup, s, steps).waiters| && After(setup, s, steps).waiters[w].pc == Away
    ensures |steps| <= Work(setup, s)
    decreases |steps|
  {
    if steps == [] {
      QuiescentHasReturned(setup, s, w);
    } else {
      StepKeeps(setup, s, steps[0]);
      StepWorks(setup, s, steps[0]);
      DueStays(setup, s, steps[0], w);
      CarriedRunReturns(setup, Apply(setup, s, steps[0]), steps[1..], w);
    }
  }

  /** From every reachable state, under every schedule: if the wait of a waiter is over, then however
      the threads carry on with what they have begun, without any new store, they are done after a
      bounded number of steps, and by then the waiter has returned from `wait_for`. */
  lemma EveryRunReturns(setup: Setup, s: State, steps: seq<Step>, w: nat)
    requires Reachable(setup, s) && w < |s.waiters| && w < |setup.watched| && IsDue(setup, s, w)
    requires IsCarriedRun(setup, s, steps)
    ensures IsRun(setup, s, steps) && |s.waiters| == |setup.watched| && |steps| <= Work(setup, s)
    ensures Quiescent(setup, After(setup, s, steps)) ==>
              w < |After(setup, s, steps).waiters| && After(setup, s, steps).waiters[w].pc == Away
  {
    ReachableIsOk(setup, s);
    CarriedIsRun(setup, s, steps);
    CarryingOnIsBounded(setup, s, steps);
    OnlyCarried(setup, s, steps);
    if Quiescent(setup, After(setup, s, steps)) {
      CarriedRunReturns(setup, s, steps, w);
    }
  }

  lemma {:induction false} OnlyCarried(setup: Setup, s: State, steps: seq<Step>)
    requires IsCarriedRun(setup, s, steps) && IsRun(setup, s, steps)
    ensures Carried(setup, s, steps) == |steps| && Begun(setup, s, steps) == 0
    decreases |steps|
  {
    if steps != [] {
      OnlyCarried(setup, Apply(setup, s, steps[0]), steps[1..]);
    }
  }

  /** Such runs exist: from every state the threads can carry on until nothing is left. */
  lemma {:induction false} CarryOnToTheEnd(setup: Setup, s: State) returns (steps: seq<Step>)
    requires Inv(setup, s)
    ensures IsCarriedRun(setup, s, steps) && IsRun(setup, s, steps) && Quiescent(setup, After(setup, s, steps))
    decreases Work(setup, s)
  {
    if Quiescent(setup, s) {
      steps := [];
    } else {
      var step :| Enabled(setup, s, step) && CarriesOn(s, step);
      StepKeeps(setup, s, step);
      StepWorks(setup, s, step);
      var rest := CarryOnToTheEnd(setup, Apply(setup, s, step));
      steps := [step] + rest;
      assert steps[1..] == rest;
    }
  }
}
