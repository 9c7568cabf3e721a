/** Why a waiter does what it does: a wait returns with a reason and not before, it spins before it blocks,
    it leaves the mutex only for a wake, and nobody is woken without anybody waiting. */
module Reasons {
  import opened Bits
  import opened Availability
  import opened Waiting
  import Wakeup

  // --- a wait returns with a reason -----------------------------------------------------------------

  predicate BeginsWait(step: Step, w: nat) {
    step.ByWaiter? && step.w == w && step.waiterAction.WaitFor?
  }

  predicate BeginsNone(steps: seq<Step>, w: nat) {
    forall i :: 0 <= i < |steps| ==> !BeginsWait(steps[i], w)
  }

  /** Is the cell at least `r` at some time during the run? */
  predicate EverAtLeast(setup: Setup, s: State, steps: seq<Step>, cell: nat, r: int)
    requires IsRun(setup, s, steps)
    decreases |steps|
  {
    || (cell < |s.cells| && s.cells[cell] >= r)
    || (steps != [] && EverAtLeast(setup, Apply(setup, s, steps[0]), steps[1..], cell, r))
  }

  predicate EverShutdown(setup: Setup, s: State, steps: seq<Step>, r: int)
    requires IsRun(setup, s, steps)
    decreases |steps|
  {
    s.shutdown == r || (steps != [] && EverShutdown(setup, Apply(setup, s, steps[0]), steps[1..], r))
  }

  /** Has everything waited for been there, each part of it at some time, or the shutdown? */
  ghost predicate HadReason(setup: Setup, s: State, steps: seq<Step>, w: nat, r: int, seen: set<nat>)
    requires IsRun(setup, s, steps) && w < |setup.watched|
  {
    || EverShutdown(setup, s, steps, r)
    || forall i :: i in setup.watched[w] ==> i in seen || EverAtLeast(setup, s, steps, i, r)
  }

  /** What the waiter has read in favour of returning, in its present check, are cells in `seen`. */
  ghost predicate HasSeen(setup: Setup, s: State, w: nat, seen: set<nat>)
    requires w < |s.waiters| && w < |setup.watched|
  {
    var pc := s.waiters[w].pc;
    pc.Reading? && pc.found == None ==> forall j :: 0 <= j < pc.read && j < |setup.watched[w]| ==> setup.watched[w][j] in seen
  }

  /** One step of the waiter itself: it goes on seeing what it has reason to, and it returns only if it has
      seen everything or the shutdown. */
  lemma OwnStepHasReason(setup: Setup, s: State, w: nat, action: WaiterAction, seen: set<nat>) returns (more: set<nat>)
    requires Inv(setup, s) && Enabled(setup, s, ByWaiter(w, action)) && !action.WaitFor?
    requires HasSeen(setup, s, w, seen)
    ensures seen <= more && forall i :: i in more && i !in seen ==> i < |s.cells| && s.cells[i] >= s.waiters[w].requested
    ensures var t := ApplyWaiter(setup, s, w, action);
            && t.waiters[w].requested == s.waiters[w].requested && HasSeen(setup, t, w, more)
            && (t.waiters[w].pc.Away? ==>
                  || s.shutdown == s.waiters[w].requested
                  || forall i :: i in setup.watched[w] ==> i in more)
  {
    var x := s.waiters[w];
    assert WaiterOk(setup, s, w);
    more := seen;
    if action.ReadCell? {
      var i := setup.watched[w][x.pc.read];
      if s.cells[i] >= x.requested {
        more := seen + {i};
      }
    }
  }

  lemma OthersLeaveWaiter(setup: Setup, s: State, step: Step, w: nat, seen: set<nat>)
    requires Inv(setup, s) && Enabled(setup, s, step) && !(step.ByWaiter? && step.w == w)
    requires w < |s.waiters| && HasSeen(setup, s, w, seen)
    ensures var t := Apply(setup, s, step);
            && w < |t.waiters| && t.waiters[w].requested == s.waiters[w].requested && HasSeen(setup, t, w, seen)
            && (t.waiters[w].pc.Away? <==> s.waiters[w].pc.Away?)
  {
    OthersAtMostUnpark(setup, s, step, w);
  }

  /** All that anybody else does to a waiter is to wake it when it is parked. */
  lemma OthersAtMostUnpark(setup: Setup, s: State, step: Step, w: nat)
    requires Enabled(setup, s, step) && !(step.ByWaiter? && step.w == w) && w < |s.waiters|
    ensures w < |Apply(setup, s, step).waiters|
    ensures || Apply(setup, s, step).waiters[w] == s.waiters[w]
            || (s.waiters[w].pc.Parked? && Apply(setup, s, step).waiters[w] == s.waiters[w].(pc := Woken))
  {
  }

  lemma {:induction false} ReturnsWithReason(setup: Setup, s: State, steps: seq<Step>, w: nat, seen: set<nat>)
    requires Inv(setup, s) && IsRun(setup, s, steps) && BeginsNone(steps, w)
    requires w < |s.waiters| && !s.waiters[w].pc.Away? && HasSeen(setup, s, w, seen)
    requires w < |After(setup, s, steps).waiters| && After(setup, s, steps).waiters[w].pc.Away?
    ensures HadReason(setup, s, steps, w, s.waiters[w].requested, seen)
    decreases |steps|
  {
    var t, r := Apply(setup, s, steps[0]), s.waiters[w].requested;
    StepKeeps(setup, s, steps[0]);
    var more := seen;
    if steps[0].ByWaiter? && steps[0].w == w {
      more := OwnStepHasReason(setup, s, w, steps[0].waiterAction, seen);
    } else {
      OthersLeaveWaiter(setup, s, steps[0], w, seen);
    }
    if !t.waiters[w].pc.Away? {
      ReturnsWithReason(setup, t, steps[1..], w, more);
    }
    SeenWasThere(setup, s, steps, w, r, seen, more);
  }

  lemma SeenWasThere(setup: Setup, s: State, steps: seq<Step>, w: nat, r: int, seen: set<nat>, more: set<nat>)
    requires IsRun(setup, s, steps) && steps != [] && w < |setup.watched|
    requires forall i :: i in more && i !in seen ==> i < |s.cells| && s.cells[i] >= r
    requires || s.shutdown == r
             || (forall i :: i in setup.watched[w] ==> i in more)
             || HadReason(setup, Apply(setup, s, steps[0]), steps[1..], w, r, more)
    ensures HadReason(setup, s, steps, w, r, seen)
  {
  }

  /** From a waiter's `wait_for(r)` until it has returned, whatever everybody does: every cell it watches has
      been at least `r` at some time, or the shutdown sequence has been `r` at some time. */
  lemma WaitReturnsWithReason(setup: Setup, s: State, steps: seq<Step>, w: nat, r: int)
    requires Reachable(setup, s) && IsRun(setup, s, steps) && w < |setup.watched|
    requires steps != [] && steps[0] == ByWaiter(w, WaitFor(r)) && BeginsNone(steps[1..], w)
    requires w < |After(setup, s, steps).waiters| && After(setup, s, steps).waiters[w].pc.Away?
    ensures EverShutdown(setup, s, steps, r) || forall i :: i in setup.watched[w] ==> EverAtLeast(setup, s, steps, i, r)
  {
    ReachableIsOk(setup, s);
    StepKeeps(setup, s, steps[0]);
    var t := Apply(setup, s, steps[0]);
    ReturnsWithReason(setup, t, steps[1..], w, {});
    assert HadReason(setup, t, steps[1..], w, r, {});
  }

  // --- and not before -------------------------------------------------------------------------------

  predicate Stores(step: Step) {
    step.ByNotifier? && (step.notifierAction.StoreCell? || step.notifierAction.StoreShutdown?)
  }

  predicate StoresNone(steps: seq<Step>) {
    forall i :: 0 <= i < |steps| ==> !Stores(steps[i])
  }

  lemma NoStoreNoChange(setup: Setup, s: State, step: Step)
    requires Enabled(setup, s, step) && !Stores(step)
    ensures Apply(setup, s, step).cells == s.cells && Apply(setup, s, step).shutdown == s.shutdown
  {
  }

  lemma {:induction false} NothingComes(setup: Setup, s: State, steps: seq<Step>, cell: nat, r: int)
    requires IsRun(setup, s, steps) && StoresNone(steps)
    ensures EverShutdown(setup, s, steps, r) <==> s.shutdown == r
    ensures EverAtLeast(setup, s, steps, cell, r) <==> cell < |s.cells| && s.cells[cell] >= r
    decreases |steps|
  {
    if steps != [] {
      NoStoreNoChange(setup, s, steps[0]);
      NothingComes(setup, Apply(setup, s, steps[0]), steps[1..], cell, r);
    }
  }

  /** With no new store, a waiter whose wait is not over does not return: from wherever it is, provided its
      present check has found nothing yet that is not so any more. */
  lemma NotDueStays(setup: Setup, s: State, steps: seq<Step>, w: nat)
    requires Reachable(setup, s) && IsRun(setup, s, steps) && BeginsNone(steps, w) && StoresNone(steps)
    requires w < |s.waiters| && w < |setup.watched| && !s.waiters[w].pc.Away? && !IsDue(setup, s, w)
    requires s.waiters[w].pc.Reading? ==> s.waiters[w].pc.read == 0
    ensures w < |After(setup, s, steps).waiters| && !After(setup, s, steps).waiters[w].pc.Away?
  {
    ReachableIsOk(setup, s);
    WaitersRemain(setup, s, steps);
    if After(setup, s, steps).waiters[w].pc.Away? {
      ReturnsWithReason(setup, s, steps, w, {});
      NothingComes(setup, s, steps, 0, s.waiters[w].requested);
      forall i | i in setup.watched[w] ensures i < |s.cells| && s.cells[i] >= s.waiters[w].requested {
        NothingComes(setup, s, steps, i, s.waiters[w].requested);
      }
    }
  }

  lemma {:induction false} WaitersRemain(setup: Setup, s: State, steps: seq<Step>)
    requires IsRun(setup, s, steps)
    ensures |After(setup, s, steps).waiters| == |s.waiters|
    decreases |steps|
  {
    if steps != [] {
      WaitersRemain(setup, Apply(setup, s, steps[0]), steps[1..]);
    }
  }

  lemma {:induction false} CarriedStoresNone(setup: Setup, s: State, steps: seq<Step>, w: nat)
    requires Wakeup.IsCarriedRun(setup, s, steps)
    ensures StoresNone(steps) && BeginsNone(steps, w)
    decreases |steps|
  {
    if steps != [] {
      CarriedStoresNone(setup, Apply(setup, s, steps[0]), steps[1..], w);
    }
  }

  /** Exactly: when a new wait has begun, or a waiter is parked, and everybody carries on to the end without
      a new store, the waiter has returned if and only if its wait is over. */
  lemma ReturnsExactlyWhenDue(setup: Setup, s: State, steps: seq<Step>, w: nat)
    requires Reachable(setup, s) && w < |s.waiters| && w < |setup.watched| && !s.waiters[w].pc.Away?
    requires s.waiters[w].pc.Reading? ==> s.waiters[w].pc.read == 0
    requires Wakeup.IsCarriedRun(setup, s, steps) && IsRun(setup, s, steps) && Wakeup.Quiescent(setup, After(setup, s, steps))
    ensures w < |After(setup, s, steps).waiters|
    ensures After(setup, s, steps).waiters[w].pc.Away? <==> IsDue(setup, s, w)
    ensures !IsDue(setup, s, w) ==> After(setup, s, steps).waiters[w].pc.Parked?
  {
    if IsDue(setup, s, w) {
      Wakeup.EveryRunReturns(setup, s, steps, w);
    } else {
      CarriedStoresNone(setup, s, steps, w);
      NotDueStays(setup, s, steps, w);
      ReachableIsOk(setup, s);
      RunKeeps(setup, s, steps);
      Wakeup.QuiescentHasReturned(setup, After(setup, s, steps), w);
    }
  }

  // --- spinning before blocking ---------------------------------------------------------------------

  /** How many checks waiter `w` completes without the mutex. */
  function FreeChecks(setup: Setup, s: State, steps: seq<Step>, w: nat): nat
    requires IsRun(setup, s, steps)
    decreases |steps|
  {
    if steps == [] then 0
    else (if steps[0] == ByWaiter(w, ReadShutdown) && IsFree(s, w) then 1 else 0)
         + FreeChecks(setup, Apply(setup, s, steps[0]), steps[1..], w)
  }

  predicate IsFree(s: State, w: nat) {
    w < |s.waiters| && s.waiters[w].pc.ReadingShutdown? && s.waiters[w].pc.mode.Free?
  }

  /** How many more checks the waiter has to complete before it asks for the mutex. */
  function ChecksLeft(pc: WaiterPc): nat {
    match pc
    case Reading(Free(spins), _, _) => spins + 1
    case ReadingShutdown(Free(spins), _) => spins + 1
    case _ => 0
  }

  predicate Spins(pc: WaiterPc) {
    (pc.Reading? && pc.mode.Free?) || (pc.ReadingShutdown? && pc.mode.Free?)
  }

  lemma {:induction false} ChecksUntilLocking(setup: Setup, s: State, steps: seq<Step>, w: nat)
    requires IsRun(setup, s, steps) && BeginsNone(steps, w) && w < |s.waiters|
    requires Spins(s.waiters[w].pc) || s.waiters[w].pc.Locking?
    requires forall i :: 0 <= i < |steps| ==> steps[i] != ByWaiter(w, Lock)
    requires w < |After(setup, s, steps).waiters| && After(setup, s, steps).waiters[w].pc.Locking?
    ensures FreeChecks(setup, s, steps, w) == ChecksLeft(s.waiters[w].pc)
    decreases |steps|
  {
    if steps != [] {
      var t := Apply(setup, s, steps[0]);
      OneCheck(setup, s, steps[0], w);
      if t.waiters[w].pc.Away? {
        AwayStays(setup, t, steps[1..], w);
      } else {
        ChecksUntilLocking(setup, t, steps[1..], w);
      }
    }
  }

  lemma OneCheck(setup: Setup, s: State, step: Step, w: nat)
    requires Enabled(setup, s, step) && !BeginsWait(step, w) && step != ByWaiter(w, Lock) && w < |s.waiters|
    requires Spins(s.waiters[w].pc) || s.waiters[w].pc.Locking?
    ensures var t := Apply(setup, s, step);
            && w < |t.waiters|
            && (|| t.waiters[w].pc.Away?
                || (&& (Spins(t.waiters[w].pc) || t.waiters[w].pc.Locking?)
                    && ChecksLeft(s.waiters[w].pc)
                       == ChecksLeft(t.waiters[w].pc) + if step == ByWaiter(w, ReadShutdown) && IsFree(s, w) then 1 else 0))
  {
    if step.ByWaiter? && step.w == w {
      OwnCheck(setup, s, step.waiterAction, w);
    } else {
      OthersAtMostUnpark(setup, s, step, w);
    }
  }

  lemma OwnCheck(setup: Setup, s: State, action: WaiterAction, w: nat)
    requires Enabled(setup, s, ByWaiter(w, action)) && !action.WaitFor? && action != Lock
    requires Spins(s.waiters[w].pc) || s.waiters[w].pc.Locking?
    ensures var pc, pc' := s.waiters[w].pc, ApplyWaiter(setup, s, w, action).waiters[w].pc;
            || pc'.Away?
            || (&& (Spins(pc') || pc'.Locking?)
                && ChecksLeft(pc) == ChecksLeft(pc') + if action == ReadShutdown && IsFree(s, w) then 1 else 0)
  {
  }

  lemma {:induction false} AwayStays(setup: Setup, s: State, steps: seq<Step>, w: nat)
    requires IsRun(setup, s, steps) && BeginsNone(steps, w) && w < |s.waiters| && s.waiters[w].pc.Away?
    ensures w < |After(setup, s, steps).waiters| && After(setup, s, steps).waiters[w].pc.Away?
    decreases |steps|
  {
    if steps != [] {
      OneAwayStays(setup, s, steps[0], w);
      AwayStays(setup, Apply(setup, s, steps[0]), steps[1..], w);
    }
  }

  lemma OneAwayStays(setup: Setup, s: State, step: Step, w: nat)
    requires Enabled(setup, s, step) && !BeginsWait(step, w) && w < |s.waiters| && s.waiters[w].pc.Away?
    ensures w < |Apply(setup, s, step).waiters| && Apply(setup, s, step).waiters[w].pc.Away?
  {
    if !(step.ByWaiter? && step.w == w) {
      OthersAtMostUnpark(setup, s, step, w);
    }
  }

  /** Does this step take the waiter to the top of the outer loop: its call begins, or woken it finds that
      the epoch has changed? */
  predicate BeginsChecking(s: State, step: Step, w: nat) {
    w < |s.waiters| && step.ByWaiter? && step.w == w &&
    (step.waiterAction.WaitFor? || (step.waiterAction.CompareEpochs? && s.epoch != s.waiters[w].epoch))
  }

  /** Whether its call has just begun or it has been woken, a waiter asks for the mutex only after one
      check and as many more as it has spin tries, each of them without the mutex. */
  lemma SpinsBeforeBlocking(setup: Setup, s: State, steps: seq<Step>, w: nat)
    requires IsRun(setup, s, steps) && steps != [] && BeginsChecking(s, steps[0], w) && BeginsNone(steps[1..], w)
    requires forall i :: 0 <= i < |steps| ==> steps[i] != ByWaiter(w, Lock)
    requires w < |After(setup, s, steps).waiters| && After(setup, s, steps).waiters[w].pc.Locking?
    ensures FreeChecks(setup, s, steps, w) == setup.spinTries + 1
  {
    ChecksUntilLocking(setup, Apply(setup, s, steps[0]), steps[1..], w);
  }

  // --- leaving the mutex ----------------------------------------------------------------------------

  /** How many notifiers have come to wake everybody. */
  function Bumps(steps: seq<Step>): nat {
    if steps == [] then 0
    else (if steps[0].ByNotifier? && steps[0].notifierAction.BumpEpoch? then 1 else 0) + Bumps(steps[1..])
  }

  /** The epoch counts the wakes, and wraps. */
  lemma {:induction false} EpochCountsBumps(setup: Setup, s: State, steps: seq<Step>)
    requires IsRun(setup, s, steps) && s.epoch < Pow2(WIDTH)
    ensures After(setup, s, steps).epoch == (s.epoch + Bumps(steps)) % Pow2(WIDTH)
    decreases |steps|
  {
    if steps == [] {
      DivideUnique(s.epoch, Pow2(WIDTH), 0, s.epoch);
    } else {
      OneBump(setup, s, steps[0]);
      EpochCountsBumps(setup, Apply(setup, s, steps[0]), steps[1..]);
      RemainderFirst(s.epoch + 1, Bumps(steps[1..]), Pow2(WIDTH));
    }
  }

  lemma OneBump(setup: Setup, s: State, step: Step)
    requires Enabled(setup, s, step)
    ensures Apply(setup, s, step).epoch
         == if step.ByNotifier? && step.notifierAction.BumpEpoch? then (s.epoch + 1) % Pow2(WIDTH) else s.epoch
  {
  }

  lemma RemainderFirst(a: nat, b: nat, d: nat)
    requires d > 0
    ensures (a % d + b) % d == (a + b) % d
  {
    var q, q2 := a / d, (a % d + b) / d;
    Distribute(q, q2, d);
    assert a + b == (q + q2) * d + (a % d + b) % d;
    DivideUnique(a + b, d, q + q2, (a % d + b) % d);
  }

  lemma Distribute(a: int, b: int, d: int)
    ensures (a + b) * d == a * d + b * d
  {
  }

  lemma {:induction false} EpochIsInRange(setup: Setup, s: State)
    requires Reachable(setup, s)
    ensures s.epoch < Pow2(WIDTH)
  {
    var start: State, steps: seq<Step> :|
      IsInitial(setup, start) && IsRun(setup, start, steps) && After(setup, start, steps) == s;
    EpochCountsBumps(setup, start, steps);
  }

  /** Of its own steps, the waiter neither asks for the mutex anew nor begins or ends its wait. */
  predicate StaysIn(s: State, w: nat) {
    w < |s.waiters| && (WaiterHolds(s.waiters[w].pc) || s.waiters[w].pc.Parked? || s.waiters[w].pc.Woken?)
  }

  predicate StaysInAll(setup: Setup, s: State, steps: seq<Step>, w: nat)
    requires IsRun(setup, s, steps)
    decreases |steps|
  {
    StaysIn(s, w) && (steps == [] || StaysInAll(setup, Apply(setup, s, steps[0]), steps[1..], w))
  }

  lemma {:induction false} EpochIsRemembered(setup: Setup, s: State, steps: seq<Step>, w: nat)
    requires IsRun(setup, s, steps) && StaysInAll(setup, s, steps, w)
    ensures w < |After(setup, s, steps).waiters| && After(setup, s, steps).waiters[w].epoch == s.waiters[w].epoch
    decreases |steps|
  {
    if steps != [] {
      OneRemembers(setup, s, steps[0], w);
      EpochIsRemembered(setup, Apply(setup, s, steps[0]), steps[1..], w);
    }
  }

  lemma OneRemembers(setup: Setup, s: State, step: Step, w: nat)
    requires Enabled(setup, s, step) && StaysIn(s, w)
    ensures w < |Apply(setup, s, step).waiters| && Apply(setup, s, step).waiters[w].epoch == s.waiters[w].epoch
  {
    if step.ByWaiter? && step.w == w {
      assert ApplyWaiter(setup, s, w, step.waiterAction).waiters[w].epoch == s.waiters[w].epoch;
    } else {
      OthersAtMostUnpark(setup, s, step, w);
    }
  }

  /** From the time it takes the mutex, a waiter that is woken goes back to checking under the mutex, unless
      notifiers have come to wake everybody meanwhile, and not exactly as often as the epoch has values: a
      spurious wakeup alone never makes it leave. */
  lemma LeavesOnlyForAWake(setup: Setup, s: State, steps: seq<Step>, w: nat)
    requires Reachable(setup, s) && Enabled(setup, s, ByWaiter(w, Lock))
    requires IsRun(setup, Apply(setup, s, ByWaiter(w, Lock)), steps)
    requires StaysInAll(setup, Apply(setup, s, ByWaiter(w, Lock)), steps, w)
    requires Enabled(setup, After(setup, Apply(setup, s, ByWaiter(w, Lock)), steps), ByWaiter(w, Relock))
    ensures var u := Apply(setup, After(setup, Apply(setup, s, ByWaiter(w, Lock)), steps), ByWaiter(w, Relock));
            && Enabled(setup, u, ByWaiter(w, CompareEpochs))
            && var t := Apply(setup, u, ByWaiter(w, CompareEpochs));
            && w < |t.waiters|
            && (Spins(t.waiters[w].pc) <==> Bumps(steps) % Pow2(WIDTH) != 0)
            && (WaiterHolds(t.waiters[w].pc) <==> Bumps(steps) % Pow2(WIDTH) == 0)
  {
    EpochIsInRange(setup, s);
    LockRemembers(setup, s, w);
    var a := Apply(setup, s, ByWaiter(w, Lock));
    EpochIsRemembered(setup, a, steps, w);
    EpochCountsBumps(setup, a, steps);
    SameRemainder(s.epoch, Bumps(steps), Pow2(WIDTH));
    RelockDecides(setup, After(setup, a, steps), w);
  }

  lemma LockRemembers(setup: Setup, s: State, w: nat)
    requires Enabled(setup, s, ByWaiter(w, Lock))
    ensures var a := Apply(setup, s, ByWaiter(w, Lock));
            w < |a.waiters| && a.waiters[w].epoch == s.epoch == a.epoch
  {
  }

  lemma RelockDecides(setup: Setup, s: State, w: nat)
    requires Enabled(setup, s, ByWaiter(w, Relock))
    ensures var u := Apply(setup, s, ByWaiter(w, Relock));
            && Enabled(setup, u, ByWaiter(w, CompareEpochs))
            && var t := Apply(setup, u, ByWaiter(w, CompareEpochs));
            && w < |t.waiters|
            && (Spins(t.waiters[w].pc) <==> s.epoch != s.waiters[w].epoch)
            && (WaiterHolds(t.waiters[w].pc) <==> s.epoch == s.waiters[w].epoch)
  {
    var u := Apply(setup, s, ByWaiter(w, Relock));
    assert u.waiters[w] == s.waiters[w].(pc := Rechecking);
    EpochsDecide(setup, u, w);
  }

  lemma EpochsDecide(setup: Setup, s: State, w: nat)
    requires Enabled(setup, s, ByWaiter(w, CompareEpochs))
    ensures var t := Apply(setup, s, ByWaiter(w, CompareEpochs));
            && w < |t.waiters|
            && if s.epoch == s.waiters[w].epoch then WaiterHolds(t.waiters[w].pc) && !Spins(t.waiters[w].pc)
               else Spins(t.waiters[w].pc) && !WaiterHolds(t.waiters[w].pc)
  {
  }

  lemma SameRemainder(e: nat, n: nat, d: nat)
    requires e < d
    ensures (e + n) % d == e <==> n % d == 0
  {
    var q, r := n / d, n % d;
    if e + r < d {
      DivideUnique(e + n, d, q, e + r);
    } else {
      Distribute(q, 1, d);
      DivideUnique(e + n, d, q + 1, e + r - d);
    }
  }

  // --- no wake without a waiter ---------------------------------------------------------------------

  predicate SignalsNone(steps: seq<Step>) {
    forall i :: 0 <= i < |steps| ==> !(steps[i].ByWaiter? && steps[i].waiterAction.StoreSignal?)
  }

  predicate NobodyWakes(s: State) {
    !s.signalNeeded && forall n :: 0 <= n < |s.notifiers| ==> s.notifiers[n] == Quiet || s.notifiers[n] == Stored
  }

  /** With the lite strategy, as long as no waiter has announced itself, notifiers never take the mutex:
      they store, find that nobody waits, and leave. */
  lemma {:induction false} NobodyWokenInVain(setup: Setup, s: State, steps: seq<Step>)
    requires setup.strategy == LiteBlocking && IsRun(setup, s, steps) && SignalsNone(steps) && NobodyWakes(s)
    ensures NobodyWakes(After(setup, s, steps))
    decreases |steps|
  {
    if steps != [] {
      NobodyWakesYet(setup, s, steps[0]);
      NobodyWokenInVain(setup, Apply(setup, s, steps[0]), steps[1..]);
    }
  }

  lemma NobodyWakesYet(setup: Setup, s: State, step: Step)
    requires setup.strategy == LiteBlocking && Enabled(setup, s, step) && NobodyWakes(s)
    requires !(step.ByWaiter? && step.waiterAction.StoreSignal?)
    ensures NobodyWakes(Apply(setup, s, step))
  {
  }
}
