/** What a call of a producer amounts to, over whatever run of everybody else: the claim is what was asked
    for, a refusal has its reason, and what is written is what is read. */
module Producing {
  import opened Availability
  import opened Bits
  import opened RingBuffers
  import opened Protocol
  import opened Invariant
  import opened Preservation
  import opened Delivery

  // --- what is written is what is read --------------------------------------------------------------

  predicate Writes(step: Step, q: int) {
    step.ByProducer? && step.producerAction.Write? && step.producerAction.sequence == q
  }

  /** The event of a claimed sequence changes only by being written, and then to what is written. */
  lemma OnlyWritesChange(cfg: Config, s: State, step: Step, q: int)
    requires Enabled(cfg, s, step) && 0 <= q < |s.log|
    ensures q < |Apply(cfg, s, step).log|
    ensures Apply(cfg, s, step).log[q] == if Writes(step, q) then step.producerAction.event else s.log[q]
  {
    if step.ByProducer? && step.producerAction.CompareExchange? {
      assert s.log <= Apply(cfg, s, step).log;
    }
  }

  lemma {:induction false} UnwrittenStays(cfg: Config, s: State, steps: seq<Step>, q: int)
    requires IsRun(cfg, s, steps) && 0 <= q < |s.log| && forall i :: 0 <= i < |steps| ==> !Writes(steps[i], q)
    ensures q < |After(cfg, s, steps).log| && After(cfg, s, steps).log[q] == s.log[q]
    decreases |steps|
  {
    if steps != [] {
      OnlyWritesChange(cfg, s, steps[0], q);
      UnwrittenStays(cfg, Apply(cfg, s, steps[0]), steps[1..], q);
    }
  }

  lemma {:induction false} LastWriteStays(cfg: Config, s: State, steps: seq<Step>, j: nat, p: nat, q: int, e: Event)
    requires IsRun(cfg, s, steps) && j < |steps| && steps[j] == ByProducer(p, Write(q, e))
    requires forall i :: j < i < |steps| ==> !Writes(steps[i], q)
    ensures 0 <= q < |After(cfg, s, steps).log| && After(cfg, s, steps).log[q] == e
    decreases |steps|
  {
    var t := Apply(cfg, s, steps[0]);
    if j == 0 {
      OnlyWritesChange(cfg, s, steps[0], q);
      UnwrittenStays(cfg, t, steps[1..], q);
    } else {
      LastWriteStays(cfg, t, steps[1..], j - 1, p, q, e);
    }
  }

  /** The event last written for a sequence, in whatever run, is what the log holds and what every
      consumer, at whatever stage, has been given for that sequence. */
  lemma WhatIsWrittenIsRead(cfg: Config, start: State, steps: seq<Step>, j: nat, p: nat, q: int, e: Event)
    requires ValidConfig(cfg) && IsInitial(cfg, start) && IsRun(cfg, start, steps)
    requires j < |steps| && steps[j] == ByProducer(p, Write(q, e))
    requires forall i :: j < i < |steps| ==> !Writes(steps[i], q)
    ensures var t := After(cfg, start, steps);
            && 0 <= q < |t.log| && t.log[q] == e
            && forall c :: 0 <= c < |t.consumers| ==> IsGiven(t.consumers[c], q, e)
  {
    LastWriteStays(cfg, start, steps, j, p, q, e);
    InitIsSound(cfg, start);
    RunIsSound(cfg, start, steps);
    var t := After(cfg, start, steps);
    forall c | 0 <= c < |t.consumers| ensures IsGiven(t.consumers[c], q, e) {
      assert DeliveredOk(t, cfg.poller[c], t.consumers[c]);
    }
  }

  /** Whenever the consumer has been given sequence `q`, it has been given event `e`. */
  predicate IsGiven(x: Consumer, q: int, e: Event) {
    forall i :: 0 <= i < |x.handled| && x.handled[i].sequence == q ==> x.handled[i].event == e
  }

  // --- the claim is what was asked for --------------------------------------------------------------

  predicate Loads(step: Step, p: nat) {
    step.ByProducer? && step.p == p && step.producerAction.LoadCursor?
  }

  /** How many sequences the producer is about to claim, or has just claimed; nothing otherwise. */
  function Asked(pc: ProducerPc): Option<int> {
    match pc
    case Comparing(n, _) => Some(n)
    case ReadingRear(n, _, _, _) => Some(n)
    case Claiming(n, _) => Some(n)
    case Writing(lower, upper) => Some(upper - lower + 1)
    case _ => None
  }

  lemma AskedStays(cfg: Config, s: State, step: Step, p: nat)
    requires Enabled(cfg, s, step) && p < |s.producers| && !Loads(step, p)
    ensures p < |Apply(cfg, s, step).producers|
    ensures Asked(Apply(cfg, s, step).producers[p].pc) in {None, Asked(s.producers[p].pc)}
  {
  }

  lemma {:induction false} AskedStaysOverRuns(cfg: Config, s: State, steps: seq<Step>, p: nat, n: int)
    requires IsRun(cfg, s, steps) && p < |s.producers| && Asked(s.producers[p].pc) in {None, Some(n)}
    requires forall i :: 0 <= i < |steps| ==> !Loads(steps[i], p)
    ensures p < |After(cfg, s, steps).producers| && Asked(After(cfg, s, steps).producers[p].pc) in {None, Some(n)}
    decreases |steps|
  {
    if steps != [] {
      AskedStays(cfg, s, steps[0], p);
      AskedStaysOverRuns(cfg, Apply(cfg, s, steps[0]), steps[1..], p, n);
    }
  }

  /** However many races it loses and whatever the others do, a producer that asks for `n` sequences and
      gets any gets `n`. */
  lemma ClaimIsWhatWasAskedFor(cfg: Config, s: State, steps: seq<Step>, p: nat, n: nat)
    requires IsRun(cfg, s, steps) && steps != [] && steps[0] == ByProducer(p, LoadCursor(n))
    requires forall i :: 0 < i < |steps| ==> !Loads(steps[i], p)
    ensures p < |After(cfg, s, steps).producers|
    ensures match After(cfg, s, steps).producers[p].pc
            case Writing(lower, upper) => upper - lower + 1 == n
            case _ => true
  {
    var t := Apply(cfg, s, steps[0]);
    assert t.producers[p].pc == Comparing(n, s.claimed);
    AskedStaysOverRuns(cfg, t, steps[1..], p, n);
  }

  /** The value a producer compares the cursor with. */
  function Seen(pc: ProducerPc): Option<int> {
    match pc
    case Comparing(_, current) => Some(current)
    case ReadingRear(_, current, _, _) => Some(current)
    case Claiming(_, current) => Some(current)
    case _ => None
  }

  /** Is `v` the value of the producers' cursor at some time during the run? */
  predicate EverClaimed(cfg: Config, s: State, steps: seq<Step>, v: int)
    requires IsRun(cfg, s, steps)
    decreases |steps|
  {
    s.claimed == v || (steps != [] && EverClaimed(cfg, Apply(cfg, s, steps[0]), steps[1..], v))
  }

  lemma {:induction false} SeenIsHeldOverRuns(cfg: Config, s: State, steps: seq<Step>, p: nat)
    requires IsRun(cfg, s, steps) && p < |s.producers|
    ensures p < |After(cfg, s, steps).producers|
    ensures var seen := Seen(After(cfg, s, steps).producers[p].pc);
            seen.Some? ==> seen == Seen(s.producers[p].pc) || EverClaimed(cfg, s, steps, seen.value)
    decreases |steps|
  {
    if steps != [] {
      SeenIsHeld(cfg, s, steps[0], p);
      SeenIsHeldOverRuns(cfg, Apply(cfg, s, steps[0]), steps[1..], p);
    }
  }

  /** A producer looks at the cursor when it begins and when it loses a race, and at no other time. */
  lemma SeenIsHeld(cfg: Config, s: State, step: Step, p: nat)
    requires Enabled(cfg, s, step) && p < |s.producers|
    ensures p < |Apply(cfg, s, step).producers|
    ensures Seen(Apply(cfg, s, step).producers[p].pc) in {None, Seen(s.producers[p].pc), Some(s.claimed)}
    ensures step == ByProducer(p, CompareExchange) && s.claimed != s.producers[p].pc.current ==>
              Seen(Apply(cfg, s, step).producers[p].pc) == Some(s.claimed)
  {
  }

  /** What a producer compares the cursor with is always a value the cursor has had since the call began. */
  lemma ComparesWithWhatItSaw(cfg: Config, s: State, steps: seq<Step>, p: nat, n: nat)
    requires IsRun(cfg, s, steps) && steps != [] && steps[0] == ByProducer(p, LoadCursor(n))
    ensures p < |After(cfg, s, steps).producers|
    ensures Seen(After(cfg, s, steps).producers[p].pc).Some? ==>
              EverClaimed(cfg, s, steps, Seen(After(cfg, s, steps).producers[p].pc).value)
  {
    SeenIsHeldOverRuns(cfg, s, steps, p);
  }

  // --- refusals and limits --------------------------------------------------------------------------

  /** Of its own steps, the producer takes only readings of the watched cursors. */
  predicate OnlyReadsRear(steps: seq<Step>, p: nat) {
    forall i :: 0 <= i < |steps| && steps[i].ByProducer? && steps[i].p == p ==> steps[i].producerAction.ReadRearCursor?
  }

  /** A reading of the rear that began in `s0`, for `n` after `current`: the least value read so far is one
      that a watched cursor has had since. */
  ghost predicate RearSeen(cfg: Config, s0: State, s: State, p: nat, n: nat, current: int)
    requires p < |s.producers|
  {
    var pc := s.producers[p].pc;
    && pc.ReadingRear? && pc.n == n && pc.current == current && |s0.consumers| == |s.consumers|
    && (pc.read > 0 ==> exists t :: t in cfg.graph.rear && t < |s0.consumers|
                          && s0.consumers[t].cursor <= pc.least <= s.consumers[t].cursor)
  }

  lemma ReadingSees(cfg: Config, s0: State, s: State, step: Step, p: nat, n: nat, current: int)
    requires Inv(cfg, s) && Advances(s0, s) && Enabled(cfg, s, step) && p < |s.producers| && OnlyReadsRear([step], p)
    requires RearSeen(cfg, s0, s, p, n, current)
    ensures p < |Apply(cfg, s, step).producers| && RearSeen(cfg, s0, Apply(cfg, s, step), p, n, current)
    ensures Inv(cfg, Apply(cfg, s, step)) && Advances(s0, Apply(cfg, s, step))
  {
    var u := Apply(cfg, s, step);
    StepKeeps(cfg, s, step);
    var pc := s.producers[p].pc;
    if step.ByProducer? && step.p == p {
      assert [step][0] == step;
      ReadsOne(cfg, s, p);
      var t := cfg.graph.rear[pc.read];
      assert t in cfg.graph.rear;
    } else {
      OthersLeave(cfg, s, step, p);
    }
  }

  lemma ReadsOne(cfg: Config, s: State, p: nat)
    requires Enabled(cfg, s, ByProducer(p, ReadRearCursor))
    ensures var pc, u := s.producers[p].pc, Apply(cfg, s, ByProducer(p, ReadRearCursor));
            && u.consumers == s.consumers && p < |u.producers|
            && u.producers[p].pc.ReadingRear? && u.producers[p].pc.n == pc.n && u.producers[p].pc.current == pc.current
            && u.producers[p].pc.read == pc.read + 1
            && (u.producers[p].pc.least == s.consumers[cfg.graph.rear[pc.read]].cursor
                || (pc.read > 0 && u.producers[p].pc.least == pc.least))
  {
  }

  lemma OthersLeave(cfg: Config, s: State, step: Step, p: nat)
    requires Enabled(cfg, s, step) && p < |s.producers| && !(step.ByProducer? && step.p == p)
    ensures p < |Apply(cfg, s, step).producers| && Apply(cfg, s, step).producers[p] == s.producers[p]
  {
  }

  lemma {:induction false} ReadingSeesOverRuns(cfg: Config, s0: State, s: State, steps: seq<Step>, p: nat, n: nat, current: int)
    requires Inv(cfg, s) && Advances(s0, s) && IsRun(cfg, s, steps) && p < |s.producers| && OnlyReadsRear(steps, p)
    requires RearSeen(cfg, s0, s, p, n, current)
    ensures p < |After(cfg, s, steps).producers| && RearSeen(cfg, s0, After(cfg, s, steps), p, n, current)
    ensures Inv(cfg, After(cfg, s, steps))
    decreases |steps|
  {
    if steps != [] {
      assert OnlyReadsRear([steps[0]], p);
      ReadingSees(cfg, s0, s, steps[0], p, n, current);
      ReadingSeesOverRuns(cfg, s0, Apply(cfg, s, steps[0]), steps[1..], p, n, current);
    }
  }

  /** Over the reading of the rear, whatever the others do meanwhile: a claim is refused only if it did not
      fit behind some watched cursor when the reading began; and if it is not refused, the cached limit
      becomes one ring ahead of a value that a watched cursor has had since. */
  lemma RefusalHasAReason(cfg: Config, s: State, steps: seq<Step>, p: nat) returns (t: nat)
    requires ValidConfig(cfg) && Reachable(cfg, s) && IsRun(cfg, s, steps) && OnlyReadsRear(steps, p)
    requires p < |s.producers| && s.producers[p].pc.ReadingRear? && s.producers[p].pc.read == 0
    requires Enabled(cfg, After(cfg, s, steps), ByProducer(p, ComputeCapacity))
    ensures t in cfg.graph.rear && t < |s.consumers|
    ensures var u := After(cfg, s, steps);
            var after := Apply(cfg, u, ByProducer(p, ComputeCapacity));
            && t < |u.consumers| && p < |after.producers|
            && if after.producers[p].pc == Idle then
                 s.consumers[t].cursor + cfg.capacity < s.claimed + s.producers[p].pc.n
               else
                 && after.producers[p].pc.Claiming?
                 && s.consumers[t].cursor + cfg.capacity <= after.producers[p].clear <= u.consumers[t].cursor + cfg.capacity
  {
    ReachableIsSound(cfg, s);
    var n, current := s.producers[p].pc.n, s.producers[p].pc.current;
    assert ProducerOk(cfg, s, s.producers[p]);
    ReadingSeesOverRuns(cfg, s, s, steps, p, n, current);
    var u := After(cfg, s, steps);
    RearIsThere(cfg, u);
    t :| t in cfg.graph.rear && t < |s.consumers|
         && s.consumers[t].cursor <= u.producers[p].pc.least <= u.consumers[t].cursor;
    CapacityDecides(cfg, u, p);
  }

  lemma CapacityDecides(cfg: Config, s: State, p: nat)
    requires Enabled(cfg, s, ByProducer(p, ComputeCapacity))
    ensures var pc, after := s.producers[p].pc, Apply(cfg, s, ByProducer(p, ComputeCapacity));
            && p < |after.producers|
            && if pc.current + pc.n > pc.least + cfg.capacity then after.producers[p].pc == Idle
               else after.producers[p].pc.Claiming? && after.producers[p].clear == pc.least + cfg.capacity
  {
  }

  lemma RearIsThere(cfg: Config, s: State)
    requires Inv(cfg, s)
    ensures |cfg.graph.rear| > 0
  {
  }

  /** Within its cached limit a producer claims without looking at any consumer: three steps, undisturbed,
      are a whole claim. */
  lemma LimitSparesReading(cfg: Config, s: State, p: nat, n: nat)
    requires ValidConfig(cfg) && Reachable(cfg, s) && p < |s.producers| && s.producers[p].pc == Idle
    requires s.claimed + n <= s.producers[p].clear
    ensures var steps := [ByProducer(p, LoadCursor(n)), ByProducer(p, CompareWithCached), ByProducer(p, CompareExchange)];
            && IsRun(cfg, s, steps)
            && p < |After(cfg, s, steps).producers|
            && After(cfg, s, steps).producers[p].pc == Writing(s.claimed + 1, s.claimed + n)
  {
    ReachableIsSound(cfg, s);
    WithinLimit(cfg, s, p, n);
    ThreeSteps(cfg, s, ByProducer(p, LoadCursor(n)), ByProducer(p, CompareWithCached), ByProducer(p, CompareExchange));
  }

  lemma WithinLimit(cfg: Config, s: State, p: nat, n: nat)
    requires p < |s.producers| && s.producers[p].pc == Idle && s.claimed + n <= s.producers[p].clear
    requires 0 <= s.claimed + 1 && 0 < cfg.capacity == |s.slots|
    ensures Enabled(cfg, s, ByProducer(p, LoadCursor(n)))
    ensures var a := Apply(cfg, s, ByProducer(p, LoadCursor(n)));
            && Enabled(cfg, a, ByProducer(p, CompareWithCached))
            && var b := Apply(cfg, a, ByProducer(p, CompareWithCached));
               && Enabled(cfg, b, ByProducer(p, CompareExchange))
               && var c := Apply(cfg, b, ByProducer(p, CompareExchange));
                  p < |c.producers| && c.producers[p].pc == Writing(s.claimed + 1, s.claimed + n)
  {
    var a := Apply(cfg, s, ByProducer(p, LoadCursor(n)));
    assert a.producers[p].pc == Comparing(n, s.claimed);
    var b := Apply(cfg, a, ByProducer(p, CompareWithCached));
    assert b.producers[p].pc == Claiming(n, s.claimed) && b.claimed == s.claimed;
  }

  lemma ThreeSteps(cfg: Config, s: State, x: Step, y: Step, z: Step)
    requires Enabled(cfg, s, x) && Enabled(cfg, Apply(cfg, s, x), y)
    requires Enabled(cfg, Apply(cfg, Apply(cfg, s, x), y), z)
    ensures IsRun(cfg, s, [x, y, z])
    ensures After(cfg, s, [x, y, z]) == Apply(cfg, Apply(cfg, Apply(cfg, s, x), y), z)
  {
    var a := Apply(cfg, s, x);
    TwoSteps(cfg, a, y, z);
    assert [x, y, z][1..] == [y, z];
  }

  lemma TwoSteps(cfg: Config, s: State, x: Step, y: Step)
    requires Enabled(cfg, s, x) && Enabled(cfg, Apply(cfg, s, x), y)
    ensures IsRun(cfg, s, [x, y]) && After(cfg, s, [x, y]) == Apply(cfg, Apply(cfg, s, x), y)
  {
    var a := Apply(cfg, s, x);
    var b := Apply(cfg, a, y);
    assert [x, y][1..] == [y] && [y][1..] == [];
    assert IsRun(cfg, b, []) && After(cfg, b, []) == b;
    assert IsRun(cfg, a, [y]) && After(cfg, a, [y]) == b;
  }

  // --- publishing by the word -----------------------------------------------------------------------

  /** Each step of publishing a range gets to its end or to the end of a word. */
  lemma PublishesByTheWord(cfg: Config, s: State, p: nat)
    requires ValidConfig(cfg) && Reachable(cfg, s) && cfg.multi && Enabled(cfg, s, ByProducer(p, Publish))
    ensures var t := Apply(cfg, s, ByProducer(p, Publish));
            && p < |t.producers| && 0 < cfg.capacity
            && match t.producers[p].pc
               case Publishing(next, upper) => next % cfg.capacity % 64 == 0 && upper == s.producers[p].pc.upper
               case pc => pc == Idle
  {
    ReachableIsSound(cfg, s);
    assert ProducerOk(cfg, s, s.producers[p]);
    PublishChanges(cfg, s, p);
    UpToTheEnd(cfg, s, p);
  }

  lemma UpToTheEnd(cfg: Config, s: State, p: nat)
    requires Enabled(cfg, s, ByProducer(p, Publish)) && cfg.multi
    ensures PublishedUpTo(cfg, s, p) == s.producers[p].pc.upper + 1 || PublishedUpTo(cfg, s, p) % cfg.capacity % 64 == 0
  {
    var pc := s.producers[p].pc;
    if pc.next <= pc.upper {
      TakesToTheEnd(cfg.capacity, pc.next, pc.upper - pc.next + 1);
    }
  }

  lemma TakesToTheEnd(size: nat, sequence: nat, remaining: nat)
    requires size > 0 && size % 64 == 0
    ensures Take(size, sequence, remaining) == remaining || (sequence + Take(size, sequence, remaining)) % size % 64 == 0
  {
    var slot := sequence % size;
    var room := 64 - slot % 64;
    RoomInRing(slot, size, room);
    NextWord(slot);
    EndOfRing(size, sequence, slot, room);
  }

  lemma NextWord(slot: nat)
    ensures (slot + (64 - slot % 64)) % 64 == 0
  {
  }

  lemma EndOfRing(size: nat, sequence: nat, slot: nat, room: nat)
    requires size > 0 && slot == sequence % size && slot + room <= size
    ensures (sequence + room) % size == if slot + room == size then 0 else slot + room
  {
    var q := sequence / size;
    if slot + room == size {
      Twice(q, size);
      DivideUnique(sequence + room, size, q + 1, 0);
    } else {
      DivideUnique(sequence + room, size, q, slot + room);
    }
  }

  lemma Twice(q: nat, size: nat)
    ensures (q + 1) * size == q * size + size
  {
  }
}
