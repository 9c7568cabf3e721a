/** Nobody gets stuck: while events are unread somebody can read them, and after shutdown the
    consumers alone can always drain the ring and stop. */
module Progress {
  import opened RingBuffers
  import opened Wiring
  import opened Protocol
  import opened Invariant
  import opened Preservation
  import opened Delivery

  /** Would the barrier of consumer `c`, read now, offer its next sequence? */
  ghost predicate CanRead(cfg: Config, s: State, c: nat)
    requires c < |s.consumers| && c < |cfg.graph.barriers|
  {
    var next := s.consumers[c].cursor + 1;
    match cfg.graph.barriers[c]
    case Producers => Published(s, next)
    case Stage(cursors, gates) =>
      && (forall d :: d in cursors ==> d < |s.consumers| && next <= s.consumers[d].cursor)
      && (forall g :: g in gates ==> g < |s.gates| && next <= s.gates[g])
  }

  /** Every gate has reached the last claimed sequence. */
  ghost predicate GatesOpen(s: State) {
    forall g :: 0 <= g < |s.gates| ==> s.gates[g] >= s.claimed
  }

  // --- somebody can move ----------------------------------------------------------------------------

  /** With nothing in flight and the gates open, if any consumer is behind then some consumer that is
      behind can read on: stages cannot block each other for ever. */
  lemma {:induction false} SomebodyCanRead(cfg: Config, s: State, stage: seq<nat>, last: nat, c0: nat) returns (c: nat)
    requires Inv(cfg, s) && Layered(cfg.graph, stage, last) && GatesOpen(s)
    requires forall q :: 0 <= q <= s.claimed ==> Published(s, q)
    requires c0 < |s.consumers| && s.consumers[c0].cursor < s.claimed
    ensures c < |s.consumers| && s.consumers[c].cursor < s.claimed && CanRead(cfg, s, c)
    decreases stage[c0]
  {
    var b := cfg.graph.barriers[c0];
    assert ConsumerOk(cfg, s, b, s.consumers[c0]);
    assert WaitsForStageBelow(b, stage[c0], stage);
    if b.Stage? && exists d: nat :: d in b.cursors && s.consumers[d].cursor < s.claimed {
      var d: nat :| d in b.cursors && s.consumers[d].cursor < s.claimed;
      c := SomebodyCanRead(cfg, s, stage, last, d);
    } else {
      c := c0;
    }
  }

  /** In every reachable state with open gates, whatever claims may have failed: a producer that holds
      sequences can go on, or a consumer can read on, or everybody has read everything and a whole
      ring is free. */
  lemma NoDeadlock(cfg: Config, s: State)
    requires ValidConfig(cfg) && Reachable(cfg, s) && GatesOpen(s)
    ensures || (exists p, q :: 0 <= p < |s.producers| && Holds(s.producers[p], q)
                  && (Enabled(cfg, s, ByProducer(p, FinishWriting)) || Enabled(cfg, s, ByProducer(p, Publish))))
            || (exists c :: 0 <= c < |s.consumers| && c < |cfg.graph.barriers| && CanRead(cfg, s, c))
            || (forall t :: t in cfg.graph.rear ==>
                  t < |s.consumers| && FreeAfter(cfg.capacity, s.claimed, s.consumers[t].cursor) == cfg.capacity)
  {
    ReachableIsSound(cfg, s);
    var stage: seq<nat>, last: nat :| Layered(cfg.graph, stage, last);
    if exists q :: 0 <= q <= s.claimed && !Published(s, q) {
      var q :| 0 <= q <= s.claimed && !Published(s, q);
      var p := s.owner[q];
      assert Holds(s.producers[p], q);
      assert ProducerOk(cfg, s, s.producers[p]);
      assert Enabled(cfg, s, ByProducer(p, FinishWriting)) || Enabled(cfg, s, ByProducer(p, Publish));
    } else if exists c :: 0 <= c < |s.consumers| && s.consumers[c].cursor < s.claimed {
      var c0 :| 0 <= c0 < |s.consumers| && s.consumers[c0].cursor < s.claimed;
      var c := SomebodyCanRead(cfg, s, stage, last, c0);
    } else {
      forall t | t in cfg.graph.rear
        ensures t < |s.consumers| && FreeAfter(cfg.capacity, s.claimed, s.consumers[t].cursor) == cfg.capacity
      {
        assert ConsumerOk(cfg, s, cfg.graph.barriers[t], s.consumers[t]);
      }
    }
  }

  // --- runs of some threads only --------------------------------------------------------------------

  /** The consumers, all of them waiting rather than polling; one producer; or everybody but one. */
  datatype Who = Consumers | TheProducer(p: nat) | AllBut(p: nat)

  predicate IsBy(who: Who, step: Step) {
    match who
    case Consumers => step.ByConsumer? && !step.consumerAction.BeginPoll?
    case TheProducer(p) => step.ByProducer? && step.p == p
    case AllBut(p) => step.ByProducer? ==> step.p != p
  }

  ghost predicate OnlyBy(who: Who, steps: seq<Step>) {
    forall i :: 0 <= i < |steps| ==> IsBy(who, steps[i])
  }

  /** `t` can be reached from `s` by steps of these threads only. */
  ghost predicate Leads(cfg: Config, who: Who, s: State, t: State) {
    exists steps :: OnlyBy(who, steps) && IsRun(cfg, s, steps) && After(cfg, s, steps) == t
  }

  /** Only consumer `c` differs. */
  ghost predicate Solo(s: State, t: State, c: nat)
    requires c < |s.consumers|
  {
    c < |t.consumers| && t == s.(consumers := s.consumers[c := t.consumers[c]])
  }

  lemma {:induction false} RunsJoin(cfg: Config, s: State, a: seq<Step>, b: seq<Step>)
    requires IsRun(cfg, s, a) && IsRun(cfg, After(cfg, s, a), b)
    ensures IsRun(cfg, s, a + b) && After(cfg, s, a + b) == After(cfg, After(cfg, s, a), b)
    decreases |a|
  {
    if a == [] {
      assert a + b == b;
    } else {
      var t := Apply(cfg, s, a[0]);
      RunsJoin(cfg, t, a[1..], b);
      assert (a + b)[0] == a[0] && (a + b)[1..] == a[1..] + b;
      assert After(cfg, s, a) == After(cfg, t, a[1..]);
    }
  }

  lemma LeadsOn(cfg: Config, who: Who, s: State, t: State, u: State)
    requires Leads(cfg, who, s, t) && Leads(cfg, who, t, u)
    ensures Leads(cfg, who, s, u)
  {
    var a :| OnlyBy(who, a) && IsRun(cfg, s, a) && After(cfg, s, a) == t;
    var b :| OnlyBy(who, b) && IsRun(cfg, t, b) && After(cfg, t, b) == u;
    RunsJoin(cfg, s, a, b);
    assert OnlyBy(who, a + b);
  }

  lemma LeadsNowhere(cfg: Config, who: Who, s: State)
    ensures Leads(cfg, who, s, s)
  {
    var none: seq<Step> := [];
    assert OnlyBy(who, none) && IsRun(cfg, s, none) && After(cfg, s, none) == s;
  }

  /** A state that some run of a well-built disruptor reaches. */
  ghost predicate Reached(cfg: Config, s: State) {
    ValidConfig(cfg) && Reachable(cfg, s)
  }

  lemma OneStep(cfg: Config, s: State, c: nat, action: ConsumerAction) returns (t: State)
    requires Reached(cfg, s) && Enabled(cfg, s, ByConsumer(c, action)) && !action.BeginPoll?
    ensures t == Apply(cfg, s, ByConsumer(c, action)) && t.consumers[c] == ConsumerAfter(cfg, s, c, action)
    ensures Leads(cfg, Consumers, s, t) && Reached(cfg, t) && Solo(s, t, c)
  {
    t := StepBy(cfg, Consumers, s, ByConsumer(c, action));
  }

  lemma StepBy(cfg: Config, who: Who, s: State, step: Step) returns (t: State)
    requires Reached(cfg, s) && Enabled(cfg, s, step) && OnlyBy(who, [step])
    ensures t == Apply(cfg, s, step) && Leads(cfg, who, s, t) && Reached(cfg, t)
  {
    t := Apply(cfg, s, step);
    var one := [step];
    assert one[1..] == [];
    assert IsRun(cfg, t, one[1..]) && After(cfg, t, one[1..]) == t;
    assert IsRun(cfg, s, one) && After(cfg, s, one) == t;
    assert OnlyBy(who, one);
    var start: State, steps: seq<Step> :| IsInitial(cfg, start) && IsRun(cfg, start, steps) && After(cfg, start, steps) == s;
    RunsJoin(cfg, start, steps, one);
  }

  /** One run of consumer `c` alone after another. */
  lemma ThenAlone(cfg: Config, s: State, t: State, u: State, c: nat)
    requires c < |s.consumers| && Leads(cfg, Consumers, s, t) && Leads(cfg, Consumers, t, u) && Solo(s, t, c) && Solo(t, u, c)
    ensures Leads(cfg, Consumers, s, u) && Solo(s, u, c)
  {
    LeadsOn(cfg, Consumers, s, t, u);
    assert s.consumers[c := t.consumers[c]][c := u.consumers[c]] == s.consumers[c := u.consumers[c]];
  }

  // --- one consumer alone ---------------------------------------------------------------------------

  lemma HandlingGoesOn(cfg: Config, s: State, c: nat)
    requires Reached(cfg, s) && c < |s.consumers| && s.consumers[c].pc.Handling?
    ensures var pc := s.consumers[c].pc;
            if pc.next <= pc.available then Enabled(cfg, s, ByConsumer(c, Handle))
            else Enabled(cfg, s, ByConsumer(c, StoreCursor))
    ensures s.consumers[c].cursor <= s.consumers[c].pc.available
  {
    ReachableIsSound(cfg, s);
    assert ConsumerOk(cfg, s, cfg.graph.barriers[c], s.consumers[c]);
  }

  lemma {:induction false} FinishBatch(cfg: Config, s: State, c: nat) returns (t: State)
    requires Reached(cfg, s) && c < |s.consumers| && s.consumers[c].pc.Handling?
    ensures Leads(cfg, Consumers, s, t) && Reached(cfg, t) && Solo(s, t, c)
    ensures t.consumers[c].pc == Resting && t.consumers[c].stopped == s.consumers[c].stopped
    ensures t.consumers[c].cursor == s.consumers[c].pc.available
    decreases s.consumers[c].pc.available - s.consumers[c].pc.next
  {
    HandlingGoesOn(cfg, s, c);
    if s.consumers[c].pc.next <= s.consumers[c].pc.available {
      var u := OneStep(cfg, s, c, Handle);
      t := FinishBatch(cfg, u, c);
      ThenAlone(cfg, s, u, t, c);
    } else {
      t := OneStep(cfg, s, c, StoreCursor);
    }
  }

  lemma SameOffer(x: Consumer, y: Consumer, call: Call, available: int)
    requires x.cursor == y.cursor && y == x.(pc := y.pc)
    ensures y.(pc := Offer(y, call, available)) == x.(pc := Offer(x, call, available))
  {
  }

  /** One word of an undisturbed scan: it either answers, or gets closer to the end of the ring. */
  lemma ScanGoesOn(cfg: Config, s: State, c: nat) returns (u: State)
    requires Reached(cfg, s) && c < |s.consumers| && s.consumers[c].pc.Scanning?
    ensures Leads(cfg, Consumers, s, u) && Reached(cfg, u) && Solo(s, u, c)
    ensures ScanGoesFurther(cfg, s, s.consumers[c], u.consumers[c])
         || exists available :: ScanAnswers(s, s.consumers[c], u.consumers[c], available)
  {
    MayScan(cfg, s, c);
    u := OneStep(cfg, s, c, ScanAvailability);
    ReachableIsSound(cfg, s);
    ScanLeadsTo(cfg, s, c);
  }

  lemma MayScan(cfg: Config, s: State, c: nat)
    requires Reached(cfg, s) && c < |s.consumers| && s.consumers[c].pc.Scanning?
    ensures Enabled(cfg, s, ByConsumer(c, ScanAvailability))
  {
    ReachableIsSound(cfg, s);
    assert ConsumerOk(cfg, s, cfg.graph.barriers[c], s.consumers[c]);
  }

  lemma ScanContinues(cfg: Config, s: State, u: State, x: Consumer, y: Consumer, z: Consumer, available: int)
    requires u == s.(consumers := u.consumers)
    requires ScanGoesFurther(cfg, s, x, y) && ScanAnswers(u, y, z, available)
    ensures ScanAnswers(s, x, z, available)
  {
    forall q ensures Published(s, q) <==> Published(u, q) {
      SamePublished(s, u, q);
    }
    SameOffer(x, y, x.pc.call, available);
  }

  /** A scan that nobody disturbs ends with the exact frontier. */
  lemma {:induction false} FinishScan(cfg: Config, s: State, c: nat) returns (t: State, available: int)
    requires Reached(cfg, s) && c < |s.consumers| && s.consumers[c].pc.Scanning?
    ensures Leads(cfg, Consumers, s, t) && Reached(cfg, t) && Solo(s, t, c)
    ensures ScanAnswers(s, s.consumers[c], t.consumers[c], available)
    decreases s.consumers[c].cursor + 1 + cfg.capacity - s.consumers[c].pc.sequence
  {
    var u := ScanGoesOn(cfg, s, c);
    if ScanGoesFurther(cfg, s, s.consumers[c], u.consumers[c]) {
      t, available := FinishScan(cfg, u, c);
      ScanContinues(cfg, s, u, s.consumers[c], u.consumers[c], t.consumers[c], available);
      ThenAlone(cfg, s, u, t, c);
    } else {
      t := u;
      available :| ScanAnswers(s, s.consumers[c], u.consumers[c], available);
    }
  }

  lemma SamePublished(s: State, u: State, q: int)
    requires u == s.(consumers := u.consumers)
    ensures Published(s, q) <==> Published(u, q)
  {
  }

  /** Every value consumer `c` has yet to read for its minimum, and the least so far, is at least `bound`. */
  ghost predicate AllAtLeast(cfg: Config, s: State, c: nat, bound: int)
    requires c < |s.consumers| && c < |cfg.graph.barriers|
  {
    var b, pc := cfg.graph.barriers[c], s.consumers[c].pc;
    && (pc.ReadingMin? && pc.read > 0 ==> bound <= pc.least)
    && (b.Stage? ==>
          && (forall d :: d in b.cursors ==> d < |s.consumers| && bound <= s.consumers[d].cursor)
          && (forall g :: g in b.gates ==> g < |s.gates| && bound <= s.gates[g]))
  }

  lemma MinimumGoesOn(cfg: Config, s: State, c: nat, bound: int)
    requires Reached(cfg, s) && c < |s.consumers| && s.consumers[c].pc.ReadingMin?
    ensures c < |cfg.graph.barriers| && cfg.graph.barriers[c].Stage?
    ensures var b, x := cfg.graph.barriers[c], s.consumers[c];
            && |b.cursors| > 0
            && if x.pc.read < |b.cursors| + |b.gates| then
                 && Enabled(cfg, s, ByConsumer(c, ReadDependency))
                 && (AllAtLeast(cfg, s, c, bound) ==>
                       AllAtLeast(cfg, Apply(cfg, s, ByConsumer(c, ReadDependency)), c, bound))
               else
                 Enabled(cfg, s, ByConsumer(c, CompleteMinimum))
  {
    ReachableIsSound(cfg, s);
    var x := s.consumers[c];
    var b := cfg.graph.barriers[c];
    assert ConsumerOk(cfg, s, b, x);
    var stage: seq<nat>, last: nat :| Layered(cfg.graph, stage, last);
    assert WaitsForStageBelow(b, stage[c], stage);
    var i := x.pc.read;
    if i < |b.cursors| {
      assert b.cursors[i] in b.cursors;
    } else if i < |b.cursors| + |b.gates| {
      assert b.gates[i - |b.cursors|] in b.gates;
    }
  }

  /** The `j`-th of the values that the barrier of consumer `c` takes the minimum of, as it stands: a
      cursor of the stage before, or a gate. */
  predicate IsDependency(cfg: Config, s: State, c: nat, j: nat) {
    && c < |cfg.graph.barriers| && cfg.graph.barriers[c].Stage?
    && var b := cfg.graph.barriers[c];
       if j < |b.cursors| then b.cursors[j] < |s.consumers|
       else j < |b.cursors| + |b.gates| && b.gates[j - |b.cursors|] < |s.gates|
  }

  function DependencyOf(cfg: Config, s: State, c: nat, j: nat): int
    requires IsDependency(cfg, s, c, j)
  {
    var b := cfg.graph.barriers[c];
    if j < |b.cursors| then s.consumers[b.cursors[j]].cursor else s.gates[b.gates[j - |b.cursors|]]
  }

  /** Is `v` the least of the first `n` of those values, exactly? */
  ghost predicate IsLeast(cfg: Config, s: State, c: nat, n: nat, v: int) {
    && (forall j: nat :: j < n ==> IsDependency(cfg, s, c, j) && v <= DependencyOf(cfg, s, c, j))
    && exists j: nat :: j < n && IsDependency(cfg, s, c, j) && v == DependencyOf(cfg, s, c, j)
  }

  ghost predicate LeastSoFar(cfg: Config, s: State, c: nat)
    requires c < |s.consumers|
  {
    var pc := s.consumers[c].pc;
    pc.ReadingMin? && (pc.read > 0 ==> IsLeast(cfg, s, c, pc.read, pc.least))
  }

  /** Nothing but the place of consumer `c` in its call has changed, so its dependencies have not. */
  lemma SameDependencies(cfg: Config, s: State, t: State, c: nat)
    requires c < |s.consumers| && Solo(s, t, c) && t.consumers[c].cursor == s.consumers[c].cursor
    ensures forall j: nat :: IsDependency(cfg, t, c, j) <==> IsDependency(cfg, s, c, j)
    ensures forall j: nat :: IsDependency(cfg, s, c, j) ==> DependencyOf(cfg, t, c, j) == DependencyOf(cfg, s, c, j)
  {
  }

  lemma SameLeast(cfg: Config, s: State, t: State, c: nat, n: nat, v: int)
    requires c < |s.consumers| && Solo(s, t, c) && t.consumers[c].cursor == s.consumers[c].cursor
    ensures IsLeast(cfg, s, c, n, v) <==> IsLeast(cfg, t, c, n, v)
  {
    SameDependencies(cfg, s, t, c);
    if IsLeast(cfg, s, c, n, v) {
      var j: nat :| j < n && IsDependency(cfg, s, c, j) && v == DependencyOf(cfg, s, c, j);
      assert IsDependency(cfg, t, c, j);
    }
    if IsLeast(cfg, t, c, n, v) {
      var j: nat :| j < n && IsDependency(cfg, t, c, j) && v == DependencyOf(cfg, t, c, j);
      assert IsDependency(cfg, s, c, j);
    }
  }

  /** Reading one more value keeps the least so far exact. */
  lemma LeastGrows(cfg: Config, s: State, c: nat)
    requires c < |s.consumers| && Enabled(cfg, s, ByConsumer(c, ReadDependency)) && LeastSoFar(cfg, s, c)
    ensures LeastSoFar(cfg, Apply(cfg, s, ByConsumer(c, ReadDependency)), c)
  {
    var t := Apply(cfg, s, ByConsumer(c, ReadDependency));
    var pc := s.consumers[c].pc;
    assert IsDependency(cfg, s, c, pc.read);
    ReadsOneDependency(cfg, s, c);
    var least := t.consumers[c].pc.least;
    if pc.read > 0 {
      var j: nat :| j < pc.read && IsDependency(cfg, s, c, j) && pc.least == DependencyOf(cfg, s, c, j);
      assert least == DependencyOf(cfg, s, c, if least == pc.least then j else pc.read);
    }
    assert IsLeast(cfg, s, c, pc.read + 1, least);
    SameLeast(cfg, s, t, c, pc.read + 1, least);
  }

  lemma ReadsOneDependency(cfg: Config, s: State, c: nat)
    requires c < |s.consumers| && Enabled(cfg, s, ByConsumer(c, ReadDependency))
    requires IsDependency(cfg, s, c, s.consumers[c].pc.read)
    ensures var x, t := s.consumers[c], Apply(cfg, s, ByConsumer(c, ReadDependency));
            var v := DependencyOf(cfg, s, c, x.pc.read);
            && Solo(s, t, c)
            && t.consumers[c] == x.(pc := ReadingMin(x.pc.call, x.pc.read + 1, t.consumers[c].pc.least))
            && t.consumers[c].pc.least == if x.pc.read > 0 && x.pc.least <= v then x.pc.least else v
  {
  }

  /** A minimum that nobody disturbs is at least every bound of the values it is taken over, and from its
      beginning it is exactly the least of them as they stand, gates included. */
  lemma {:induction false} FinishMinimum(cfg: Config, s: State, c: nat, bound: int) returns (t: State, available: int)
    requires Reached(cfg, s) && c < |s.consumers| && s.consumers[c].pc.ReadingMin?
    ensures Leads(cfg, Consumers, s, t) && Reached(cfg, t) && Solo(s, t, c)
    ensures t.consumers[c] == s.consumers[c].(pc := Offer(s.consumers[c], s.consumers[c].pc.call, available))
    ensures c < |cfg.graph.barriers| && cfg.graph.barriers[c].Stage?
    ensures AllAtLeast(cfg, s, c, bound) ==> bound <= available
    ensures LeastSoFar(cfg, s, c) ==> IsLeast(cfg, s, c, Dependencies(cfg.graph.barriers[c]), available)
    decreases if c < |cfg.graph.barriers| && cfg.graph.barriers[c].Stage?
              then |cfg.graph.barriers[c].cursors| + |cfg.graph.barriers[c].gates| - s.consumers[c].pc.read else 0
  {
    MinimumGoesOn(cfg, s, c, bound);
    var x := s.consumers[c];
    var b := cfg.graph.barriers[c];
    if x.pc.read < |b.cursors| + |b.gates| {
      var u := OneStep(cfg, s, c, ReadDependency);
      t, available := FinishMinimum(cfg, u, c, bound);
      if LeastSoFar(cfg, s, c) {
        LeastGrows(cfg, s, c);
        SameLeast(cfg, s, u, c, Dependencies(b), available);
      }
      SameOffer(x, u.consumers[c], x.pc.call, available);
      ThenAlone(cfg, s, u, t, c);
    } else {
      available := x.pc.least;
      t := OneStep(cfg, s, c, CompleteMinimum);
    }
  }

  lemma PublishedAreLoaded(cfg: Config, s: State, c: nat)
    requires Inv(cfg, s) && c < |s.consumers| && s.consumers[c].pc.LoadingPublished?
    ensures forall q :: Published(s, q) ==> q <= s.published
  {
    assert ConsumerOk(cfg, s, cfg.graph.barriers[c], s.consumers[c]);
    assert ProducerOk(cfg, s, s.producers[0]);
  }

  /** Where a consumer is once it has called its barrier. */
  predicate CallsBarrier(pc: ConsumerPc, call: Call) {
    || (pc.Scanning? && pc.call == call)
    || (pc.ReadingMin? && pc.call == call)
    || (pc.LoadingPublished? && pc.call == call)
  }

  /** Consumer `c` has just called its barrier, which has `bound` to offer. */
  ghost predicate WillOffer(cfg: Config, s: State, c: nat, bound: int)
    requires c < |s.consumers|
  {
    match s.consumers[c].pc
    case Scanning(_, sequence) => sequence == bound && Published(s, bound)
    case LoadingPublished(_) => Published(s, bound)
    case ReadingMin(_, _, _) => c < |cfg.graph.barriers| && AllAtLeast(cfg, s, c, bound)
    case _ => false
  }

  /** The barrier, asked undisturbed, always answers. */
  lemma BarrierAnswers(cfg: Config, s: State, c: nat, call: Call, bound: int) returns (t: State, available: int)
    requires Reached(cfg, s) && c < |s.consumers| && CallsBarrier(s.consumers[c].pc, call)
    ensures Leads(cfg, Consumers, s, t) && Reached(cfg, t) && Solo(s, t, c)
    ensures t.consumers[c] == s.consumers[c].(pc := Offer(s.consumers[c], call, available))
    ensures WillOffer(cfg, s, c, bound) ==> bound <= available
  {
    match s.consumers[c].pc
    case Scanning(_, _) => t, available := FinishScan(cfg, s, c);
    case ReadingMin(_, _, _) => t, available := FinishMinimum(cfg, s, c, bound);
    case LoadingPublished(_) =>
      ReachableIsSound(cfg, s);
      PublishedAreLoaded(cfg, s, c);
      available := s.published;
      t := OneStep(cfg, s, c, LoadPublished);
  }

  /** What a consumer that can read on will find at its barrier. */
  lemma WaitCallsBarrier(cfg: Config, s: State, c: nat, u: State)
    requires Reached(cfg, s) && Enabled(cfg, s, ByConsumer(c, BeginWait)) && u == Apply(cfg, s, ByConsumer(c, BeginWait))
    ensures var x, next := u.consumers[c], s.consumers[c].cursor + 1;
            && x == s.consumers[c].(pc := x.pc) && CallsBarrier(x.pc, WaitFor)
            && (CanRead(cfg, s, c) ==> WillOffer(cfg, u, c, next))
  {
    SamePublished(s, u, s.consumers[c].cursor + 1);
  }

  /** A consumer that can read its next sequence is offered it. */
  lemma BarrierOffers(cfg: Config, s: State, c: nat) returns (t: State, available: int)
    requires Reached(cfg, s) && c < |s.consumers| && s.consumers[c].pc == Resting && !s.consumers[c].stopped
    ensures Leads(cfg, Consumers, s, t) && Reached(cfg, t) && Solo(s, t, c)
    ensures t.consumers[c] == s.consumers[c].(pc := Offer(s.consumers[c], WaitFor, available))
    ensures c < |cfg.graph.barriers| && (CanRead(cfg, s, c) ==> available >= s.consumers[c].cursor + 1)
  {
    var next := s.consumers[c].cursor + 1;
    MayWait(cfg, s, c);
    var u := OneStep(cfg, s, c, BeginWait);
    WaitCallsBarrier(cfg, s, c, u);
    t, available := BarrierAnswers(cfg, u, c, WaitFor, next);
    SameOffer(s.consumers[c], u.consumers[c], WaitFor, available);
    ThenAlone(cfg, s, u, t, c);
  }

  lemma MayWait(cfg: Config, s: State, c: nat)
    requires Reached(cfg, s) && c < |s.consumers| && s.consumers[c].pc == Resting && !s.consumers[c].stopped
    ensures Enabled(cfg, s, ByConsumer(c, BeginWait))
  {
    ReachableIsSound(cfg, s);
  }

  /** A consumer that can read on does so: alone, it gets at least one sequence further. */
  lemma Advance(cfg: Config, s: State, c: nat) returns (t: State)
    requires Reached(cfg, s) && c < |s.consumers| && s.consumers[c].pc == Resting && !s.consumers[c].stopped
    requires c < |cfg.graph.barriers| && CanRead(cfg, s, c)
    ensures Leads(cfg, Consumers, s, t) && Reached(cfg, t) && Solo(s, t, c)
    ensures t.consumers[c].pc == Resting && !t.consumers[c].stopped
    ensures t.consumers[c].cursor > s.consumers[c].cursor
  {
    var u, available := BarrierOffers(cfg, s, c);
    t := FinishBatch(cfg, u, c);
    ThenAlone(cfg, s, u, t, c);
  }

  // --- one producer alone ---------------------------------------------------------------------------

  /** Does the claim producer `p` is making fit behind every cursor it has read and has yet to read? */
  ghost predicate ClaimFitsNow(cfg: Config, s: State, p: nat, n: nat, read: nat, least: int)
    requires p < |s.producers|
  {
    && (forall t :: t in cfg.graph.rear ==> t < |s.consumers| && s.claimed + n <= s.consumers[t].cursor + cfg.capacity)
    && (read > 0 ==> s.claimed + n <= least + cfg.capacity)
  }

  lemma RearGoesOn(cfg: Config, s: State, p: nat)
    requires Reached(cfg, s) && p < |s.producers| && s.producers[p].pc.ReadingRear?
    ensures var pc := s.producers[p].pc;
            && |cfg.graph.rear| > 0
            && if pc.read < |cfg.graph.rear|
               then Enabled(cfg, s, ByProducer(p, ReadRearCursor)) && cfg.graph.rear[pc.read] in cfg.graph.rear
               else Enabled(cfg, s, ByProducer(p, ComputeCapacity))
  {
    ReachableIsSound(cfg, s);
    assert ProducerOk(cfg, s, s.producers[p]);
    var stage: seq<nat>, last: nat :| Layered(cfg.graph, stage, last);
    if s.producers[p].pc.read < |cfg.graph.rear| {
      assert cfg.graph.rear[s.producers[p].pc.read] in cfg.graph.rear;
    }
  }

  /** A producer that reads the rear cursors undisturbed, and whose claim fits, goes on to claim. */
  lemma {:induction false} RearAllows(cfg: Config, s: State, p: nat) returns (t: State)
    requires Reached(cfg, s) && p < |s.producers| && s.producers[p].pc.ReadingRear?
    requires var pc := s.producers[p].pc; pc.current == s.claimed && ClaimFitsNow(cfg, s, p, pc.n, pc.read, pc.least)
    ensures Leads(cfg, TheProducer(p), s, t) && Reached(cfg, t)
    ensures t == s.(producers := t.producers) && p < |t.producers|
    ensures t.producers[p].pc == Claiming(s.producers[p].pc.n, s.claimed)
    decreases |cfg.graph.rear| - s.producers[p].pc.read
  {
    RearGoesOn(cfg, s, p);
    if s.producers[p].pc.read < |cfg.graph.rear| {
      var u := StepBy(cfg, TheProducer(p), s, ByProducer(p, ReadRearCursor));
      t := RearAllows(cfg, u, p);
      LeadsOn(cfg, TheProducer(p), s, u, t);
    } else {
      t := StepBy(cfg, TheProducer(p), s, ByProducer(p, ComputeCapacity));
    }
  }

  /** A claim that fits succeeds: a producer left alone gets exactly the next `n` sequences. */
  lemma ClaimThatFitsSucceeds(cfg: Config, s: State, p: nat, n: nat) returns (t: State)
    requires ValidConfig(cfg) && Reachable(cfg, s) && p < |s.producers| && s.producers[p].pc == Idle
    requires forall t :: t in cfg.graph.rear ==> t < |s.consumers| && s.claimed + n <= s.consumers[t].cursor + cfg.capacity
    ensures Leads(cfg, TheProducer(p), s, t) && Reachable(cfg, t)
    ensures p < |t.producers| && t.producers[p].pc == Writing(s.claimed + 1, s.claimed + n)
    ensures t.claimed == s.claimed + n
  {
    var b := CheckPasses(cfg, s, p, n);
    MayClaim(cfg, b, p);
    t := StepBy(cfg, TheProducer(p), b, ByProducer(p, CompareExchange));
    LeadsOn(cfg, TheProducer(p), s, b, t);
  }

  lemma CheckPasses(cfg: Config, s: State, p: nat, n: nat) returns (t: State)
    requires Reached(cfg, s) && p < |s.producers| && s.producers[p].pc == Idle
    requires forall t :: t in cfg.graph.rear ==> t < |s.consumers| && s.claimed + n <= s.consumers[t].cursor + cfg.capacity
    ensures Leads(cfg, TheProducer(p), s, t) && Reached(cfg, t)
    ensures t == s.(producers := t.producers) && p < |t.producers|
    ensures t.producers[p].pc == Claiming(n, s.claimed)
  {
    var who := TheProducer(p);
    var a := StepBy(cfg, who, s, ByProducer(p, LoadCursor(n)));
    t := StepBy(cfg, who, a, ByProducer(p, CompareWithCached));
    LeadsOn(cfg, who, s, a, t);
    if t.producers[p].pc.ReadingRear? {
      var b := t;
      t := RearAllows(cfg, b, p);
      LeadsOn(cfg, who, s, b, t);
    }
  }

  lemma MayClaim(cfg: Config, s: State, p: nat)
    requires Reached(cfg, s) && p < |s.producers| && s.producers[p].pc.Claiming?
    ensures Enabled(cfg, s, ByProducer(p, CompareExchange))
  {
    ReachableIsSound(cfg, s);
  }

  /** Only producer `p` has moved, and only to publish. */
  ghost predicate OnlyPublishes(s: State, t: State, p: nat) {
    && p < |s.producers| && p < |t.producers|
    && t == s.(words := t.words, published := t.published, producers := s.producers[p := t.producers[p]])
  }

  lemma PublishingGoesOn(cfg: Config, s: State, p: nat)
    requires Reached(cfg, s) && p < |s.producers| && s.producers[p].pc.Publishing?
    ensures Enabled(cfg, s, ByProducer(p, Publish))
    ensures var pc, t := s.producers[p].pc, Apply(cfg, s, ByProducer(p, Publish));
            && OnlyPublishes(s, t, p)
            && (forall q :: Published(s, q) ==> Published(t, q))
            && (|| (&& t.producers[p].pc == Idle
                    && forall q :: pc.next <= q <= pc.upper ==> Published(t, q))
                || (&& t.producers[p].pc.Publishing? && t.producers[p].pc.upper == pc.upper
                    && pc.next < t.producers[p].pc.next <= pc.upper
                    && forall q :: pc.next <= q < t.producers[p].pc.next ==> Published(t, q)))
  {
    ReachableIsSound(cfg, s);
    assert ProducerOk(cfg, s, s.producers[p]);
    PublishGrows(cfg, s, p);
  }

  /** A producer left alone publishes all it holds. */
  lemma {:induction false} PublishingCompletes(cfg: Config, s: State, p: nat) returns (t: State)
    requires ValidConfig(cfg) && Reachable(cfg, s) && p < |s.producers| && s.producers[p].pc.Publishing?
    ensures Leads(cfg, TheProducer(p), s, t) && Reachable(cfg, t)
    ensures OnlyPublishes(s, t, p) && t.producers[p].pc == Idle
    ensures forall q :: Published(s, q) || s.producers[p].pc.next <= q <= s.producers[p].pc.upper ==> Published(t, q)
    decreases s.producers[p].pc.upper - s.producers[p].pc.next
  {
    PublishingGoesOn(cfg, s, p);
    var u := StepBy(cfg, TheProducer(p), s, ByProducer(p, Publish));
    if u.producers[p].pc == Idle {
      t := u;
    } else {
      t := PublishingCompletes(cfg, u, p);
      LeadsOn(cfg, TheProducer(p), s, u, t);
    }
  }

  // --- no thread is ever blocked --------------------------------------------------------------------

  /** Every producer that has not dropped its handle has an enabled step, in every reachable state. */
  lemma ProducersAreNotBlocked(cfg: Config, s: State, p: nat) returns (action: ProducerAction)
    requires ValidConfig(cfg) && Reachable(cfg, s) && p < |s.producers| && s.producers[p].pc != Dropped
    ensures Enabled(cfg, s, ByProducer(p, action))
  {
    match s.producers[p].pc
    case Idle => action := LoadCursor(1);
    case Comparing(_, _) => action := CompareWithCached;
    case ReadingRear(_, _, read, _) =>
      RearGoesOn(cfg, s, p);
      action := if read < |cfg.graph.rear| then ReadRearCursor else ComputeCapacity;
    case Claiming(_, _) =>
      MayClaim(cfg, s, p);
      action := CompareExchange;
    case Writing(_, _) => action := FinishWriting;
    case Publishing(_, _) =>
      PublishingGoesOn(cfg, s, p);
      action := Publish;
    case LoadingTotal => action := LoadTotal;
    case StoringShutdown(_) => action := StoreShutdown;
  }

  /** Every consumer that has not been told to stop has an enabled step, in every reachable state. */
  lemma ConsumersAreNotBlocked(cfg: Config, s: State, c: nat) returns (action: ConsumerAction)
    requires ValidConfig(cfg) && Reachable(cfg, s) && c < |s.consumers| && !s.consumers[c].stopped
    ensures Enabled(cfg, s, ByConsumer(c, action)) && !action.BeginPoll?
  {
    match s.consumers[c].pc
    case Resting =>
      MayWait(cfg, s, c);
      action := BeginWait;
    case CheckingFirst(_) =>
      ReachableIsSound(cfg, s);
      action := CheckShutdownFirst;
    case Scanning(_, _) =>
      MayScan(cfg, s, c);
      action := ScanAvailability;
    case LoadingPublished(_) =>
      ReachableIsSound(cfg, s);
      action := LoadPublished;
    case ReadingMin(_, read, _) =>
      MinimumGoesOn(cfg, s, c, 0);
      var b := cfg.graph.barriers[c];
      action := if read < |b.cursors| + |b.gates| then ReadDependency else CompleteMinimum;
    case CheckingShutdown =>
      ReachableIsSound(cfg, s);
      action := CheckShutdown;
    case Handling(next, available) =>
      HandlingGoesOn(cfg, s, c);
      action := if next <= available then Handle else StoreCursor;
  }
}
