/** The disruptor as its users see it: a log that only grows at its end, read through one cursor per
    consumer and never more than the ring's capacity ahead of any of them. Both the single-producer
    and the multi-producer protocol refine it. */
module BoundedLog {
  import opened RingBuffers
  import opened Protocol
  import opened Invariant
  import opened Preservation
  import opened Delivery

  datatype Log = Log(entries: seq<Event>, cursors: seq<int>)

  // --- the abstract machine -------------------------------------------------------------------------

  predicate IsInitialLog(cfg: Config, a: Log) {
    a.entries == [] && a.cursors == seq(|cfg.graph.barriers|, _ => -1)
  }

  /** Events are appended, without getting more than a ring ahead of any consumer. */
  predicate Appends(cfg: Config, a: Log, b: Log) {
    && b.cursors == a.cursors
    && a.entries <= b.entries
    && forall c :: 0 <= c < |b.cursors| ==> |b.entries| <= b.cursors[c] + 1 + cfg.capacity
  }

  /** Consumer `c` finishes with events that are in the log and that those it waits for have finished with. */
  predicate Consumes(cfg: Config, a: Log, b: Log, c: nat) {
    && c < |a.cursors| == |cfg.graph.barriers| && |b.cursors| == |a.cursors|
    && b == a.(cursors := a.cursors[c := b.cursors[c]])
    && a.cursors[c] <= b.cursors[c] < |a.entries|
    && (cfg.graph.barriers[c].Stage? ==>
          forall d :: d in cfg.graph.barriers[c].cursors ==> d < |a.cursors| && b.cursors[c] <= a.cursors[d])
  }

  ghost predicate LogStep(cfg: Config, a: Log, b: Log) {
    a == b || Appends(cfg, a, b) || exists c :: Consumes(cfg, a, b, c)
  }

  // --- the abstraction ------------------------------------------------------------------------------

  /** The last sequence up to which everything from `q` on is published. */
  function FrontierFrom(s: State, q: nat): (f: int)
    ensures q - 1 <= f && (q <= s.claimed + 1 ==> f <= s.claimed)
    ensures forall r :: q <= r <= f ==> Published(s, r)
    ensures !Published(s, f + 1)
    decreases s.claimed + 1 - q
  {
    if q <= s.claimed && Published(s, q) then FrontierFrom(s, q + 1) else q - 1
  }

  function Frontier(s: State): int {
    FrontierFrom(s, 0)
  }

  ghost function Cursors(s: State): (r: seq<int>)
    ensures |r| == |s.consumers| && forall c :: 0 <= c < |r| ==> r[c] == s.consumers[c].cursor
  {
    seq(|s.consumers|, c requires 0 <= c < |s.consumers| => s.consumers[c].cursor)
  }

  /** What is published without a gap is the log. */
  ghost function Abstract(s: State): Log
    requires s.claimed >= -1 && |s.log| == s.claimed + 1
  {
    Log(s.log[..Frontier(s) + 1], Cursors(s))
  }

  // --- refinement -----------------------------------------------------------------------------------

  lemma FrontierGrows(cfg: Config, s: State, step: Step)
    requires Inv(cfg, s) && Enabled(cfg, s, step)
    ensures Frontier(s) <= Frontier(Apply(cfg, s, step))
  {
    var t := Apply(cfg, s, step);
    StepKeeps(cfg, s, step);
    assert Frontier(t) < Frontier(s) ==> Published(s, Frontier(t) + 1);
  }

  lemma EntriesGrow(cfg: Config, s: State, step: Step)
    requires Inv(cfg, s) && Enabled(cfg, s, step)
    ensures var t := Apply(cfg, s, step);
            && t.claimed >= -1 && |t.log| == t.claimed + 1
            && Abstract(s).entries <= Abstract(t).entries
  {
    var t := Apply(cfg, s, step);
    StepKeeps(cfg, s, step);
    FrontierGrows(cfg, s, step);
    forall q | 0 <= q <= Frontier(s) ensures q < |t.log| && t.log[q] == s.log[q] {
      PublishedIsFinal(cfg, s, step, q);
    }
  }

  /** A consumer's step changes no entry, and at most its own cursor, within the log. */
  lemma ConsumerConsumes(cfg: Config, s: State, c: nat, action: ConsumerAction)
    requires Inv(cfg, s) && Enabled(cfg, s, ByConsumer(c, action))
    ensures var t := Apply(cfg, s, ByConsumer(c, action));
            Abstract(t) == Abstract(s) || Consumes(cfg, Abstract(s), Abstract(t), c)
  {
    var t := Apply(cfg, s, ByConsumer(c, action));
    ConsumerKeeps(cfg, s, c, action);
    SameFrontier(s, t);
    if action.StoreCursor? {
      StoreConsumes(cfg, s, c);
    } else {
      NothingStored(cfg, s, c, action);
      assert Cursors(t) == Cursors(s);
    }
  }

  lemma NothingStored(cfg: Config, s: State, c: nat, action: ConsumerAction)
    requires Enabled(cfg, s, ByConsumer(c, action)) && !action.StoreCursor?
    ensures ConsumerAfter(cfg, s, c, action).cursor == s.consumers[c].cursor
  {
  }

  lemma StoreConsumes(cfg: Config, s: State, c: nat)
    requires Inv(cfg, s) && Enabled(cfg, s, ByConsumer(c, StoreCursor))
    requires Frontier(Apply(cfg, s, ByConsumer(c, StoreCursor))) == Frontier(s)
    ensures var t := Apply(cfg, s, ByConsumer(c, StoreCursor));
            Abstract(t) == Abstract(s) || Consumes(cfg, Abstract(s), Abstract(t), c)
  {
    var t := Apply(cfg, s, ByConsumer(c, StoreCursor));
    var x := s.consumers[c];
    assert ConsumerOk(cfg, s, cfg.graph.barriers[c], x);
    assert x.pc.available > Frontier(s) ==> Published(s, Frontier(s) + 1);
    assert Cursors(t) == Cursors(s)[c := x.pc.available];
  }

  lemma SameFrontier(s: State, t: State)
    requires forall q :: Published(s, q) <==> Published(t, q)
    ensures Frontier(s) == Frontier(t)
  {
    assert Frontier(s) < Frontier(t) ==> Published(t, Frontier(s) + 1);
    assert Frontier(t) < Frontier(s) ==> Published(s, Frontier(t) + 1);
  }

  /** Every step of either protocol is a step of the bounded log. */
  lemma StepRefinesLog(cfg: Config, s: State, step: Step)
    requires Inv(cfg, s) && Enabled(cfg, s, step)
    ensures Inv(cfg, Apply(cfg, s, step))
    ensures LogStep(cfg, Abstract(s), Abstract(Apply(cfg, s, step)))
  {
    var t := Apply(cfg, s, step);
    StepKeeps(cfg, s, step);
    if step.ByConsumer? {
      ConsumerConsumes(cfg, s, step.c, step.consumerAction);
    } else {
      EntriesGrow(cfg, s, step);
      RecordsChange(cfg, s, step);
      assert Cursors(t) == Cursors(s);
      forall c | 0 <= c < |t.consumers| ensures |Abstract(t).entries| <= t.consumers[c].cursor + 1 + cfg.capacity {
        NobodyIsLapped(cfg, t, c);
      }
    }
  }

  /** `trace` is the run `steps` from `s`, seen through the abstraction state by state. */
  ghost predicate IsTraceOf(cfg: Config, s: State, steps: seq<Step>, trace: seq<Log>)
    requires IsRun(cfg, s, steps)
  {
    && |trace| == |steps| + 1
    && forall i :: 0 <= i <= |steps| ==>
         var t := StateAt(cfg, s, steps, i);
         && t.claimed >= -1 && |t.log| == t.claimed + 1
         && trace[i] == Abstract(t)
  }

  ghost predicate IsLogRun(cfg: Config, trace: seq<Log>) {
    |trace| > 0 && forall i :: 0 <= i < |trace| - 1 ==> LogStep(cfg, trace[i], trace[i + 1])
  }

  lemma {:induction false} RunRefinesLog(cfg: Config, s: State, steps: seq<Step>) returns (trace: seq<Log>)
    requires Inv(cfg, s) && IsRun(cfg, s, steps)
    ensures IsTraceOf(cfg, s, steps, trace) && IsLogRun(cfg, trace)
    decreases |steps|
  {
    if steps == [] {
      trace := [Abstract(s)];
    } else {
      StepRefinesLog(cfg, s, steps[0]);
      var t := Apply(cfg, s, steps[0]);
      var rest := RunRefinesLog(cfg, t, steps[1..]);
      trace := [Abstract(s)] + rest;
      forall i | 0 <= i <= |steps|
        ensures var u := StateAt(cfg, s, steps, i);
                u.claimed >= -1 && |u.log| == u.claimed + 1 && trace[i] == Abstract(u)
      {
        if i > 0 {
          assert StateAt(cfg, s, steps, i) == StateAt(cfg, t, steps[1..], i - 1);
        }
      }
      assert rest[0] == Abstract(StateAt(cfg, t, steps[1..], 0));
    }
  }

  /** Whatever the threads do, seen through the abstraction after every single step they have only
      used a bounded log. */
  lemma DisruptorIsABoundedLog(cfg: Config, start: State, steps: seq<Step>) returns (trace: seq<Log>)
    requires ValidConfig(cfg) && IsInitial(cfg, start) && IsRun(cfg, start, steps)
    ensures IsTraceOf(cfg, start, steps, trace)
    ensures IsInitialLog(cfg, trace[0]) && IsLogRun(cfg, trace)
  {
    InitEstablishes(cfg, start);
    trace := RunRefinesLog(cfg, start, steps);
    assert trace[0] == Abstract(StateAt(cfg, start, steps, 0));
    assert Cursors(start) == seq(|cfg.graph.barriers|, _ => -1);
  }

  /** The events a processor has been given are, in order, a prefix of the log. */
  lemma DeliveriesAreAPrefixOfTheLog(cfg: Config, s: State, c: nat)
    requires ValidConfig(cfg) && Reachable(cfg, s) && c < |s.consumers| && c < |cfg.poller| && !cfg.poller[c]
    ensures s.claimed >= -1 && |s.log| == s.claimed + 1
    ensures var x := s.consumers[c];
            && |x.handled| <= |Abstract(s).entries|
            && forall i :: 0 <= i < |x.handled| ==> x.handled[i].event == Abstract(s).entries[i]
  {
    ReachableIsSound(cfg, s);
    var x := s.consumers[c];
    assert DeliveredOk(s, cfg.poller[c], x);
    assert ConsumerOk(cfg, s, cfg.graph.barriers[c], x);
    assert Horizon(x) > Frontier(s) ==> Published(s, Frontier(s) + 1);
  }
}
