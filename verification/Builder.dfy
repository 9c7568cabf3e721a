/** How the builders wire a disruptor, and that what they build is one the theorems are about. */
module Builders {
  import opened Bits
  import opened Wiring
  import opened Protocol

  /** How many consumers the stage under construction has: none, one, or several. */
  datatype Population = NC | SC | MC

  /** The builder of a disruptor, single- or multi-producer: both wire consumers in the same way. */
  class Builder {
    const size: nat
    const multi: bool
    var population: Population
    /** The barriers the consumers added so far were started with, and which of them are pollers. */
    var barriers: seq<Barrier>
    var poller: seq<bool>
    /** How many gates have been created. */
    var gates: nat
    var currentConsumerCursors: seq<nat>
    var dependentBarrier: Barrier
    /** The stage of every consumer and the stage under construction (specification only). */
    ghost var stage: seq<nat>
    ghost var last: nat

    ghost predicate Valid()
      reads this
    {
      && PowerOfTwo(size) && (multi ==> size >= 64)
      && |stage| == |barriers| == |poller|
      && (forall c :: 0 <= c < |stage| ==> stage[c] <= last && WaitsForStageBelow(barriers[c], stage[c], stage))
      && (forall k: nat :: k < last ==> k in stage)
      && WaitsForStageBelow(dependentBarrier, last, stage)
      && (forall c: nat :: c in currentConsumerCursors <==> c < |stage| && stage[c] == last)
      && (forall c :: 0 <= c < |barriers| ==> WithGates(barriers[c], gates)) && WithGates(dependentBarrier, gates)
      && match population
         case NC => |currentConsumerCursors| == 0
         case SC => |currentConsumerCursors| == 1
         case MC => |currentConsumerCursors| >= 2
    }

    /** Building starts with a ring of a size that the producer accepts. */
    constructor (size: nat, multi: bool)
      requires PowerOfTwo(size) && (multi ==> size >= 64)
      ensures Valid() && this.size == size && this.multi == multi
      ensures population == NC && barriers == [] && last == 0 && gates == 0
    {
      this.size := size;
      this.multi := multi;
      population := NC;
      barriers := [];
      poller := [];
      gates := 0;
      currentConsumerCursors := [];
      dependentBarrier := Producers;
      stage := [];
      last := 0;
    }

    /** Create `n` gates, numbered from the one returned. */
    method NewGates(n: nat) returns (first: nat)
      requires Valid()
      modifies this`gates
      ensures Valid() && first == old(gates) && gates == first + n
    {
      first := gates;
      gates := gates + n;
    }

    /** Add an event handler or an event poller to the current stage. */
    method AddConsumer(isPoller: bool) returns (c: nat)
      requires Valid()
      modifies this
      ensures Valid() && last == old(last) && dependentBarrier == old(dependentBarrier) && gates == old(gates)
      ensures c == |old(barriers)| && barriers == old(barriers) + [dependentBarrier]
      ensures poller == old(poller) + [isPoller] && stage == old(stage) + [last]
      ensures population == if old(population) == NC then SC else MC
    {
      c := |barriers|;
      barriers := barriers + [dependentBarrier];
      poller := poller + [isPoller];
      currentConsumerCursors := currentConsumerCursors + [c];
      population := if population == NC then SC else MC;
      stage := stage + [last];
    }

    /** Let the consumers added next wait for all consumers of the current stage. */
    method AndThen()
      requires Valid() && population != NC
      modifies this
      ensures Valid() && population == NC && last == old(last) + 1
      ensures barriers == old(barriers) && poller == old(poller) && stage == old(stage) && gates == old(gates)
      ensures dependentBarrier == Stage(old(currentConsumerCursors), [])
    {
      assert currentConsumerCursors[0] in currentConsumerCursors;
      if population == SC {
        var cursor := currentConsumerCursors[0];
        currentConsumerCursors := currentConsumerCursors[1..];
        dependentBarrier := Stage([cursor], []);
      } else {
        dependentBarrier := Stage(currentConsumerCursors, []);
        currentConsumerCursors := [];
      }
      population := NC;
      last := last + 1;
    }

    /** As `AndThen`, and wait for the given gates of this builder as well. */
    method AndThenWithDependents(gating: seq<nat>)
      requires Valid() && population != NC
      requires forall g :: g in gating ==> g < gates
      modifies this
      ensures Valid() && population == NC && last == old(last) + 1
      ensures barriers == old(barriers) && poller == old(poller) && stage == old(stage) && gates == old(gates)
      ensures dependentBarrier == Stage(old(currentConsumerCursors), gating)
    {
      assert currentConsumerCursors[0] in currentConsumerCursors;
      dependentBarrier := Stage(currentConsumerCursors, gating);
      currentConsumerCursors := [];
      population := NC;
      last := last + 1;
    }

    /** Finish: the producers watch the consumers of the last stage. Whatever was built is a disruptor
        to which every theorem about valid configurations applies. */
    method Build() returns (cfg: Config)
      requires Valid() && population != NC
      modifies this
      ensures ValidConfig(cfg) && cfg.capacity == size && cfg.multi == multi
      ensures cfg.graph.barriers == old(barriers) && cfg.poller == old(poller) && cfg.gates == old(gates)
      ensures Layered(cfg.graph, old(stage), old(last))
    {
      ghost var s, l, cursors := stage, last, currentConsumerCursors;
      assert cursors[0] in cursors;
      var g: Graph;
      if population == SC {
        g := Graph(barriers, [currentConsumerCursors[0]]);
      } else {
        g := Graph(barriers, currentConsumerCursors);
      }
      cfg := Config(size, multi, g, poller, gates);
      currentConsumerCursors := [];
      population := NC;
      assert forall k: nat :: k <= l ==> k in s;
      assert forall t: nat :: t in g.rear <==> t in cursors;
      assert Layered(g, s, l);
    }
  }
}
