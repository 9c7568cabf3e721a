/** Which cursors and gates each consumer waits for, and why watching the last stage is enough. */
module Wiring {

  /** What a consumer waits for: the producers' barrier, or the cursors of the stage before it
      together with external gates. A barrier over a single consumer is a stage of one cursor. */
  datatype Barrier = Producers | Stage(cursors: seq<nat>, gates: seq<nat>)

  /** `barriers[c]` is the barrier of consumer `c`; `rear` lists the cursors the producers watch. */
  datatype Graph = Graph(barriers: seq<Barrier>, rear: seq<nat>)

  /** How many values a barrier takes its minimum of. */
  function Dependencies(b: Barrier): nat {
    match b
    case Producers => 0
    case Stage(cursors, gates) => |cursors| + |gates|
  }

  // --- what the builders promise ---------------------------------------------------------------

  /** A barrier that waits for exactly the consumers of the stage below `level`. */
  ghost predicate WaitsForStageBelow(b: Barrier, level: nat, stage: seq<nat>) {
    match b
    case Producers => level == 0
    case Stage(cursors, _) =>
      && level > 0 && |cursors| > 0
      && (forall d: nat :: d in cursors <==> d < |stage| && stage[d] + 1 == level)
  }

  /** Consumers form stages `0..last`, none of them empty; every stage waits for the whole stage
      before it and the producers watch the whole last stage. */
  ghost predicate Layered(g: Graph, stage: seq<nat>, last: nat) {
    && |stage| == |g.barriers|
    && (forall c :: 0 <= c < |stage| ==> stage[c] <= last && WaitsForStageBelow(g.barriers[c], stage[c], stage))
    && (forall k: nat :: k <= last ==> k in stage)
    && |g.rear| > 0
    && (forall t: nat :: t in g.rear <==> t < |stage| && stage[t] == last)
  }

  /** A barrier that waits for gates that exist. */
  predicate WithGates(b: Barrier, gates: nat) {
    b.Stage? ==> forall g :: g in b.gates ==> g < gates
  }

  predicate GatesBelow(g: Graph, gates: nat) {
    forall c :: 0 <= c < |g.barriers| ==> WithGates(g.barriers[c], gates)
  }

  /** Every consumer is at most as far as each consumer it waits for. */
  ghost predicate Ordered(g: Graph, at: seq<int>)
    requires |at| == |g.barriers|
  {
    forall c, d :: 0 <= c < |at| && 0 <= d < |at| && g.barriers[c].Stage? && d in g.barriers[c].cursors ==>
      at[c] <= at[d]
  }

  /** When every consumer is at most as far as those it waits for, some consumer of the last stage
      is at most as far as any given consumer: watching the last stage is watching everybody. */
  lemma {:induction false} LastStageIsSlowest(g: Graph, stage: seq<nat>, last: nat, at: seq<int>, d: nat) returns (t: nat)
    requires Layered(g, stage, last)
    requires |at| == |g.barriers| && Ordered(g, at) && d < |at|
    ensures t in g.rear && t < |at| && at[t] <= at[d]
    decreases last - stage[d]
  {
    if stage[d] == last {
      t := d;
    } else {
      assert stage[d] + 1 in stage;
      var e :| 0 <= e < |stage| && stage[e] == stage[d] + 1;
      assert WaitsForStageBelow(g.barriers[e], stage[e], stage);
      assert d in g.barriers[e].cursors;
      t := LastStageIsSlowest(g, stage, last, at, e);
    }
  }
}
