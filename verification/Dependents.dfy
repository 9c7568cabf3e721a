/** The barrier of a stage that waits for the stage before it and for external gates, as the loop of the
    source, with consumers moving on and gates moving either way between any two of its loads. */
module DependentsBarriers {
  import opened RingBuffers

  class GateGroup {
    const values: array<int>
    /** What the gates have held, all together, one moment after another (specification only). */
    ghost var history: seq<seq<int>>

    ghost predicate Valid()
      reads this, values
    {
      && history != [] && history[|history| - 1] == values[..]
      && forall i :: 0 <= i < |history| ==> |history[i]| == values.Length
    }

    constructor (n: nat)
      ensures Valid() && values.Length == n && fresh(values) && |history| == 1
      ensures forall g :: 0 <= g < n ==> values[g] == -1
    {
      values := new int[n](_ => -1);
      new;
      history := [values[..]];
    }

    /** Moving a gate, in either direction. */
    method Set(g: nat, v: int)
      requires Valid() && g < values.Length
      modifies values, this`history
      ensures Valid() && values[..] == old(values[..])[g := v]
      ensures history == old(history) + [values[..]]
    {
      values[g] := v;
      history := history + [values[..]];
    }

    /** What their owners may do to the gates between two loads: anything, for the record. */
    method Interfere()
      requires Valid()
      modifies values, this`history
      ensures Valid() && old(history) <= history
    {
    }
  }

  /** Has gate `g` held at least `v` at some moment from `since` on? */
  ghost predicate HeldAtLeast(history: seq<seq<int>>, since: nat, g: nat, v: int) {
    exists i :: since <= i < |history| && g < |history[i]| && v <= history[i][g]
  }

  ghost predicate Held(history: seq<seq<int>>, since: nat, g: nat, v: int) {
    exists i :: since <= i < |history| && g < |history[i]| && history[i][g] == v
  }

  ghost predicate AllHeldAtLeast(history: seq<seq<int>>, since: nat, gates: nat, v: int) {
    forall g :: 0 <= g < gates ==> HeldAtLeast(history, since, g, v)
  }

  ghost predicate SomeHeld(history: seq<seq<int>>, since: nat, gates: nat, v: int) {
    exists g :: 0 <= g < gates && Held(history, since, g, v)
  }

  lemma StillHeld(before: seq<seq<int>>, after: seq<seq<int>>, since: nat, g: nat, v: int)
    requires before <= after
    ensures HeldAtLeast(before, since, g, v) ==> HeldAtLeast(after, since, g, v)
    ensures Held(before, since, g, v) ==> Held(after, since, g, v)
  {
    if i :| since <= i < |before| && g < |before[i]| && v <= before[i][g] {
      assert after[i] == before[i];
    }
    if i :| since <= i < |before| && g < |before[i]| && before[i][g] == v {
      assert after[i] == before[i];
    }
  }

  lemma HeldLess(history: seq<seq<int>>, since: nat, g: nat, v: int, less: int)
    requires HeldAtLeast(history, since, g, v) && less <= v
    ensures HeldAtLeast(history, since, g, less)
  {
    var i :| since <= i < |history| && g < |history[i]| && v <= history[i][g];
  }

  class MultiConsumerDependentsBarrier {
    const group: CursorGroup
    const gates: GateGroup

    constructor (group: CursorGroup, gates: GateGroup)
      ensures this.group == group && this.gates == gates
    {
      this.group := group;
      this.gates := gates;
    }

    /** The least of cursors and gates: at most the slowest cursor, at most a value that each gate has held
        since the call began, not counting what gates held before; and no less than it must be: it is such
        a value of some gate, or at least the slowest cursor when the call began. Undisturbed, it is exactly
        the least of all as they stand. */
    method GetAfter(limit: int) returns (minSequence: int)
      requires gates.Valid() && group.cursors != gates.values && group.cursors.Length > 0
      requires forall i :: 0 <= i < group.cursors.Length ==> group.cursors[i] <= limit
      modifies group.cursors, gates.values, gates`history
      ensures gates.Valid() && old(gates.history) <= gates.history
      ensures Forward(old(group.cursors[..]), group.cursors[..])
      ensures minSequence <= MinOf(group.cursors[..])
      ensures AllHeldAtLeast(gates.history, |old(gates.history)| - 1, gates.values.Length, minSequence)
      ensures || minSequence >= MinOf(old(group.cursors[..]))
              || SomeHeld(gates.history, |old(gates.history)| - 1, gates.values.Length, minSequence)
      ensures gates.history == old(gates.history) && group.cursors[..] == old(group.cursors[..]) ==>
                && (forall g :: 0 <= g < gates.values.Length ==> minSequence <= gates.values[g])
                && (minSequence == MinOf(group.cursors[..])
                    || exists g :: 0 <= g < gates.values.Length && minSequence == gates.values[g])
    {
      ghost var since := |gates.history| - 1;
      minSequence := group.MinCursorSequence(limit);
      var k := 0;
      while k < gates.values.Length
        invariant 0 <= k <= gates.values.Length
        invariant gates.Valid() && old(gates.history) <= gates.history
        invariant Forward(old(group.cursors[..]), group.cursors[..]) && minSequence <= MinOf(group.cursors[..])
        invariant forall i :: 0 <= i < group.cursors.Length ==> group.cursors[i] <= limit
        invariant AllHeldAtLeast(gates.history, since, k, minSequence)
        invariant minSequence >= MinOf(old(group.cursors[..])) || SomeHeld(gates.history, since, k, minSequence)
      {
        ghost var before, least := gates.history, minSequence;
        gates.Interfere();
        group.Interfere(limit);
        var sequence := gates.values[k];
        assert gates.history[|gates.history| - 1][k] == sequence;
        minSequence := Min(minSequence, sequence);
        OneMoreGate(before, gates.history, since, k, least, sequence);
        k := k + 1;
      }
      HeldNow(gates.history, gates.values[..], minSequence);
    }
  }

  lemma OneMoreGate(before: seq<seq<int>>, history: seq<seq<int>>, since: nat, k: nat, least: int, sequence: int)
    requires before <= history && since < |history| && k < |history[|history| - 1]|
    requires history[|history| - 1][k] == sequence && AllHeldAtLeast(before, since, k, least)
    ensures AllHeldAtLeast(history, since, k + 1, Min(least, sequence))
    ensures SomeHeld(before, since, k, least) ==> SomeHeld(history, since, k, least)
    ensures SomeHeld(history, since, k, least) && least <= sequence ==> SomeHeld(history, since, k + 1, Min(least, sequence))
    ensures sequence < least ==> SomeHeld(history, since, k + 1, Min(least, sequence))
  {
    forall g | 0 <= g < k + 1 ensures HeldAtLeast(history, since, g, Min(least, sequence)) {
      if g < k {
        StillHeld(before, history, since, g, least);
        HeldLess(history, since, g, least, Min(least, sequence));
      }
    }
    if g :| 0 <= g < k && Held(before, since, g, least) {
      StillHeld(before, history, since, g, least);
    }
    assert Held(history, since, k, sequence);
  }

  /** When nothing has moved, what was held is what is held. */
  lemma HeldNow(history: seq<seq<int>>, now: seq<int>, v: int)
    requires history != [] && history[|history| - 1] == now
    ensures AllHeldAtLeast(history, |history| - 1, |now|, v) ==> forall g :: 0 <= g < |now| ==> v <= now[g]
    ensures SomeHeld(history, |history| - 1, |now|, v) ==> exists g :: 0 <= g < |now| && now[g] == v
  {
    if AllHeldAtLeast(history, |history| - 1, |now|, v) {
      forall g | 0 <= g < |now| ensures v <= now[g] {
        assert HeldAtLeast(history, |history| - 1, g, v);
      }
    }
  }
}
