/** The ring of slots, and the minimum over a group of cursors. */
module RingBuffers {
  import opened Bits

  type Event = int

  const I64_MAX: int := 0x7fff_ffff_ffff_ffff

  class RingBuffer {
    const slots: array<Event>
    const slotMask: nat

    ghost predicate Valid() {
      && PowerOfTwo(slots.Length)
      && slotMask == slots.Length - 1
    }

    constructor (size: nat, initial: Event)
      requires PowerOfTwo(size)
      ensures Valid() && slots.Length == size && fresh(slots)
      ensures forall i :: 0 <= i < size ==> slots[i] == initial
    {
      slots := new Event[size](_ => initial);
      slotMask := size - 1;
    }

    function Capacity(): nat {
      slots.Length
    }

    /** Masking finds the slot of a sequence: its remainder modulo the size of the ring. */
    function SlotIndex(sequence: nat): (slot: nat)
      requires Valid()
      ensures slot == sequence % slots.Length < slots.Length
    {
      ghost var k := Exponent(slots.Length);
      MaskIsRemainder(sequence, k);
      And(sequence, slotMask)
    }

    function AvailableCapacity(producer: int, highestRead: int): (free: int)
      ensures producer + free == highestRead + Capacity()
    {
      FreeAfter(Capacity(), producer, highestRead)
    }
  }

  /** How many sequences after `producer` may be claimed in a ring when the slowest consumer has read
      up to `highestRead`: the last of them is one ring ahead of it. */
  function FreeAfter(capacity: nat, producer: int, highestRead: int): (free: int)
    ensures producer + free == highestRead + capacity
  {
    highestRead - WrapPoint(capacity, producer)
  }

  /** The sequence whose slot `sequence` reuses. */
  function WrapPoint(capacity: nat, sequence: int): int {
    sequence - capacity
  }

  ghost function Exponent(n: nat): (k: nat)
    requires PowerOfTwo(n)
    ensures n == Pow2(k)
  {
    if n == 1 then 0 else Exponent(n / 2) + 1
  }

  /** The sequences from `lower` to `upper`, in order. */
  function Interval(lower: int, upper: int): (r: seq<int>)
    ensures |r| == if lower > upper then 0 else upper - lower + 1
    ensures forall i :: 0 <= i < |r| ==> r[i] == lower + i
    decreases upper - lower
  {
    if lower > upper then [] else [lower] + Interval(lower + 1, upper)
  }

  lemma IntervalsJoin(lower: int, middle: int, upper: int)
    requires lower - 1 <= middle <= upper
    ensures Interval(lower, upper) == Interval(lower, middle) + Interval(middle + 1, upper)
  {
  }

  lemma IntervalGrows(lower: int, upper: int)
    requires lower <= upper
    ensures Interval(lower, upper) == Interval(lower, upper - 1) + [upper]
  {
  }

  function Min(a: int, b: int): int {
    if a <= b then a else b
  }

  // --- the slowest of a group of cursors ------------------------------------------------------------

  function MinOf(values: seq<int>): (m: int)
    requires |values| > 0
    ensures m in values && forall i :: 0 <= i < |values| ==> m <= values[i]
  {
    if |values| == 1 then values[0]
    else
      var rest := MinOf(values[1..]);
      assert forall i :: 1 <= i < |values| ==> values[i] == values[1..][i - 1];
      Min(values[0], rest)
  }

  /** Cursors only move forwards. */
  ghost predicate Forward(before: seq<int>, after: seq<int>) {
    |before| == |after| && forall i :: 0 <= i < |before| ==> before[i] <= after[i]
  }

  class CursorGroup {
    const cursors: array<int>

    constructor (n: nat)
      ensures cursors.Length == n && fresh(cursors)
      ensures forall i :: 0 <= i < n ==> cursors[i] == -1
    {
      cursors := new int[n](_ => -1);
    }

    /** What consumers may do to their cursors between two loads. */
    method Interfere(limit: int)
      requires forall i :: 0 <= i < cursors.Length ==> cursors[i] <= limit
      modifies cursors
      ensures Forward(old(cursors[..]), cursors[..])
      ensures forall i :: 0 <= i < cursors.Length ==> cursors[i] <= limit
    {
    }

    /** The minimum, computed from loads at different times while the cursors advance, lies between
        the true minimum when the loop began and the true minimum when it ended. */
    method MinCursorSequence(limit: int) returns (minSequence: int)
      requires forall i :: 0 <= i < cursors.Length ==> cursors[i] <= limit
      modifies cursors
      ensures Forward(old(cursors[..]), cursors[..])
      ensures forall i :: 0 <= i < cursors.Length ==> cursors[i] <= limit
      ensures cursors.Length == 0 ==> minSequence == I64_MAX
      ensures cursors.Length > 0 ==> MinOf(old(cursors[..])) <= minSequence <= MinOf(cursors[..])
    {
      if cursors.Length == 0 {
        return I64_MAX;
      }
      Interfere(limit);
      minSequence := cursors[0];
      var k := 1;
      while k < cursors.Length
        invariant 1 <= k <= cursors.Length
        invariant Forward(old(cursors[..]), cursors[..])
        invariant forall i :: 0 <= i < cursors.Length ==> cursors[i] <= limit
        invariant MinOf(old(cursors[..])) <= minSequence
        invariant forall i :: 0 <= i < k ==> minSequence <= cursors[i]
      {
        ghost var before := cursors[..];
        Interfere(limit);
        assert forall i :: 0 <= i < cursors.Length ==> before[i] <= cursors[..][i];
        assert MinOf(old(cursors[..])) <= old(cursors[..])[k] <= cursors[..][k];
        minSequence := Min(minSequence, cursors[k]);
        k := k + 1;
      }
    }
  }
}
