/** Shared sequences: cursors, gates, and the notifier that wakes whoever waits for them. */
module Sequences {

  /** Wakes all blocked waiters. What the strategies make of a wake is the business of `Waiting`; here it
      only matters that each store is followed by one. */
  class Notifier {
    /** For every wake so far, what the sequence just stored held at that time (specification only): a
        wake that came before its store would announce the old value. */
    ghost var announced: seq<int>
    /** What the bitmap held at the last wake for a publication through it (specification only). */
    ghost var bitmap: seq<nat>

    constructor ()
      ensures announced == []
    {
      announced := [];
    }

    method Wake(ghost stored: int)
      modifies this`announced
      ensures announced == old(announced) + [stored]
    {
      announced := announced + [stored];
    }

    /** A wake for what has been published through a bitmap. */
    method WakeForBitmap(ghost stored: int, ghost words: seq<nat>)
      modifies this
      ensures announced == old(announced) + [stored] && bitmap == words
    {
      Wake(stored);
      bitmap := words;
    }
  }

  /** One atomic sequence number. */
  class Cursor {
    var value: int
    /** How far everybody but its present user has moved the cursor so far (specification only). */
    ghost var others: int

    constructor (start: int)
      ensures value == start && others == 0
    {
      value := start;
      others := 0;
    }

    /** On success the cursor is `next`; on failure it is untouched and its value returned. */
    method CompareExchange(current: int, next: int) returns (ok: bool, seen: int)
      modifies this`value
      ensures ok == (old(value) == current) && seen == old(value)
      ensures value == if ok then next else old(value)
    {
      seen := value;
      ok := value == current;
      if ok {
        value := next;
      }
    }
  }

  /** A gate: an external dependency that wakes those it gates when it moves, in either direction. */
  class GatedSequence {
    const inner: Cursor
    const notifier: Notifier

    constructor (inner: Cursor, notifier: Notifier)
      ensures this.inner == inner && this.notifier == notifier
    {
      this.inner := inner;
      this.notifier := notifier;
    }

    /** Store, then wake. */
    method Set(v: int)
      modifies inner`value, notifier
      ensures inner.value == v && notifier.announced == old(notifier.announced) + [v]
    {
      inner.value := v;
      notifier.Wake(inner.value);
    }

    /** Wake only if the gate was moved, and then after it was. */
    method CompareAndSet(current: int, next: int) returns (ok: bool, seen: int)
      modifies inner`value, notifier
      ensures ok == (old(inner.value) == current) && seen == old(inner.value)
      ensures inner.value == if ok then next else old(inner.value)
      ensures notifier.announced == if ok then old(notifier.announced) + [next] else old(notifier.announced)
    {
      ok, seen := inner.CompareExchange(current, next);
      if ok {
        notifier.Wake(inner.value);
      }
    }
  }
}
