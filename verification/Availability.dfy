/** The availability bitmap of the multi-producer barrier.

    One bit per slot says whether the slot was last published in an even (0) or an odd (1) round.
    Publishing flips bits with an xor; a consumer scans words for the first bit that does not show
    the parity of the round it expects. */
module Availability {
  import opened Bits

  // --- what the words mean -------------------------------------------------------------------

  /** Is the round of sequence `q` odd? Sequences below zero belong to round -1, an odd one. */
  predicate OddRound(q: int, size: nat)
    requires size > 0
  {
    (q / size) % 2 == 1
  }

  predicate BitAt(words: seq<nat>, slot: nat)
    requires slot < 64 * |words|
  {
    Bit(words[slot / 64], slot % 64)
  }

  /** Does the bit of `q`'s slot show the parity of `q`'s round? */
  predicate ReadsPublished(words: seq<nat>, size: nat, q: int)
    requires 0 < size == 64 * |words|
  {
    BitAt(words, q % size) <==> OddRound(q, size)
  }

  predicate AreWords(words: seq<nat>) {
    forall i | 0 <= i < |words| :: words[i] < Pow2(WIDTH)
  }

  // --- publishing ----------------------------------------------------------------------------

  /** The mask of `take` bits starting at bit `start`. */
  function Mask(start: nat, take: nat): nat {
    if take == 64 then Not(0) else Shl(LowOnes(take), start)
  }

  /** How many of `remaining` sequences, starting at `sequence`, lie in one word. */
  function Take(size: nat, sequence: nat, remaining: nat): (t: nat)
    requires 0 < size
    ensures sequence % size % 64 + t <= 64
    ensures remaining > 0 ==> 0 < t <= remaining
  {
    var room := 64 - sequence % size % 64;
    if remaining < room then remaining else room
  }

  /** One atomic xor: flip the bits of `take` sequences that share a word. */
  function PublishChunk(words: seq<nat>, size: nat, sequence: nat, take: nat): (r: seq<nat>)
    requires 0 < size == 64 * |words|
    requires sequence % size % 64 + take <= 64
    ensures |r| == |words|
  {
    var slot := sequence % size;
    words[slot / 64 := Xor(words[slot / 64], Mask(slot % 64, take))]
  }

  /** `n` publications of one sequence each. */
  function SinglePublishes(words: seq<nat>, size: nat, from: nat, n: nat): (r: seq<nat>)
    requires 0 < size == 64 * |words|
    ensures |r| == |words|
  {
    if n == 0 then words
    else PublishChunk(SinglePublishes(words, size, from, n - 1), size, from + n - 1, 1)
  }

  lemma MaskBit(start: nat, take: nat, i: nat)
    requires start + take <= 64 && i < 64
    ensures Mask(start, take) < Pow2(WIDTH)
    ensures Bit(Mask(start, take), i) <==> start <= i < start + take
  {
    if take == 64 {
      NotBit(0, i);
      ZeroHasNoBits(i);
    } else {
      ShiftedOnes(start, take);
      DoubledBit(LowOnes(take), start, i);
      if i >= start {
        LowOnesBit(take, i - start);
      }
    }
  }

  lemma ChunkAreWords(words: seq<nat>, size: nat, sequence: nat, take: nat)
    requires 0 < size == 64 * |words| && AreWords(words)
    requires sequence % size % 64 + take <= 64
    ensures AreWords(PublishChunk(words, size, sequence, take))
  {
    var slot := sequence % size;
    MaskBit(slot % 64, take, 0);
    XorRange(words[slot / 64], Mask(slot % 64, take), 64);
  }

  /** An xor flips exactly the slots it covers. */
  lemma ChunkBit(words: seq<nat>, size: nat, sequence: nat, take: nat, slot: nat)
    requires 0 < size == 64 * |words|
    requires sequence % size % 64 + take <= 64
    requires slot < size
    ensures BitAt(PublishChunk(words, size, sequence, take), slot)
       <==> BitAt(words, slot) != (sequence % size <= slot < sequence % size + take)
  {
    var first := sequence % size;
    if slot / 64 == first / 64 {
      XorBit(words[first / 64], Mask(first % 64, take), slot % 64);
      MaskBit(first % 64, take, slot % 64);
    }
  }

  /** Within one ring size of the chunk, exactly the sequences of the chunk change what they read as. */
  lemma ChunkReads(words: seq<nat>, size: nat, sequence: nat, take: nat, q: int)
    requires 0 < size == 64 * |words|
    requires sequence % size % 64 + take <= 64
    requires sequence + take - size <= q < sequence + size
    ensures ReadsPublished(PublishChunk(words, size, sequence, take), size, q)
       <==> ReadsPublished(words, size, q) != (sequence <= q < sequence + take)
  {
    RoomInRing(sequence % size, size, take);
    ChunkSlots(sequence, take, q, size);
    ChunkBit(words, size, sequence, take, q % size);
  }

  lemma RoomInRing(slot: nat, size: nat, take: nat)
    requires slot < size && size % 64 == 0 && slot % 64 + take <= 64
    ensures slot + take <= size
  {
  }

  lemma ChunkSlots(sequence: nat, take: nat, q: int, size: nat)
    requires size > 0 && sequence % size + take <= size
    requires sequence + take - size <= q < sequence + size
    ensures sequence % size <= q % size < sequence % size + take <==> sequence <= q < sequence + take
  {
    RemainderNear(sequence, q, size);
  }

  /** Two sequences one ring apart share a slot and differ in parity. */
  lemma NextRound(words: seq<nat>, size: nat, q: int)
    requires 0 < size == 64 * |words|
    ensures (q + size) % size == q % size && (q + size) / size == q / size + 1
    ensures ReadsPublished(words, size, q + size) <==> !ReadsPublished(words, size, q)
  {
    assert q + size == (q / size + 1) * size + q % size;
    DivideUnique(q + size, size, q / size + 1, q % size);
  }

  lemma {:induction false} InWordRemainder(size: nat, sequence: nat, k: nat)
    requires size > 0 && size % 64 == 0 && sequence % size % 64 + k < 64
    ensures (sequence + k) % size == sequence % size + k && (sequence + k) / size == sequence / size
  {
    var r := sequence % size;
    assert r / 64 < size / 64;
    assert r + k < size;
    assert sequence + k == (sequence / size) * size + (r + k);
    DivideUnique(sequence + k, size, sequence / size, r + k);
  }

  lemma SameWords(a: seq<nat>, b: seq<nat>)
    requires |a| == |b| && AreWords(a) && AreWords(b)
    requires forall slot: nat | slot < 64 * |a| :: BitAt(a, slot) <==> BitAt(b, slot)
    ensures a == b
  {
    forall w | 0 <= w < |a| ensures a[w] == b[w] {
      forall i: nat | i < 64 ensures Bit(a[w], i) <==> Bit(b[w], i) {
        assert BitAt(a, 64 * w + i) <==> BitAt(b, 64 * w + i);
      }
      SameBits(a[w], b[w], 64);
    }
  }

  /** The last bit of a chunk may be flipped by an xor of its own. */
  lemma ChunkSplits(words: seq<nat>, size: nat, from: nat, take: nat)
    requires 0 < size == 64 * |words| && AreWords(words)
    requires take > 0 && from % size % 64 + take <= 64
    ensures (from + take - 1) % size % 64 + 1 <= 64
    ensures PublishChunk(words, size, from, take)
         == PublishChunk(PublishChunk(words, size, from, take - 1), size, from + take - 1, 1)
  {
    InWordRemainder(size, from, take - 1);
    SplitAreWords(words, size, from, take);
    var whole := PublishChunk(words, size, from, take);
    var steps := PublishChunk(PublishChunk(words, size, from, take - 1), size, from + take - 1, 1);
    forall slot: nat | slot < size ensures BitAt(whole, slot) <==> BitAt(steps, slot) {
      SplitBit(words, size, from, take, slot);
    }
    SameWords(whole, steps);
  }

  lemma SplitAreWords(words: seq<nat>, size: nat, from: nat, take: nat)
    requires 0 < size == 64 * |words| && AreWords(words)
    requires take > 0 && from % size % 64 + take <= 64 && (from + take - 1) % size % 64 + 1 <= 64
    ensures AreWords(PublishChunk(words, size, from, take))
    ensures AreWords(PublishChunk(PublishChunk(words, size, from, take - 1), size, from + take - 1, 1))
  {
    ChunkAreWords(words, size, from, take);
    ChunkAreWords(words, size, from, take - 1);
    ChunkAreWords(PublishChunk(words, size, from, take - 1), size, from + take - 1, 1);
  }

  lemma SplitBit(words: seq<nat>, size: nat, from: nat, take: nat, slot: nat)
    requires 0 < size == 64 * |words| && slot < size
    requires take > 0 && from % size % 64 + take <= 64 && (from + take - 1) % size == from % size + take - 1
    requires (from + take - 1) % size % 64 + 1 <= 64
    ensures BitAt(PublishChunk(words, size, from, take), slot)
       <==> BitAt(PublishChunk(PublishChunk(words, size, from, take - 1), size, from + take - 1, 1), slot)
  {
    ChunkBit(words, size, from, take, slot);
    ChunkBit(words, size, from, take - 1, slot);
    ChunkBit(PublishChunk(words, size, from, take - 1), size, from + take - 1, 1, slot);
  }

  lemma EmptyChunk(words: seq<nat>, size: nat, from: nat)
    requires 0 < size == 64 * |words| && AreWords(words)
    ensures PublishChunk(words, size, from, 0) == words
  {
    ChunkAreWords(words, size, from, 0);
    forall slot: nat | slot < size ensures BitAt(PublishChunk(words, size, from, 0), slot) <==> BitAt(words, slot) {
      ChunkBit(words, size, from, 0, slot);
    }
    SameWords(PublishChunk(words, size, from, 0), words);
  }

  /** One xor of `take` bits is `take` xors of one bit. */
  lemma {:induction false} ChunkIsSinglePublishes(words: seq<nat>, size: nat, from: nat, take: nat)
    requires 0 < size == 64 * |words| && AreWords(words)
    requires from % size % 64 + take <= 64
    ensures PublishChunk(words, size, from, take) == SinglePublishes(words, size, from, take)
    ensures AreWords(SinglePublishes(words, size, from, take))
  {
    if take == 0 {
      EmptyChunk(words, size, from);
    } else {
      ChunkIsSinglePublishes(words, size, from, take - 1);
      ChunkSplits(words, size, from, take);
      ChunkAreWords(words, size, from, take);
    }
  }

  lemma {:induction false} SinglePublishesJoin(words: seq<nat>, size: nat, from: nat, n: nat, m: nat)
    requires 0 < size == 64 * |words|
    ensures SinglePublishes(SinglePublishes(words, size, from, n), size, from + n, m)
         == SinglePublishes(words, size, from, n + m)
  {
    if m > 0 {
      SinglePublishesJoin(words, size, from, n, m - 1);
    }
  }

  /** The progress of a range publication: the words after some of its atomic xors, the next
      sequence to flip and the number of sequences left. */
  datatype RangeProgress = RangeProgress(words: seq<nat>, sequence: nat, remaining: nat)

  /** The bitmap as it stands after the first `rounds` atomic xors of publishing `n` sequences. */
  function RangeAfter(words: seq<nat>, size: nat, from: nat, n: nat, rounds: nat): (r: RangeProgress)
    requires 0 < size == 64 * |words|
    ensures |r.words| == |words|
  {
    if rounds == 0 then RangeProgress(words, from, n)
    else
      var before := RangeAfter(words, size, from, n, rounds - 1);
      var take := Take(size, before.sequence, before.remaining);
      RangeProgress(PublishChunk(before.words, size, before.sequence, take),
                    before.sequence + take, before.remaining - take)
  }

  lemma RangeStep(words: seq<nat>, size: nat, from: nat, n: nat, rounds: nat)
    requires 0 < size == 64 * |words|
    ensures var at := RangeAfter(words, size, from, n, rounds);
            var take := Take(size, at.sequence, at.remaining);
            RangeAfter(words, size, from, n, rounds + 1)
            == RangeProgress(PublishChunk(at.words, size, at.sequence, take), at.sequence + take, at.remaining - take)
  {
  }

  /** Stopped between any two of its xors, a range publication has published exactly a prefix of
      the range, one sequence after another, and `n` xors are enough for all of it. */
  lemma RangePublishesPrefixes(words: seq<nat>, size: nat, from: nat, n: nat, rounds: nat)
    requires 0 < size == 64 * |words| && AreWords(words)
    ensures IsPrefix(words, size, from, n, RangeAfter(words, size, from, n, rounds))
    ensures rounds >= n ==> RangeAfter(words, size, from, n, rounds).remaining == 0
  {
    var k := 0;
    NothingIsPrefix(words, size, from, n);
    while k < rounds
      invariant k <= rounds && IsPrefix(words, size, from, n, RangeAfter(words, size, from, n, k))
    {
      NextIsPrefix(words, size, from, n, k);
      k := k + 1;
    }
    RangeShrinks(words, size, from, n, rounds);
  }

  lemma NothingIsPrefix(words: seq<nat>, size: nat, from: nat, n: nat)
    requires 0 < size == 64 * |words| && AreWords(words)
    ensures IsPrefix(words, size, from, n, RangeAfter(words, size, from, n, 0))
  {
  }

  lemma NextIsPrefix(words: seq<nat>, size: nat, from: nat, n: nat, rounds: nat)
    requires 0 < size == 64 * |words| && AreWords(words)
    requires IsPrefix(words, size, from, n, RangeAfter(words, size, from, n, rounds))
    ensures IsPrefix(words, size, from, n, RangeAfter(words, size, from, n, rounds + 1))
  {
    PrefixGrows(words, size, from, n, RangeAfter(words, size, from, n, rounds));
    RangeStep(words, size, from, n, rounds);
  }

  predicate IsPrefix(words: seq<nat>, size: nat, from: nat, n: nat, at: RangeProgress)
    requires 0 < size == 64 * |words|
  {
    && at.remaining <= n
    && at.sequence == from + (n - at.remaining)
    && at.words == SinglePublishes(words, size, from, n - at.remaining)
    && AreWords(at.words)
  }

  lemma PrefixGrows(words: seq<nat>, size: nat, from: nat, n: nat, at: RangeProgress)
    requires 0 < size == 64 * |words| && AreWords(words)
    requires IsPrefix(words, size, from, n, at)
    ensures var take := Take(size, at.sequence, at.remaining);
            IsPrefix(words, size, from, n,
              RangeProgress(PublishChunk(at.words, size, at.sequence, take), at.sequence + take, at.remaining - take))
  {
    var take := Take(size, at.sequence, at.remaining);
    ChunkIsSinglePublishes(at.words, size, at.sequence, take);
    SinglePublishesJoin(words, size, from, n - at.remaining, take);
  }

  lemma {:induction false} RangeShrinks(words: seq<nat>, size: nat, from: nat, n: nat, rounds: nat)
    requires 0 < size == 64 * |words|
    ensures RangeAfter(words, size, from, n, rounds).remaining <= (if rounds <= n then n - rounds else 0)
  {
    if rounds > 0 {
      RangeShrinks(words, size, from, n, rounds - 1);
    }
  }

  // --- scanning ------------------------------------------------------------------------------

  /** `(1 << bits_remaining) - 1` for the bits of a word from `start` on. */
  function Relevant(start: nat): (r: nat)
    requires start < 64
    ensures r == LowOnes(64 - start)
  {
    var bitsRemaining := 64 - start;
    if bitsRemaining == 64 then Not(0) else LowOnes(bitsRemaining)
  }

  /** The bits of `word` from `start` on that do not show the expected parity, shifted down. */
  function Mismatch(word: nat, start: nat, odd: bool): nat
    requires word < Pow2(WIDTH) && start < 64
  {
    var shifted := And(Shr(word, start), Relevant(start));
    ShiftedInRange(word, start);
    if !odd then shifted else And(Not(shifted), Relevant(start))
  }

  /** How many bits of `word`, from `start` on, show the expected parity before the first that does
      not; `None` when all of them do. */
  function ScanWord(word: nat, start: nat, odd: bool): Option<nat>
    requires word < Pow2(WIDTH) && start < 64
  {
    var mismatch := Mismatch(word, start, odd);
    if mismatch != 0 then Some(TrailingZeros(mismatch)) else None
  }

  datatype Option<T> = None | Some(value: T)

  lemma ShiftedInRange(word: nat, start: nat)
    requires word < Pow2(WIDTH) && start < 64
    ensures And(Shr(word, start), Relevant(start)) < Pow2(WIDTH)
  {
    AndRange(Shr(word, start), Relevant(start));
    Pow2Monotone(64 - start, WIDTH);
  }

  lemma MismatchBit(word: nat, start: nat, odd: bool, i: nat)
    requires word < Pow2(WIDTH) && start < 64
    ensures Bit(Mismatch(word, start, odd), i) <==> start + i < 64 && Bit(word, start + i) != odd
  {
    var relevant := Relevant(start);
    var shifted := And(Shr(word, start), relevant);
    ShiftedInRange(word, start);
    AndBit(Shr(word, start), relevant, i);
    ShrBit(word, start, i);
    LowOnesBit(64 - start, i);
    AndBit(Not(shifted), relevant, i);
    if i < 64 {
      NotBit(shifted, i);
    }
  }

  /** The scan stops at the first bit of the word whose parity is not the expected one. */
  lemma ScanStopsAtFirstMismatch(word: nat, start: nat, odd: bool)
    requires word < Pow2(WIDTH) && start < 64
    ensures match ScanWord(word, start, odd)
            case None => forall i: nat | start <= i < 64 :: Bit(word, i) == odd
            case Some(m) => && start + m < 64 && Bit(word, start + m) != odd
                            && forall i: nat | start <= i < start + m :: Bit(word, i) == odd
  {
    var mismatch := Mismatch(word, start, odd);
    if mismatch == 0 {
      forall i: nat | start <= i < 64 ensures Bit(word, i) == odd {
        ZeroHasNoBits(i - start);
        MismatchBit(word, start, odd, i - start);
      }
    } else {
      var m := TrailingZeros(mismatch);
      TrailingZerosBit(mismatch);
      MismatchBit(word, start, odd, m);
      forall i: nat | start <= i < start + m ensures Bit(word, i) == odd {
        MismatchBit(word, start, odd, i - start);
      }
    }
  }

  /** The scan of one word in terms of sequences: which of the sequences from `sequence` to the end
      of its word read as published. */
  lemma ScanReads(words: seq<nat>, size: nat, sequence: nat)
    requires 0 < size == 64 * |words| && AreWords(words)
    ensures var slot := sequence % size;
            var found := ScanWord(words[slot / 64], slot % 64, OddRound(sequence, size));
            match found
            case None =>
              forall q | sequence <= q < sequence + (64 - slot % 64) :: ReadsPublished(words, size, q)
            case Some(m) =>
              && slot % 64 + m < 64 && !ReadsPublished(words, size, sequence + m)
              && forall q | sequence <= q < sequence + m :: ReadsPublished(words, size, q)
  {
    var slot := sequence % size;
    var odd := OddRound(sequence, size);
    var found := ScanWord(words[slot / 64], slot % 64, odd);
    ScanStopsAtFirstMismatch(words[slot / 64], slot % 64, odd);
    var limit := if found.None? then 64 - slot % 64 else found.value;
    forall q | sequence <= q < sequence + limit ensures ReadsPublished(words, size, q) {
      ReadsInWord(words, size, sequence, q - sequence);
    }
    if found.Some? {
      ReadsInWord(words, size, sequence, limit);
    }
  }

  lemma ReadsInWord(words: seq<nat>, size: nat, sequence: nat, k: nat)
    requires 0 < size == 64 * |words|
    requires sequence % size % 64 + k < 64
    ensures ReadsPublished(words, size, sequence + k)
       <==> Bit(words[sequence % size / 64], sequence % size % 64 + k) == OddRound(sequence, size)
  {
    InWordRemainder(size, sequence, k);
    var slot := sequence % size;
    assert (slot + k) / 64 == slot / 64 && (slot + k) % 64 == slot % 64 + k;
  }

  /** The bitmap `words` tells exactly which of the `size` sequences from `next` on are in
      `published`, and nothing beyond them is. */
  ghost predicate Shows(words: seq<nat>, size: nat, next: int, published: set<int>)
    requires 0 < size == 64 * |words|
  {
    && (forall q :: next <= q < next + size ==> (ReadsPublished(words, size, q) <==> q in published))
    && (forall q :: q in published ==> q < next + size)
  }

  function Range(lower: int, n: nat): (r: set<int>)
    ensures forall q :: q in r <==> lower <= q < lower + n
  {
    if n == 0 then {} else Range(lower, n - 1) + {lower + n - 1}
  }

  /** Publishing a chunk adds exactly its sequences to what the bitmap shows, in whatever order the
      sequences of the ring are published. */
  lemma ShowsWithChunk(words: seq<nat>, size: nat, next: int, sequence: nat, take: nat, published: set<int>)
    requires 0 < size == 64 * |words| && Shows(words, size, next, published)
    requires sequence % size % 64 + take <= 64 && next <= sequence && sequence + take <= next + size
    requires forall q :: sequence <= q < sequence + take ==> q !in published
    ensures Shows(PublishChunk(words, size, sequence, take), size, next, published + Range(sequence, take))
  {
    forall q | next <= q < next + size
      ensures ReadsPublished(PublishChunk(words, size, sequence, take), size, q) <==> q in published + Range(sequence, take)
    {
      ChunkReads(words, size, sequence, take, q);
    }
  }

  /** A consumer that has seen everything from `next` up to `sequence` published scans one more word:
      it never gets past the sequence that would reuse the slot of `next`. */
  lemma ScanStaysInRing(words: seq<nat>, size: nat, next: nat, published: set<int>, sequence: nat)
    requires 0 < size == 64 * |words| && AreWords(words) && Shows(words, size, next, published)
    requires next <= sequence <= next + size
    requires forall q :: next <= q < sequence ==> q in published
    ensures var slot := sequence % size;
            match ScanWord(words[slot / 64], slot % 64, OddRound(sequence, size))
            case None =>
              && sequence + (64 - slot % 64) <= next + size
              && forall q :: next <= q < sequence + (64 - slot % 64) ==> q in published
            case Some(m) =>
              && sequence + m <= next + size && sequence + m !in published
              && forall q :: next <= q < sequence + m ==> q in published
  {
    ScanReads(words, size, sequence);
    NextRound(words, size, next);
    var slot := sequence % size;
    var found := ScanWord(words[slot / 64], slot % 64, OddRound(sequence, size));
    var limit := sequence + if found.None? then 64 - slot % 64 else found.value;
    var lapped := ReadsPublished(words, size, next + size);
    assert sequence <= next + size < limit ==> lapped;
    if limit < next + size {
      assert found.Some? ==> !ReadsPublished(words, size, limit);
    }
    forall q | next <= q < limit ensures q in published {
      if q >= sequence {
        assert ReadsPublished(words, size, q);
      }
    }
  }

  /** A sequence that has already been consumed must not be scanned for again. In a ring of 64, after
      publishing 0 to 64, a scan from 0, whose slot 64 has reused, finds nothing, although all of them
      are published. */
  lemma ConsumedSequenceMisread(words: seq<nat>, size: nat)
    requires words == [Not(0)] && size == 64
    ensures SinglePublishes(words, size, 0, size + 1) == [1]
    ensures ScanWord(1, 0, OddRound(0, size)) == Some(0)
  {
    ChunkIsSinglePublishes(words, size, 0, size);
    FirstRound(words, size);
    SecondRound([0], size);
    StopsAtOnce();
  }

  lemma StopsAtOnce()
    ensures 1 < Pow2(WIDTH) && ScanWord(1, 0, false) == Some(0)
  {
    Pow2Monotone(1, WIDTH);
    ScanStopsAtFirstMismatch(1, 0, false);
    assert Bit(1, 0);
  }

  lemma FirstRound(words: seq<nat>, size: nat)
    requires words == [Not(0)] && size == 64
    ensures PublishChunk(words, size, 0, size) == [0]
  {
    Cancels(Not(0), WIDTH);
  }

  lemma SecondRound(words: seq<nat>, size: nat)
    requires words == [0] && size == 64
    ensures PublishChunk(words, size, size, 1) == [1]
  {
    assert LowOnes(1) == 1 && Pow2(0) == 1;
    ShiftedOnes(0, 1);
    assert Xor(0, 1) == 1;
  }

  lemma Cancels(w: nat, width: nat)
    requires w < Pow2(width)
    ensures Xor(w, w) == 0
  {
    XorRange(w, w, width);
    forall i: nat | i < width ensures Bit(Xor(w, w), i) <==> Bit(0, i) {
      XorBit(w, w, i);
      ZeroHasNoBits(i);
    }
    SameBits(Xor(w, w), 0, width);
  }
}
