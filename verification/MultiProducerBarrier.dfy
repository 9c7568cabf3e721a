/** The barrier shared by all producers and read by the first stage of consumers.

    Its fields and loops are those of the source. `Interfere` stands for whatever the other threads
    do between two shared accesses: it has no code, so that callers know only its contract. */
module MultiProducerBarriers {
  import opened Bits
  import opened Availability

  /** Do other threads use the barrier at the same time? */
  datatype Company = Alone | Sharing

  class MultiProducerBarrier {
    const available: array<nat>
    const indexMask: nat
    const indexShift: nat
    /** Every sequence published so far (specification only). */
    ghost var published: set<int>

    function Size(): nat {
      64 * available.Length
    }

    ghost predicate Valid()
      reads available
    {
      && available.Length > 0
      && AreWords(available[..])
      && indexMask == Size() - 1
      && Pow2(indexShift) == Size()
    }

    /** The bitmap tells the truth about one ring of sequences from `next` on, and nothing beyond
        that ring has been published. */
    ghost predicate Encodes(next: int)
      reads this, available
      requires available.Length > 0
    {
      Shows(available[..], Size(), next, published)
    }

    constructor (size: nat)
      requires size >= 64 && PowerOfTwo(size)
      ensures Valid() && Size() == size && fresh(available)
      ensures published == {} && Encodes(0)
    {
      WholeWords(size);
      var shift := PowerOfTwoHasExponent(size);
      available := new nat[size / 64](_ => Not(0));
      indexMask := size - 1;
      indexShift := WIDTH - LeadingZeros(size) - 1;
      published := {};
      new;
      ExponentOf(shift);
      forall q | 0 <= q < size ensures !ReadsPublished(available[..], size, q) {
        NotBit(0, q % 64);
        ZeroHasNoBits(q % 64);
        DivideUnique(q, size, 0, q);
      }
    }

    function SlotIndex(sequence: nat): (slot: nat)
      reads available
      requires Valid()
      ensures slot == sequence % Size()
    {
      MaskIsRemainder(sequence, indexShift);
      And(sequence, indexMask)
    }

    function AvailabilityIndices(sequence: nat): (r: (nat, nat))
      reads available
      requires Valid()
      ensures r.0 == sequence % Size() / 64 < available.Length
      ensures r.1 == sequence % Size() % 64
    {
      var slot := SlotIndex(sequence);
      MaskIsRemainder(slot, 6);
      ShrIsQuotient(slot, 6);
      assert Pow2(6) == 64;
      (Shr(slot, 6), And(slot, 63))
    }

    function AvailabilityFlag(sequence: nat): (flag: nat)
      reads available
      requires Valid()
      ensures flag == if OddRound(sequence, Size()) then 1 else 0
    {
      MaskIsRemainder(Shr(sequence, indexShift), 1);
      ShrIsQuotient(sequence, indexShift);
      assert Pow2(1) == 2;
      And(Shr(sequence, indexShift), 1)
    }

    /** The atomic xor of one word. */
    method FetchXor(index: nat, mask: nat)
      requires Valid() && index < available.Length && mask < Pow2(WIDTH)
      modifies available
      ensures Valid()
      ensures available[..] == old(available[..])[index := Xor(old(available[index]), mask)]
    {
      XorRange(available[index], mask, WIDTH);
      available[index] := Xor(available[index], mask);
    }

    /** Publishing one sequence flips its bit, and the bitmap then shows it as published. */
    method Publish(sequence: nat, ghost next: int)
      requires Valid() && Encodes(next)
      requires next <= sequence < next + Size() && sequence !in published
      modifies available, `published
      ensures Valid() && Encodes(next)
      ensures published == old(published) + {sequence}
      ensures available[..] == PublishChunk(old(available[..]), Size(), sequence, 1)
    {
      var (availabilityIndex, bitIndex) := AvailabilityIndices(sequence);
      ghost var before := available[..];
      assert Mask(bitIndex, 1) == Shl(1, bitIndex);
      MaskBit(bitIndex, 1, 0);
      FetchXor(availabilityIndex, Shl(1, bitIndex));
      published := published + {sequence};
      assert available[..] == PublishChunk(before, Size(), sequence, 1);
      ShowsWithChunk(before, Size(), next, sequence, 1, old(published));
      assert published == old(published) + Range(sequence, 1);
    }

    /** What other threads may do to the bitmap while a consumer whose next unread sequence is `next` is
        scanning, or while a producer is publishing its claim `[lower; upper[`: publish more, in whatever
        order, but not what is claimed by somebody else. Meanwhile the consumer by which the bitmap is
        judged may read on to `next'`, but not past an unpublished sequence; a scanning consumer, for
        which `lower` is `next`, stays where it is. */
    method Interfere(ghost company: Company, ghost next: int, ghost lower: int, ghost upper: int)
      returns (ghost next': int)
      requires Valid() && (company.Sharing? ==> Encodes(next) && next <= lower)
      modifies available, `published
      ensures Valid() && (company.Sharing? ==> Encodes(next') && next <= next' <= lower)
      ensures company.Alone? ==> published == old(published) && available[..] == old(available[..])
      ensures old(published) <= published
      ensures forall q :: lower <= q < upper && q !in old(published) ==> q !in published
    {
      next' := next;
    }

    /** Flip the bits of the sequences that share the word of `sequence`, with a single xor. */
    method FlipBits(sequence: nat, remaining: nat) returns (take: nat)
      requires Valid() && remaining > 0
      modifies available
      ensures Valid()
      ensures take == Take(Size(), sequence, remaining)
      ensures available[..] == PublishChunk(old(available[..]), Size(), sequence, take)
    {
      var (availabilityIndex, bitIndex) := AvailabilityIndices(sequence);
      take := if remaining < 64 - bitIndex then remaining else 64 - bitIndex;
      var mask := if take == 64 then Not(0) else Shl(LowOnes(take), bitIndex);
      MaskBit(bitIndex, take, 0);
      FetchXor(availabilityIndex, mask);
    }

    /** May the producer publish `[lower; upper[`, judged by the consumer whose next sequence is `next`:
        is it beyond what that consumer has read, within its ring, and not published yet? */
    ghost predicate MayPublish(next: int, lower: int, upper: int)
      reads this, available
      requires available.Length > 0
    {
      && Encodes(next) && next <= lower && upper <= next + Size()
      && forall q :: lower <= q < upper ==> q !in published
    }

    /** One round of publishing a range, after whatever others have done: the next sequences of the
        claim, as many as share a word, are published. */
    method PublishWord(sequence: nat, remaining: nat, ghost company: Company, ghost next: int)
      returns (take: nat, ghost next': int)
      requires Valid() && remaining > 0
      requires company.Sharing? ==> MayPublish(next, sequence, sequence + remaining)
      modifies available, `published
      ensures Valid()
      ensures take == Take(Size(), sequence, remaining)
      ensures company.Alone? ==> published == old(published)
      ensures company.Alone? ==> available[..] == PublishChunk(old(available[..]), Size(), sequence, take)
      ensures company.Sharing? ==> MayPublish(next', sequence + take, sequence + remaining) && next <= next'
      ensures company.Sharing? ==> old(published) + Range(sequence, take) <= published
    {
      next' := Interfere(company, next, sequence, sequence + remaining);
      ghost var words := available[..];
      take := FlipBits(sequence, remaining);
      if company.Sharing? {
        ShowsWithChunk(words, Size(), next', sequence, take, published);
        published := published + Range(sequence, take);
      }
    }

    /** Publishing a range leaves the bitmap that publishing its sequences one by one would leave, for
        every start, length and size, including lengths of zero and below. And when its sequences are
        claimed, and others publish theirs between the xors, earlier and later ones in any order, then
        all of the range is published in the end, nothing is taken back, and the bitmap is still exact. */
    method PublishRangeRelaxed(from: nat, n: int, ghost company: Company, ghost next: int) returns (ghost next': int)
      requires Valid()
      requires company.Sharing? ==> MayPublish(next, from, from + n)
      modifies available, `published
      ensures Valid()
      ensures company.Alone? ==> published == old(published)
      ensures company.Alone? ==>
                available[..] == SinglePublishes(old(available[..]), Size(), from, if n <= 0 then 0 else n)
      ensures company.Sharing? ==> Encodes(next') && next <= next'
      ensures company.Sharing? ==> old(published) <= published && forall q :: from <= q < from + n ==> q in published
    {
      next' := next;
      if n <= 0 {
        return;
      }
      ghost var before := available[..];
      ghost var rounds := 0;
      var sequence, remaining: nat := from, n;
      while remaining != 0
        invariant Valid() && sequence + remaining == from + n && from <= sequence
        invariant company.Alone? ==> published == old(published)
        invariant company.Alone? ==>
                    RangeAfter(before, Size(), from, n, rounds) == RangeProgress(available[..], sequence, remaining)
        invariant company.Sharing? ==> MayPublish(next', sequence, from + n) && next <= next'
        invariant company.Sharing? ==> old(published) <= published && forall q :: from <= q < sequence ==> q in published
        decreases remaining
      {
        RangeStep(before, Size(), from, n, rounds);
        var take;
        take, next' := PublishWord(sequence, remaining, company, next');
        sequence := sequence + take;
        remaining := remaining - take;
        rounds := rounds + 1;
      }
      if company.Alone? {
        RangePublishesPrefixes(before, Size(), from, n, rounds);
      }
    }

    /** Load one word, at some later time than the one before, and scan it. */
    method LoadAndScan(ghost prev: nat, ghost sequence: nat, ghost lap: nat,
                       availabilityIndex: nat, bitIndex: nat, availabilityFlag: nat)
      returns (matches: Option<nat>)
      requires Valid() && Encodes(prev) && prev <= sequence <= prev + Size()
      requires PointsAt(sequence, Size(), lap, availabilityIndex, bitIndex, availabilityFlag)
      requires forall q :: prev <= q < sequence ==> q in published
      modifies available, `published
      ensures Valid() && Encodes(prev) && old(published) <= published
      ensures Scanned(prev, Size(), published, sequence, bitIndex, matches)
    {
      ghost var _ := Interfere(Sharing, prev, prev, prev);
      var word := available[availabilityIndex];
      matches := ScanWord(word, bitIndex, availabilityFlag == 1);
      assert word == available[..][availabilityIndex];
      ScanWhereItPoints(available[..], Size(), prev, published, sequence, lap, availabilityIndex, bitIndex, availabilityFlag);
    }

    /** The highest contiguously published sequence from `prev` on, although each word is loaded at
        a different time and others publish in between: at least the frontier when the scan began,
        at most the frontier when it ends, and never a whole ring ahead. */
    method GetAfter(prev: nat) returns (r: int)
      requires Valid() && Encodes(prev)
      modifies available, `published
      ensures Valid() && Encodes(prev) && old(published) <= published
      ensures prev - 1 <= r < prev + Size()
      ensures forall q :: prev <= q <= r ==> q in published
      ensures r + 1 !in old(published)
    {
      var availabilityFlag := AvailabilityFlag(prev);
      var (availabilityIndex, bitIndex) := AvailabilityIndices(prev);
      ghost var lap := LapOf(prev, Size());
      var sequence: nat := prev;
      while true
        invariant Valid() && Encodes(prev) && old(published) <= published
        invariant prev <= sequence <= prev + Size()
        invariant forall q :: prev <= q < sequence ==> q in published
        invariant PointsAt(sequence, Size(), lap, availabilityIndex, bitIndex, availabilityFlag)
        decreases prev + Size() - sequence
      {
        var matches := LoadAndScan(prev, sequence, lap, availabilityIndex, bitIndex, availabilityFlag);
        var bitsRemaining := 64 - bitIndex;
        match matches
        case Some(m) =>
          return sequence + m - 1;
        case None =>
          sequence := sequence + bitsRemaining;
          availabilityIndex := availabilityIndex + 1;
          bitIndex := 0;
          if availabilityIndex == available.Length {
            availabilityIndex := 0;
            availabilityFlag := 1 - availabilityFlag;
            lap := lap + Size();
          }
      }
    }
  }

  /** Does a round of the ring, an odd one or an even one, start at `lap`? */
  predicate IsLap(lap: nat, size: nat, odd: bool)
    decreases lap
  {
    size > 0 && if lap < size then lap == 0 && !odd else IsLap(lap - size, size, !odd)
  }

  /** The word, the bit and the flag with which a scan in the round from `lap` on looks at `sequence`. */
  predicate PointsAt(sequence: nat, size: nat, lap: nat, index: nat, bit: nat, flag: nat) {
    && sequence == lap + 64 * index + bit && 64 * index + bit < size
    && bit < 64 && flag <= 1 && IsLap(lap, size, flag == 1)
  }

  /** What the scan of one word from `sequence` on tells: the whole rest of the word is published, or
      all of it up to the first sequence that is not. */
  ghost predicate Scanned(next: nat, size: nat, published: set<int>, sequence: nat, bit: nat, matches: Option<nat>) {
    match matches
    case None =>
      && sequence + (64 - bit) <= next + size
      && forall q :: next <= q < sequence + (64 - bit) ==> q in published
    case Some(m) =>
      && sequence + m <= next + size && sequence + m !in published
      && forall q :: next <= q < sequence + m ==> q in published
  }

  lemma ScanWhereItPoints(words: seq<nat>, size: nat, next: nat, published: set<int>, sequence: nat, lap: nat,
                          index: nat, bit: nat, flag: nat)
    requires 0 < size == 64 * |words| && AreWords(words) && Shows(words, size, next, published)
    requires next <= sequence <= next + size && PointsAt(sequence, size, lap, index, bit, flag)
    requires forall q :: next <= q < sequence ==> q in published
    ensures index < |words|
    ensures Scanned(next, size, published, sequence, bit, ScanWord(words[index], bit, flag == 1))
  {
    LapMeans(lap, size, flag == 1, 64 * index + bit);
    assert sequence % size / 64 == index && sequence % size % 64 == bit && OddRound(sequence, size) == (flag == 1);
    ScanStaysInRing(words, size, next, published, sequence);
  }

  lemma {:induction false} LapOf(sequence: nat, size: nat) returns (lap: nat)
    requires size > 0
    ensures IsLap(lap, size, OddRound(sequence, size)) && sequence == lap + sequence % size
  {
    if sequence < size {
      DivideUnique(sequence, size, 0, sequence);
      lap := 0;
    } else {
      PreviousRound(sequence, size);
      var before := LapOf(sequence - size, size);
      lap := before + size;
    }
  }

  lemma {:induction false} LapMeans(lap: nat, size: nat, odd: bool, offset: nat)
    requires IsLap(lap, size, odd) && offset < size
    ensures (lap + offset) % size == offset && (OddRound(lap + offset, size) <==> odd)
    decreases lap
  {
    if lap < size {
      DivideUnique(offset, size, 0, offset);
    } else {
      LapMeans(lap - size, size, !odd, offset);
      PreviousRound(lap + offset, size);
    }
  }

  lemma PreviousRound(q: int, size: nat)
    requires size > 0
    ensures (q - size) % size == q % size && (q - size) / size == q / size - 1
  {
    assert q - size == (q / size - 1) * size + q % size;
    DivideUnique(q - size, size, q / size - 1, q % size);
  }
}
