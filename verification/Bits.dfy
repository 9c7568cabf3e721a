/** Unsigned machine words as natural numbers, and the handful of bit operations the ring uses.

    A word of `WIDTH` bits is a `nat` below `Pow2(WIDTH)`. Every operation is defined on the
    number itself (a shift is a multiplication or a division, an xor works digit by digit), and a
    lemma beside it says which bits the result has. */
module Bits {

  const WIDTH: nat := 64

  function Pow2(n: nat): (r: nat)
    ensures r > 0
  {
    if n == 0 then 1 else 2 * Pow2(n - 1)
  }

  predicate PowerOfTwo(n: nat) {
    n > 0 && (n == 1 || (n % 2 == 0 && PowerOfTwo(n / 2)))
  }

  /** Is bit `i` of `w` set? */
  predicate Bit(w: nat, i: nat) {
    if i == 0 then w % 2 == 1 else Bit(w / 2, i - 1)
  }

  function Xor(a: nat, b: nat): nat
    decreases a + b
  {
    if a == 0 && b == 0 then 0 else (if a % 2 == b % 2 then 0 else 1) + 2 * Xor(a / 2, b / 2)
  }

  function And(a: nat, b: nat): nat {
    if a == 0 then 0 else (if a % 2 == 1 && b % 2 == 1 then 1 else 0) + 2 * And(a / 2, b / 2)
  }

  /** Right shift, one place at a time. */
  function Shr(w: nat, k: nat): nat {
    if k == 0 then w else Shr(w / 2, k - 1)
  }

  /** Left shift; bits pushed past the width are lost. */
  function Shl(w: nat, k: nat): nat {
    (w * Pow2(k)) % Pow2(WIDTH)
  }

  /** `(1 << take) - 1`: the lowest `take` bits. */
  function LowOnes(take: nat): nat {
    Pow2(take) - 1
  }

  function Not(w: nat): nat
    requires w < Pow2(WIDTH)
  {
    Pow2(WIDTH) - 1 - w
  }

  function TrailingZeros(w: nat): nat
    requires w != 0
  {
    if w % 2 == 1 then 0 else 1 + TrailingZeros(w / 2)
  }

  function BitLength(w: nat): nat {
    if w == 0 then 0 else 1 + BitLength(w / 2)
  }

  function LeadingZeros(w: nat): int {
    WIDTH - BitLength(w)
  }

  // --- powers of two -------------------------------------------------------------------------

  lemma {:induction false} Pow2Add(a: nat, b: nat)
    ensures Pow2(a + b) == Pow2(a) * Pow2(b)
  {
    if a != 0 {
      Pow2Add(a - 1, b);
      assert Pow2(a + b) == 2 * Pow2(a - 1 + b);
    }
  }

  lemma {:induction false} Pow2Monotone(a: nat, b: nat)
    requires a <= b
    ensures Pow2(a) <= Pow2(b)
  {
    if a < b {
      Pow2Monotone(a, b - 1);
    }
  }

  lemma {:induction false} PowerOfTwoHasExponent(n: nat) returns (k: nat)
    requires PowerOfTwo(n)
    ensures n == Pow2(k)
  {
    if n == 1 {
      k := 0;
    } else {
      var j := PowerOfTwoHasExponent(n / 2);
      k := j + 1;
    }
  }

  /** A power of two of at least one word is a whole number of words. */
  lemma WholeWords(n: nat)
    requires PowerOfTwo(n) && n >= WIDTH
    ensures n % WIDTH == 0
  {
    var k := PowerOfTwoHasExponent(n);
    assert Pow2(0) == 1 && Pow2(1) == 2 && Pow2(2) == 4 && Pow2(3) == 8;
    assert Pow2(4) == 16 && Pow2(5) == 32 && Pow2(6) == 64;
    if k >= 6 {
      Pow2Add(6, k - 6);
      DivideUnique(n, 64, Pow2(k - 6), 0);
    }
  }

  // --- bits of the operations ----------------------------------------------------------------

  lemma XorDigit(a: nat, b: nat)
    ensures Xor(a, b) % 2 == (if a % 2 == b % 2 then 0 else 1) && Xor(a, b) / 2 == Xor(a / 2, b / 2)
  {
    Digit(if a % 2 == b % 2 then 0 else 1, Xor(a / 2, b / 2));
  }

  lemma Digit(d: nat, rest: nat)
    requires d <= 1
    ensures (d + 2 * rest) % 2 == d && (d + 2 * rest) / 2 == rest
  {
  }

  lemma {:induction false} XorBit(a: nat, b: nat, i: nat)
    ensures Bit(Xor(a, b), i) <==> Bit(a, i) != Bit(b, i)
  {
    XorDigit(a, b);
    if i > 0 {
      XorBit(a / 2, b / 2, i - 1);
    }
  }

  lemma {:induction false} AndBit(a: nat, b: nat, i: nat)
    ensures Bit(And(a, b), i) <==> Bit(a, i) && Bit(b, i)
  {
    if a == 0 {
      ZeroHasNoBits(i);
    } else if i > 0 {
      assert And(a, b) / 2 == And(a / 2, b / 2);
      AndBit(a / 2, b / 2, i - 1);
    }
  }

  lemma {:induction false} ZeroHasNoBits(i: nat)
    ensures !Bit(0, i)
  {
    if i > 0 {
      ZeroHasNoBits(i - 1);
    }
  }

  lemma {:induction false} ShrBit(w: nat, k: nat, i: nat)
    ensures Bit(Shr(w, k), i) <==> Bit(w, i + k)
    decreases k
  {
    if k > 0 {
      ShrBit(w / 2, k - 1, i);
    }
  }

  /** Shifting right by `k` is dividing by `2^k`. */
  lemma {:induction false} ShrIsQuotient(w: nat, k: nat)
    ensures Shr(w, k) == w / Pow2(k)
    decreases k
  {
    if k > 0 {
      ShrIsQuotient(w / 2, k - 1);
      HalfThenDivide(w, Pow2(k - 1));
    }
  }

  lemma HalfThenDivide(w: nat, d: nat)
    requires d > 0
    ensures w / (2 * d) == (w / 2) / d
  {
    var q, r := (w / 2) / d, (w / 2) % d;
    assert w / 2 == q * d + r;
    assert 2 * (q * d) == q * (2 * d);
    DivideUnique(w, 2 * d, q, 2 * r + w % 2);
  }

  lemma DivideUnique(x: int, d: nat, q: int, r: int)
    requires d > 0 && 0 <= r < d && x == q * d + r
    ensures x / d == q && x % d == r
  {
    QuotientsAgree(d, q, r, x / d, x % d);
  }

  lemma QuotientsAgree(d: nat, q: int, r: int, q': int, r': int)
    requires 0 <= r < d && 0 <= r' < d && q * d + r == q' * d + r'
    ensures q == q' && r == r'
  {
    assert (q' - q) * d == r - r';
    if q' > q {
      Scaled(q' - q, d);
    } else if q' < q {
      assert (q - q') * d == r' - r;
      Scaled(q - q', d);
    }
  }

  lemma Scaled(m: int, d: nat)
    requires m >= 1
    ensures m * d >= d
  {
    assert m * d == (m - 1) * d + d;
  }

  lemma {:induction false} LowOnesBit(take: nat, i: nat)
    ensures Bit(LowOnes(take), i) <==> i < take
  {
    if take == 0 {
      ZeroHasNoBits(i);
    } else if i > 0 {
      assert LowOnes(take) / 2 == LowOnes(take - 1);
      LowOnesBit(take - 1, i - 1);
    }
  }

  /** A run of ones, shifted left without leaving the word. */
  lemma ShiftedOnes(start: nat, take: nat)
    requires start + take <= WIDTH
    ensures Shl(LowOnes(take), start) == LowOnes(take) * Pow2(start)
  {
    Pow2Add(take, start);
    Pow2Monotone(start + take, WIDTH);
    Distribute(Pow2(take), Pow2(start));
    DivideUnique(LowOnes(take) * Pow2(start), Pow2(WIDTH), 0, LowOnes(take) * Pow2(start));
  }

  lemma Distribute(a: nat, b: nat)
    requires a > 0
    ensures 0 <= (a - 1) * b == a * b - b
  {
  }

  lemma {:induction false} DoubledBit(w: nat, k: nat, i: nat)
    ensures Bit(w * Pow2(k), i) <==> i >= k && Bit(w, i - k)
  {
    if k > 0 {
      assert w * Pow2(k) == 2 * (w * Pow2(k - 1));
      if i > 0 {
        DoubledBit(w, k - 1, i - 1);
      }
    }
  }

  lemma {:induction false} NotBitAux(w: nat, width: nat, i: nat)
    requires w < Pow2(width) && i < width
    ensures Bit(Pow2(width) - 1 - w, i) <==> !Bit(w, i)
  {
    if i > 0 {
      NotBitAux(w / 2, width - 1, i - 1);
      assert (Pow2(width) - 1 - w) / 2 == Pow2(width - 1) - 1 - w / 2;
    }
  }

  lemma NotBit(w: nat, i: nat)
    requires w < Pow2(WIDTH) && i < WIDTH
    ensures Bit(Not(w), i) <==> !Bit(w, i)
  {
    NotBitAux(w, WIDTH, i);
  }

  // --- ranges and extensionality -------------------------------------------------------------

  lemma {:induction false} XorRange(a: nat, b: nat, width: nat)
    requires a < Pow2(width) && b < Pow2(width)
    ensures Xor(a, b) < Pow2(width)
  {
    if width > 0 {
      XorRange(a / 2, b / 2, width - 1);
    }
  }

  lemma {:induction false} AndRange(a: nat, b: nat)
    ensures And(a, b) <= b
  {
    if a != 0 {
      AndRange(a / 2, b / 2);
    }
  }

  /** Two words with the same bits are the same word. */
  lemma {:induction false} SameBits(a: nat, b: nat, width: nat)
    requires a < Pow2(width) && b < Pow2(width)
    requires forall i: nat | i < width :: Bit(a, i) <==> Bit(b, i)
    ensures a == b
  {
    if width > 0 {
      assert Bit(a, 0) <==> Bit(b, 0);
      forall i: nat | i < width - 1 ensures Bit(a / 2, i) <==> Bit(b / 2, i) {
        assert Bit(a, i + 1) <==> Bit(b, i + 1);
      }
      SameBits(a / 2, b / 2, width - 1);
    }
  }

  lemma {:induction false} TrailingZerosBit(w: nat)
    requires w != 0
    ensures Bit(w, TrailingZeros(w))
    ensures forall j: nat | j < TrailingZeros(w) :: !Bit(w, j)
  {
    if w % 2 == 0 {
      TrailingZerosBit(w / 2);
      forall j: nat | j < TrailingZeros(w) ensures !Bit(w, j) {
        if j > 0 {
          assert !Bit(w / 2, j - 1);
        }
      }
    }
  }

  // --- indexing ------------------------------------------------------------------------------

  lemma HalvedRemainder(s: nat, d: nat)
    requires d > 0
    ensures s % (2 * d) == s % 2 + 2 * ((s / 2) % d)
  {
    var q, r := (s / 2) / d, (s / 2) % d;
    assert s / 2 == q * d + r;
    assert 2 * (q * d) == q * (2 * d);
    DivideUnique(s, 2 * d, q, 2 * r + s % 2);
  }

  /** Masking with `2^k - 1` is the remainder modulo `2^k`. */
  lemma {:induction false} MaskIsRemainder(s: nat, k: nat)
    ensures And(s, LowOnes(k)) == s % Pow2(k)
  {
    if k == 0 {
      AndRange(s, 0);
    } else if s != 0 {
      assert LowOnes(k) / 2 == LowOnes(k - 1) && LowOnes(k) % 2 == 1;
      MaskIsRemainder(s / 2, k - 1);
      HalvedRemainder(s, Pow2(k - 1));
    }
  }

  /** The width less the leading zeros less one is the logarithm of any number, rounded down. */
  lemma {:induction false} LogIsFloor(n: nat)
    requires n > 0
    ensures var log := WIDTH - LeadingZeros(n) - 1;
            log >= 0 && Pow2(log) <= n < Pow2(log + 1)
  {
    if n > 1 {
      LogIsFloor(n / 2);
    } else {
      assert BitLength(1) == 1 && Pow2(1) == 2;
    }
  }

  /** `WIDTH - leading_zeros - 1` is the exponent of a power of two. */
  lemma {:induction false} ExponentOf(k: nat)
    ensures WIDTH - LeadingZeros(Pow2(k)) - 1 == k
  {
    if k == 0 {
      assert BitLength(1) == 1 + BitLength(0);
    } else {
      ExponentOf(k - 1);
      assert Pow2(k) / 2 == Pow2(k - 1);
    }
  }

  /** Numbers at most `size` apart have remainders equally far apart, modulo `size`. */
  lemma RemainderNear(a: int, b: int, size: nat)
    requires size > 0 && b - a < size && a - b <= size
    ensures b % size == a % size + (b - a)
         || b % size == a % size + (b - a) + size
         || b % size == a % size + (b - a) - size
  {
    var q, r := a / size, a % size;
    var s := r + (b - a);
    if s < 0 {
      assert b == (q - 1) * size + (s + size);
      DivideUnique(b, size, q - 1, s + size);
    } else if s < size {
      DivideUnique(b, size, q, s);
    } else {
      assert b == (q + 1) * size + (s - size);
      DivideUnique(b, size, q + 1, s - size);
    }
  }

  /** Different sequences less than a ring apart use different slots. */
  lemma DistinctSlots(size: nat, a: int, b: int)
    requires size > 0 && a != b && a - b < size && b - a < size
    ensures a % size != b % size
  {
    RemainderNear(a, b, size);
  }
}
