/** Powers of two and bitwise operations on natural numbers, the power-of-two
    rounding of ring.hpp and concurrentqueue.h, and masked indexing. */
module Bits {
  import opened BlockMath
  import opened Words

  function Pow2(n: nat): (r: nat)
    ensures r > 0
  {
    if n == 0 then 1 else Pow2(n - 1) + Pow2(n - 1)
  }

  function Bit(x: nat): nat { x % 2 }

  function Twice(x: nat): nat { x + x }

  function Shr(x: nat, k: nat): nat
  {
    if k == 0 then x else Shr(x / 2, k - 1)
  }

  function Or(x: nat, y: nat): nat
  {
    if x == 0 then y else if y == 0 then x
    else Twice(Or(x / 2, y / 2)) + (if Bit(x) == 1 || Bit(y) == 1 then 1 else 0)
  }

  function And(x: nat, y: nat): nat
  {
    if x == 0 || y == 0 then 0
    else Twice(And(x / 2, y / 2)) + (if Bit(x) == 1 && Bit(y) == 1 then 1 else 0)
  }

  // ----- laws -----

  lemma {:induction false} PowMono(m: nat, n: nat)
    requires m <= n
    ensures Pow2(m) <= Pow2(n)
    decreases n
  {
    if m < n { PowMono(m, n - 1); }
  }

  lemma {:induction false} OrRange(x: nat, y: nat, n: nat)
    requires x < Pow2(n) && y < Pow2(n)
    ensures x <= Or(x, y) < Pow2(n) && y <= Or(x, y)
  {
    if x > 0 && y > 0 { OrRange(x / 2, y / 2, n - 1); }
  }

  lemma {:induction false} ShrRange(x: nat, k: nat)
    ensures Shr(x, k) <= x && Shr(x, k) / 2 == Shr(x / 2, k)
  {
    if k > 0 { ShrRange(x / 2, k - 1); }
  }

  lemma OrHalf(x: nat, y: nat)
    ensures Or(x, y) / 2 == Or(x / 2, y / 2)
  {
    assert x == 0 ==> x / 2 == 0;
    assert y == 0 ==> y / 2 == 0;
  }

  /** Bits m .. n of x are ones and there are none above. */
  predicate TopOnes(x: nat, n: nat, m: nat)
  {
    x < Pow2(n) <= x + Pow2(m)
  }

  function Less(m: nat, k: nat): nat { if m < k then 0 else m - k }

  lemma {:induction false} BitOfOnes(x: nat, n: nat, m: nat, k: nat)
    requires TopOnes(x, n, m) && m <= k < n
    ensures Bit(Shr(x, k)) == 1
  {
    if k > 0 { BitOfOnes(x / 2, n - 1, Less(m, 1), k - 1); }
  }

  /** x |= x >> k with the top k bits (or all of them) set doubles their number. */
  lemma {:induction false} SmearStep(x: nat, n: nat, m: nat, k: nat)
    requires TopOnes(x, n, m) && m <= n && (m == 0 || k == n - m)
    ensures TopOnes(Or(x, Shr(x, k)), n, Less(m, k))
    decreases n
  {
    var y := Or(x, Shr(x, k));
    ShrRange(x, k);
    OrRange(x, Shr(x, k), n);
    if m > 0 && n > 0 {
      SmearStep(x / 2, n - 1, m - 1, k);
      OrHalf(x, Shr(x, k));
      if m <= k {
        BitOfOnes(x, n, m, k);
        OddOr(x, Shr(x, k));
      }
    }
  }

  lemma Doubled(x: nat, n: nat, s: nat)
    requires TopOnes(x, n, Less(n, s))
    ensures TopOnes(Or(x, Shr(x, s)), n, Less(n, s + s))
  {
    SmearStep(x, n, Less(n, s), s);
  }

  lemma OddOr(x: nat, y: nat)
    requires Bit(y) == 1
    ensures Bit(Or(x, y)) == 1
  {}

  function BitLength(x: nat): nat
  {
    if x == 0 then 0 else 1 + BitLength(x / 2)
  }

  lemma {:induction false} BitLengthBounds(x: nat)
    requires x > 0
    ensures BitLength(x) > 0 && Pow2(BitLength(x) - 1) <= x < Pow2(BitLength(x))
  {
    if x > 1 { BitLengthBounds(x / 2); }
  }

  lemma {:induction false} BitLengthLeast(x: nat, m: nat)
    requires x < Pow2(m)
    ensures BitLength(x) <= m
  {
    if x > 0 { BitLengthLeast(x / 2, m - 1); }
  }

  lemma WordIsPow()
    ensures Pow2(64) == WORD && Pow2(63) + Pow2(63) == WORD
  {
    assert Pow2(4) == 16;
    PowAdd(4, 4);
    PowAdd(8, 8);
    PowAdd(16, 16);
    PowAdd(32, 32);
  }

  lemma PowAdd(m: nat, n: nat)
    ensures Pow2(m + n) == Pow2(n) * Pow2(m)
  {
    PowStart(m, n);
    StartIsProduct(Pow2(m), Pow2(n));
  }

  // ----- rounding up to a power of two -----

  /** i << 3 */
  function Eightfold(i: nat): nat { i + i + i + i + i + i + i + i }

  ghost predicate LeastPowerOf2(r: nat, value: nat)
  {
    (exists n :: r == Pow2(n)) && value <= r && forall m :: value <= Pow2(m) ==> r <= Pow2(m)
  }

  /** x + 1, for x all ones up to its bit length, is the least power above value - 1. */
  lemma NextPower(value: nat, n: nat)
    requires value > 0 && n == BitLength(value - 1)
    ensures LeastPowerOf2(Pow2(n), value)
  {
    if value > 1 { BitLengthBounds(value - 1); }
    forall m | value <= Pow2(m) ensures Pow2(n) <= Pow2(m) {
      BitLengthLeast(value - 1, m);
      PowMono(n, m);
    }
  }

  lemma FirstOnes(x: nat)
    ensures TopOnes(x, BitLength(x), Less(BitLength(x), 1))
  {
    if x > 0 { BitLengthBounds(x); }
  }

  lemma BitLengthInWord(x: nat)
    requires x < WORD
    ensures BitLength(x) <= 64 && (BitLength(x) == 64 <==> x >= Pow2(63))
  {
    WordIsPow();
    BitLengthLeast(x, 64);
    if x > 0 { BitLengthBounds(x); }
    if x < Pow2(63) { BitLengthLeast(x, 63); }
    if BitLength(x) < 64 { PowMono(BitLength(x), 63); }
  }

  /** round_up_pow2 of ring.hpp, in size_t arithmetic. */
  method RoundUpPow2(value: nat) returns (r: nat)
    requires value < WORD
    ensures value <= 1 ==> r == 2
    ensures 1 < value <= Pow2(63) ==> LeastPowerOf2(r, value)
    ensures value > Pow2(63) ==> r == 0
  {
    if value <= 1 { return 2; }
    var x: nat := value - 1;
    ghost var n := BitLength(x);
    FirstOnes(x);
    BitLengthInWord(x);
    Doubled(x, n, 1);
    x := Or(x, Shr(x, 1));
    Doubled(x, n, 2);
    x := Or(x, Shr(x, 2));
    Doubled(x, n, 4);
    x := Or(x, Shr(x, 4));
    Doubled(x, n, 8);
    x := Or(x, Shr(x, 8));
    Doubled(x, n, 16);
    x := Or(x, Shr(x, 16));
    Doubled(x, n, 32);
    x := Or(x, Shr(x, 32));
    WordIsPow();
    NextPower(value, n);
    r := if x + 1 == WORD then 0 else x + 1;
  }

  /** ceil_to_pow_2 of concurrentqueue.h for std::size_t: 0 wraps around to 0. */
  method CeilToPow2(value: nat) returns (r: nat)
    requires value < WORD
    ensures 0 < value <= Pow2(63) ==> LeastPowerOf2(r, value)
    ensures value == 0 || value > Pow2(63) ==> r == 0
  {
    var x: nat := if value == 0 then WORD - 1 else value - 1;
    ghost var n := BitLength(x);
    FirstOnes(x);
    BitLengthInWord(x);
    WordIsPow();
    Doubled(x, n, 1);
    x := Or(x, Shr(x, 1));
    Doubled(x, n, 2);
    x := Or(x, Shr(x, 2));
    Doubled(x, n, 4);
    x := Or(x, Shr(x, 4));
    var i: nat := 1;
    while i < 8
      invariant i == 1 || i == 2 || i == 4 || i == 8
      invariant TopOnes(x, n, Less(n, Eightfold(i)))
      decreases 8 - i
    {
      Doubled(x, n, Eightfold(i));
      assert Eightfold(i) + Eightfold(i) == Eightfold(i + i);
      x := Or(x, Shr(x, Eightfold(i)));
      i := i + i;
    }
    assert TopOnes(x, n, 0);
    if value > 0 { NextPower(value, n); }
    r := if x + 1 == WORD then 0 else x + 1;
  }

  // ----- masked indexing -----

  /** Masking with a power of two less one is the offset, that is, the remainder by
      that power. */
  lemma MaskIsRemainder(x: nat, n: nat)
    ensures And(x, Pow2(n) - 1) == Off(Pow2(n), x) == x % Pow2(n)
  {
    MaskIsOff(x, n);
    NumIsQuotient(Pow2(n), x);
  }

  lemma {:induction false} MaskIsOff(x: nat, n: nat)
    ensures And(x, Pow2(n) - 1) == Off(Pow2(n), x)
    decreases n
  {
    if n > 0 {
      MaskIsOff(x / 2, n - 1);
      AndOnes(x, Pow2(n - 1));
      HalfOff(x, Pow2(n - 1));
    }
  }

  lemma AndOnes(x: nat, p: nat)
    requires p > 0
    ensures And(x, p + p - 1) == Twice(And(x / 2, p - 1)) + x % 2
  {
    var y := p + p - 1;
    assert y / 2 == p - 1 && Bit(y) == 1;
  }

  lemma {:induction false} HalfOff(x: nat, p: nat)
    requires p > 0
    ensures Off(p + p, x) == Twice(Off(p, x / 2)) + x % 2
  {
    if x >= p + p {
      HalfOff(x - p - p, p);
      assert (x - p - p) / 2 == x / 2 - p && x / 2 >= p;
    }
  }

  /** Pow2(k) times Pow2(b). */
  lemma {:induction false} PowStart(b: nat, k: nat)
    ensures Start(Pow2(b), Pow2(k)) == Pow2(b + k)
  {
    if k > 0 {
      PowStart(b, k - 1);
      StartAdd(Pow2(b), Pow2(k - 1), Pow2(k - 1));
    }
  }

  /** A masked word is the slot of the counter it stands for. */
  lemma MaskedSlot(n: nat, bits: nat)
    requires bits < 64
    ensures And(Word(n), Pow2(bits) - 1) == Off(Pow2(bits), n) < Pow2(bits)
  {
    MaskIsRemainder(Word(n), bits);
    PowStart(bits, 64 - bits);
    WordIsPow();
    WordOff(n, Pow2(bits), Pow2(64 - bits));
  }

  lemma {:induction false} WordOff(n: nat, c: nat, d: nat)
    requires c > 0 && Start(c, d) == WORD
    ensures Off(c, Word(n)) == Off(c, n)
  {
    if n >= WORD {
      WordOff(n - WORD, c, d);
      OffTurns(c, n - WORD, d);
    }
  }

  lemma {:induction false} AndSame(x: nat, n: nat)
    requires x < Pow2(n)
    ensures And(x, Pow2(n) - 1) == x
  {
    MaskIsOff(x, n);
  }

  /** Masking with the complement of 2^b - 1 rounds down to a multiple of 2^b. */
  lemma {:induction false} ComplementRoundsDown(x: nat, b: nat, n: nat)
    requires b <= n && x < Pow2(n)
    ensures Pow2(b) <= Pow2(n) && And(x, Pow2(n) - Pow2(b)) == x - Off(Pow2(b), x)
    decreases b
  {
    PowMono(b, n);
    if b == 0 {
      AndSame(x, n);
      OffOne(x);
    } else {
      ComplementRoundsDown(x / 2, b - 1, n - 1);
      HalfOff(x, Pow2(b - 1));
      var y := Pow2(n) - Pow2(b);
      assert y / 2 == Pow2(n - 1) - Pow2(b - 1) && Bit(y) == 0;
      if x > 0 && y == 0 {
        assert And(x / 2, 0) == 0;
        assert x / 2 == Off(Pow2(b - 1), x / 2);
      }
    }
  }

  lemma {:induction false} OffOne(x: nat)
    ensures Off(1, x) == 0
  {
    if x > 0 { OffOne(x - 1); }
  }
}
