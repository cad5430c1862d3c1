/** The block lookup of dequeue as concurrentqueue.h computes it: on 64-bit words
    that wrap around, with masks, and with the signed difference of two bases. For
    power-of-two sizes it finds the slot that BlockRing computes on true indices. */
module BlockRingWords {
  import opened BlockMath
  import opened Words
  import opened Bits
  import opened BlockRing
  import opened BlockRingConsumer

  /** blockBaseIndex of a wrapped index, for blocks of 2^b elements; the mask is the
      complement of 2^b - 1. */
  function BaseOf(b: nat, index: nat): nat
    requires b < 63
  {
    And(index, Word(0 - Pow2(b)))
  }

  /** The slot looked up in an index of 2^k entries whose front slot f has the
      wrapped base headBase, for a wrapped index. */
  function WordSlot(b: nat, k: nat, f: nat, headBase: nat, index: nat): nat
    requires b < 63
  {
    And(Word(f + Word(SignedQuotient(b, BaseOf(b, index), headBase))), Pow2(k) - 1)
  }

  /** Division of signed numbers, which truncates toward zero; Num is the quotient
      (NumIsQuotient). */
  function Truncated(a: int, n: nat): int
    requires n > 0
  {
    if a >= 0 then Num(n, a) else 0 - Num(n, -a)
  }

  /** The signed difference of two bases, divided by BLOCK_SIZE. */
  function SignedQuotient(b: nat, base: nat, headBase: nat): int
  {
    Truncated(Signed(Word(base - headBase)), Pow2(b))
  }

  /** Rounding a wrapped index down rounds the true index down. */
  lemma BaseIsStart(b: nat, cur: nat)
    requires b < 63
    ensures BaseOf(b, Word(cur)) == Word(Start(Pow2(b), Num(Pow2(b), cur)))
  {
    var size := Pow2(b);
    WordIsPow();
    PowMono(b, 64);
    PowMono(b, 63);
    assert Word(0 - Pow2(b)) == WORD - Pow2(b);
    ComplementRoundsDown(Word(cur), b, 64);
    MaskedSlot(cur, b);
    MaskIsOff(Word(cur), b);
    NumOff(size, cur);
    NumOff(size, Word(cur));
    WordMinus(cur, Off(size, cur));
  }

  lemma WordMinus(a: nat, d: nat)
    requires d <= Word(a)
    ensures Word(a - d) == Word(a) - d
  {
    var j := WordParts(a);
    WordShift(Word(a) - d, j);
  }

  lemma TruncatedExact(q: int, n: nat)
    requires n > 0
    ensures Truncated(q * n, n) == q
  {
    var m: nat := if q >= 0 then q else -q;
    StartIsProduct(n, m);
    NumOfStart(n, m, 0);
    assert q >= 0 ==> q * n >= 0;
    assert q < 0 ==> q * n == -(m * n) && m * n > 0 by {
      if q < 0 { Times(m, n); }
    }
  }

  /** A masked word is the remainder, of negative numbers too. */
  lemma MaskedWord(x: int, k: nat)
    requires k < 64
    ensures And(Word(x), Pow2(k) - 1) == x % Pow2(k)
  {
    MaskIsRemainder(Word(x), k);
    var j := WordParts(x);
    TurnsRemainder(Word(x), j, k);
  }

  lemma {:induction false} TurnsRemainder(x: int, j: nat, k: nat)
    requires k < 64
    ensures (x + Turns(j)) % Pow2(k) == x % Pow2(k) == (x - Turns(j)) % Pow2(k)
  {
    if j > 0 {
      TurnsRemainder(x, j - 1, k);
      WordIsPow();
      PowAdd(k, 64 - k);
      Multiples(x + Turns(j - 1), Pow2(64 - k), Pow2(k));
      Multiples(x - Turns(j), Pow2(64 - k), Pow2(k));
    }
  }

  lemma Multiples(x: int, m: int, c: nat)
    requires c > 0
    ensures (x + m * c) % c == x % c
  {
    Spread(x / c, -m, c);
    Quotient(x + m * c, c, x / c + m, x % c);
  }

  /** The signed quotient of the two bases is the distance in blocks, up to whole
      turns of the indices; none if the distance is in the signed range. */
  lemma SignedBlocks(b: nat, p: nat, q: nat) returns (t: int)
    requires b < 63
    ensures var size := Pow2(b);
            SignedQuotient(b, Word(Start(size, q)), Word(Start(size, p))) == q - p + t * Pow2(64 - b)
    ensures -HALF <= Start(Pow2(b), q) - Start(Pow2(b), p) < HALF ==> t == 0
  {
    var size := Pow2(b);
    t := SignedParts(Start(size, q), Start(size, p));
    StartIsProduct(size, p);
    StartIsProduct(size, q);
    WordIsPow();
    PowAdd(b, 64 - b);
    Distribute(q, p, t, Pow2(64 - b), size);
    TruncatedExact(q - p + t * Pow2(64 - b), size);
  }

  lemma Distribute(q: int, p: int, t: int, turn: int, size: int)
    ensures q * size - p * size + t * (turn * size) == (q - p + t * turn) * size
  {}

  /** Whole turns do not change the masked slot. */
  lemma TurnsVanish(x: int, t: int, b: nat, k: nat)
    requires b < 63 && (t == 0 || b + k <= 64)
    ensures (x + t * Pow2(64 - b)) % Pow2(k) == x % Pow2(k)
  {
    if t != 0 {
      PowAdd(k, 64 - b - k);
      Regroup(t, Pow2(64 - b - k), Pow2(k));
      Multiples(x, t * Pow2(64 - b - k), Pow2(k));
    }
  }

  lemma Regroup(t: int, m: int, c: int)
    ensures t * (m * c) == (t * m) * c
  {}

  lemma MaskedOffset(f: nat, offset: int, k: nat)
    requires k < 64
    ensures And(Word(f + Word(offset)), Pow2(k) - 1) == (f + offset) % Pow2(k)
  {
    WordSum(f, offset);
    MaskedWord(f + offset, k);
  }

  lemma SlotByDistance(size: nat, n: nat, f: nat, newest: nat, cur: nat)
    requires size > 0 && n > 0
    ensures SlotFor(size, n, f, Start(size, newest), cur) == (f + (Num(size, cur) - newest)) % n
  {
    BlockDistance(size, newest, Num(size, cur));
  }

  /** Near enough for the signed difference, or in an index small enough for whole
      turns not to matter. */
  predicate Reachable(b: nat, k: nat, newest: nat, cur: nat)
    requires b < 63
  {
    b + k <= 64 || -HALF <= Start(Pow2(b), Num(Pow2(b), cur)) - Start(Pow2(b), newest) < HALF
  }

  lemma OffsetFrom(b: nat, k: nat, f: nat, newest: nat, cur: nat) returns (offset: int)
    requires b < 63 && k < 64 && Reachable(b, k, newest, cur)
    ensures SignedQuotient(b, BaseOf(b, Word(cur)), Word(Start(Pow2(b), newest))) == offset
    ensures (f + offset) % Pow2(k) == (f + (Num(Pow2(b), cur) - newest)) % Pow2(k)
  {
    BaseIsStart(b, cur);
    var t := SignedBlocks(b, newest, Num(Pow2(b), cur));
    offset := Num(Pow2(b), cur) - newest + t * Pow2(64 - b);
    TurnsVanish(f + (Num(Pow2(b), cur) - newest), t, b, k);
  }

  lemma WordSlotByDistance(b: nat, k: nat, f: nat, newest: nat, cur: nat)
    requires b < 63 && k < 64 && Reachable(b, k, newest, cur)
    ensures WordSlot(b, k, f, Word(Start(Pow2(b), newest)), Word(cur))
            == (f + (Num(Pow2(b), cur) - newest)) % Pow2(k)
  {
    var offset := OffsetFrom(b, k, f, newest, cur);
    MaskedOffset(f, offset, k);
  }

  /** The lookup on words finds the slot of the lookup on true indices if the index
      has no more entries than there are blocks in a turn, however far the two
      bases are apart, and otherwise if they are within the signed range. */
  lemma WordSlotIsSlot(b: nat, k: nat, f: nat, newest: nat, cur: nat)
    requires b < 63 && k < 64 && Reachable(b, k, newest, cur)
    ensures WordSlot(b, k, f, Word(Start(Pow2(b), newest)), Word(cur))
            == SlotFor(Pow2(b), Pow2(k), f, Start(Pow2(b), newest), cur)
  {
    WordSlotByDistance(b, k, f, newest, cur);
    SlotByDistance(Pow2(b), Pow2(k), f, newest, cur);
  }

  /** So a dequeue that computes on words finds the block of its index, and its place
      in it, in every index in which the lookup on true indices does. */
  lemma WordLookupFinds(h: Header, b: nat, k: nat, blocksOf: seq<nat>, newest: nat, cur: nat)
    requires b < 63 && k < 64 && h.size == Pow2(k) && Reachable(b, k, newest, cur)
    requires HeaderOk(h, Pow2(b), blocksOf) && h.lo <= newest < h.hi && h.lo <= Num(Pow2(b), cur) < h.hi
    ensures var slot := WordSlot(b, k, Slot(h.size, h.origin, newest), Word(Start(Pow2(b), newest)), Word(cur));
            slot < |h.entries| && h.entries[slot].block == blocksOf[Num(Pow2(b), cur)]
            && Word(h.entries[slot].base) == BaseOf(b, Word(cur))
            && And(Word(cur), Pow2(b) - 1) == Off(Pow2(b), cur)
  {
    var q := Num(Pow2(b), cur);
    WordSlotIsSlot(b, k, Slot(h.size, h.origin, newest), newest, cur);
    SlotFound(h, Pow2(b), blocksOf, newest, cur);
    BaseIsStart(b, cur);
    MaskedSlot(cur, b);
    assert EntryOk(h, Pow2(b), blocksOf, q);
  }
}
