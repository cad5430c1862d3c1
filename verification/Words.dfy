/** The 64-bit words behind the counters. */
module Words {
  const WORD := 0x1_0000_0000_0000_0000
  const HALF := 0x8000_0000_0000_0000

  /** x modulo 2^64 (WordIsRemainder), defined by recursion to keep what builds on
      it linear. */
  function Word(x: int): (w: int)
    ensures 0 <= w < WORD
    decreases if x < 0 then WORD - x else x
  {
    if x < 0 then Word(x + WORD) else if x < WORD then x else Word(x - WORD)
  }

  lemma {:induction false} WordIsRemainder(x: int)
    ensures Word(x) == x % WORD
    decreases if x < 0 then WORD - x else x
  {
    if x < 0 {
      WordIsRemainder(x + WORD);
    } else if x >= WORD {
      WordIsRemainder(x - WORD);
    }
  }

  /** circular_less_than for 64-bit unsigned arguments. */
  predicate CircularLessThan(a: int, b: int)
  {
    Word(a - b) > HALF
  }

  /** On words whose true values are less than the whole range apart, the
      circular comparison agrees with that of the true values exactly when these
      are within half the range. */
  lemma CircularAgrees(a: int, b: int)
    requires -WORD < b - a < WORD
    ensures (CircularLessThan(Word(a), Word(b)) <==> a < b) <==> -HALF <= b - a < HALF
  {
    WordDifference(a, b);
    if a < b {
      assert Word(a - b) == a - b + WORD;
    } else {
      assert Word(a - b) == a - b;
    }
  }

  lemma {:induction false} WordShift(x: int, k: nat)
    ensures Word(x + Turns(k)) == Word(x) && Word(x - Turns(k)) == Word(x)
  {
    if k > 0 {
      WordShift(x, k - 1);
      OneShift(x + Turns(k - 1));
      OneShift(x - Turns(k));
    }
  }

  function Turns(k: nat): nat { if k == 0 then 0 else Turns(k - 1) + WORD }

  lemma {:induction false} TurnsAdd(j: nat, k: nat)
    ensures Turns(j + k) == Turns(j) + Turns(k)
  {
    if k > 0 { TurnsAdd(j, k - 1); }
  }

  lemma {:induction false} OneShift(x: int)
    ensures Word(x + WORD) == Word(x)
    decreases if x < 0 then -x else x
  {}

  /** Every integer is its word and a multiple of the range. */
  lemma {:induction false} WordParts(x: int) returns (k: nat)
    ensures x == Word(x) + Turns(k) || x == Word(x) - Turns(k)
    decreases if x < 0 then WORD - x else x
  {
    if x < 0 {
      k := WordParts(x + WORD);
      k := k + 1;
    } else if x < WORD {
      k := 0;
    } else {
      k := WordParts(x - WORD);
      k := k + 1;
    }
  }

  lemma WordDifference(a: int, b: int)
    ensures Word(Word(a) - Word(b)) == Word(a - b)
  {
    var j := WordParts(a);
    var k := WordParts(b);
    WordShift(a - b, j);
    if a == Word(a) + Turns(j) {
      WordShift(a - b - Turns(j), k);
    } else {
      WordShift(a - b + Turns(j), k);
    }
  }

  /** Counters that differ by less than the range are told apart by their words,
      and their difference by that of their words. */
  lemma WordDistance(a: int, b: int)
    requires 0 <= a - b < WORD
    ensures Word(Word(a) - Word(b)) == a - b && (Word(a) == Word(b) <==> a == b)
  {
    WordDifference(a, b);
  }

  lemma WordNext(a: int)
    ensures Word(Word(a) + 1) == Word(a + 1)
  {
    var k := WordParts(a);
    WordShift(Word(a) + 1, k);
  }

  lemma WordSum(a: int, b: int)
    ensures Word(a + Word(b)) == Word(a + b)
  {
    var k := WordParts(b);
    WordShift(a + Word(b), k);
  }

  // ----- words read as signed numbers -----

  /** The cast of a word to the signed type of its width. */
  function Signed(w: int): int { if w < HALF then w else w - WORD }

  /** The signed difference of two words is the true one exactly when that is in
      the signed range. */
  lemma SignedDifference(a: int, b: int)
    ensures Signed(Word(Word(a) - Word(b))) == a - b <==> -HALF <= a - b < HALF
  {
    WordDifference(a, b);
    if -HALF <= a - b < 0 { assert Word(a - b) == a - b + WORD; }
  }

  /** In any case it is off by whole turns. */
  lemma SignedParts(a: int, b: int) returns (t: int)
    ensures Signed(Word(Word(a) - Word(b))) == a - b + t * WORD
    ensures -HALF <= a - b < HALF ==> t == 0
  {
    SignedDifference(a, b);
    WordDifference(a, b);
    WordIsRemainder(a - b);
    var q := (a - b) / WORD;
    t := if Word(a - b) < HALF then -q else -q - 1;
  }
}
