/** Arithmetic of block numbers and circular slots. Multiples, quotients and
    remainders are defined by recursion here and tied to *, / and % by lemmas,
    which keeps the proofs about the queue linear. */
module BlockMath {

  /** The first index of block number q. */
  function Start(size: nat, q: nat): nat
  {
    if q == 0 then 0 else Start(size, q - 1) + size
  }

  /** The number of the block that index i lies in: the quotient (NumIsQuotient). */
  function Num(size: nat, i: nat): nat
    requires size > 0
  {
    if i < size then 0 else 1 + Num(size, i - size)
  }

  /** The offset of index i in its block: the remainder. */
  function Off(size: nat, i: nat): (r: nat)
    requires size > 0
    ensures r < size
  {
    if i < size then i else Off(size, i - size)
  }

  /** The circular slot of block number q when block number `origin` is in slot 0. */
  function Slot(size: nat, origin: nat, q: nat): (r: nat)
    requires size > 0 && origin <= q
    ensures r < size
  {
    Off(size, q - origin)
  }

  lemma {:induction false} NumOff(size: nat, i: nat)
    requires size > 0
    ensures i == Start(size, Num(size, i)) + Off(size, i) && Off(size, i) < size
  {
    if i >= size { NumOff(size, i - size); }
  }

  lemma {:induction false} NumOfStart(size: nat, q: nat, o: nat)
    requires o < size
    ensures Num(size, Start(size, q) + o) == q && Off(size, Start(size, q) + o) == o
  {
    if q > 0 { NumOfStart(size, q - 1, o); }
  }

  lemma {:induction false} StartMono(size: nat, p: nat, q: nat)
    requires p < q
    ensures Start(size, p) + size <= Start(size, q)
    decreases q
  {
    if p < q - 1 { StartMono(size, p, q - 1); }
  }

  lemma {:induction false} NumSmaller(size: nat, i: nat)
    requires size > 1
    ensures Num(size, i) <= i && (i > 0 ==> Num(size, i) < i)
  {
    if i >= size { NumSmaller(size, i - size); }
  }

  lemma {:induction false} NumMono(size: nat, i: nat, j: nat)
    requires size > 0 && i <= j
    ensures Num(size, i) <= Num(size, j)
    decreases j
  {
    if i >= size { NumMono(size, i - size, j - size); }
  }

  /** An index from block q on has a block number of at least q. */
  lemma NumAtLeast(size: nat, i: nat, q: nat)
    requires size > 0
    ensures Start(size, q) <= i <==> q <= Num(size, i)
  {
    NumOff(size, i);
    if q <= Num(size, i) {
      if q < Num(size, i) { StartMono(size, q, Num(size, i)); }
    } else {
      StartMono(size, Num(size, i), q);
    }
  }

  lemma {:induction false} StartIsProduct(size: nat, q: nat)
    ensures Start(size, q) == q * size
  {
    if q > 0 { StartIsProduct(size, q - 1); }
  }

  lemma NumIsQuotient(size: nat, i: nat)
    requires size > 0
    ensures Num(size, i) == i / size && Off(size, i) == i % size
  {
    NumOff(size, i);
    StartIsProduct(size, Num(size, i));
    Quotient(i, size, Num(size, i), Off(size, i));
  }

  lemma Quotient(x: int, n: nat, q: int, r: nat)
    requires r < n && x == q * n + r
    ensures x / n == q && x % n == r
  {
    var q', r' := x / n, x % n;
    assert x == q' * n + r' && 0 <= r' < n;
    assert (q - q') * n == r' - r;
    if q - q' >= 1 { Times(q - q', n); } else if q - q' <= -1 { Times(q' - q, n); }
  }

  lemma Times(k: int, n: nat)
    requires k >= 1
    ensures k * n >= n
  {}

  /** Moving from one slot by a distance in blocks, forward or back. */
  lemma SlotMove(size: nat, origin: nat, p: nat, q: nat)
    requires size > 0 && origin <= p && origin <= q
    ensures (Slot(size, origin, p) + (q - p)) % size == Slot(size, origin, q)
  {
    NumIsQuotient(size, p - origin);
    NumIsQuotient(size, q - origin);
    RemainderMove(p - origin, q - origin, size);
  }

  lemma RemainderMove(a: nat, b: nat, n: nat)
    requires n > 0
    ensures (a % n + (b - a)) % n == b % n
  {
    var k := b / n - a / n;
    Spread(b / n, a / n, n);
    assert a % n + (b - a) == k * n + b % n;
    Quotient(a % n + (b - a), n, k, b % n);
  }

  lemma Spread(x: int, y: int, n: int)
    ensures (x - y) * n == x * n - y * n
  {}

  /** Fewer than `size` consecutive blocks have different slots. */
  lemma {:induction false} OffsDiffer(size: nat, i: nat, j: nat)
    requires size > 0 && i < j < i + size
    ensures Off(size, i) != Off(size, j)
    decreases j
  {
    if i >= size {
      OffsDiffer(size, i - size, j - size);
    } else if j >= size {
      assert Off(size, j) == j - size;
    }
  }

  lemma {:induction false} OffTurns(size: nat, i: nat, q: nat)
    requires size > 0
    ensures Off(size, i + Start(size, q)) == Off(size, i)
  {
    if q > 0 { OffTurns(size, i, q - 1); }
  }

  lemma {:induction false} StartAdd(size: nat, p: nat, q: nat)
    ensures Start(size, p + q) == Start(size, p) + Start(size, q)
  {
    if q > 0 { StartAdd(size, p, q - 1); }
  }

  /** The signed block offset that the dequeue computes from two bases. */
  lemma BlockDistance(size: nat, p: nat, q: nat)
    requires size > 0
    ensures (Start(size, q) - Start(size, p)) / size == q - p
  {
    StartIsProduct(size, p);
    StartIsProduct(size, q);
    assert Start(size, q) - Start(size, p) == (q - p) * size;
    Quotient(Start(size, q) - Start(size, p), size, q - p, 0);
  }
}
