/** Sums of an integer weight over a sequence. The concurrent models keep one
    local state per thread in a sequence; the number of threads that hold a
    reference, owe a wakeup, and so on, is such a sum. */
module Tally {

  function Sum<L>(w: L -> int, ts: seq<L>): int
  {
    if |ts| == 0 then 0 else Sum(w, ts[..|ts| - 1]) + w(ts[|ts| - 1])
  }

  /** Replacing one element changes the sum by the difference of the weights. */
  lemma {:induction false} SumUpdate<L>(w: L -> int, ts: seq<L>, i: nat, x: L)
    requires i < |ts|
    ensures Sum(w, ts[i := x]) == Sum(w, ts) - w(ts[i]) + w(x)
  {
    var last := |ts| - 1;
    if i == last {
      assert ts[i := x][..last] == ts[..last];
    } else {
      assert ts[i := x][..last] == ts[..last][i := x];
      SumUpdate(w, ts[..last], i, x);
    }
  }

  lemma SumAppend<L>(w: L -> int, ts: seq<L>, x: L)
    ensures Sum(w, ts + [x]) == Sum(w, ts) + w(x)
  {
    assert (ts + [x])[..|ts|] == ts;
  }

  lemma {:induction false} SumConcat<L>(w: L -> int, ts: seq<L>, us: seq<L>)
    ensures Sum(w, ts + us) == Sum(w, ts) + Sum(w, us)
  {
    if |us| == 0 {
      assert ts + us == ts;
    } else {
      var last := |us| - 1;
      assert (ts + us)[..|ts + us| - 1] == ts + us[..last];
      SumConcat(w, ts, us[..last]);
    }
  }

  /** Smaller weights give a smaller sum. */
  lemma {:induction false} SumMono<L>(v: L -> int, w: L -> int, ts: seq<L>)
    requires forall i | 0 <= i < |ts| :: v(ts[i]) <= w(ts[i])
    ensures Sum(v, ts) <= Sum(w, ts)
  {
    if |ts| != 0 {
      SumMono(v, w, ts[..|ts| - 1]);
    }
  }

  lemma {:induction false} SumAtLeast<L>(w: L -> int, ts: seq<L>, i: nat)
    requires i < |ts|
    requires forall j | 0 <= j < |ts| :: 0 <= w(ts[j])
    ensures 0 <= w(ts[i]) <= Sum(w, ts)
  {
    var last := |ts| - 1;
    SumNonNegative(w, ts[..last]);
    if i < last {
      SumAtLeast(w, ts[..last], i);
    }
  }

  lemma {:induction false} SumNonNegative<L>(w: L -> int, ts: seq<L>)
    requires forall j | 0 <= j < |ts| :: 0 <= w(ts[j])
    ensures 0 <= Sum(w, ts)
  {
    if |ts| != 0 {
      SumNonNegative(w, ts[..|ts| - 1]);
    }
  }

  /** A positive sum has a positive summand. */
  lemma {:induction false} SumWitness<L>(w: L -> int, ts: seq<L>) returns (i: nat)
    requires 0 < Sum(w, ts)
    ensures i < |ts| && 0 < w(ts[i])
  {
    var last := |ts| - 1;
    if 0 < w(ts[last]) {
      i := last;
    } else {
      i := SumWitness(w, ts[..last]);
    }
  }

  /** If every weight is at most one more than another, the sums differ by at
      most the number of elements. */
  lemma {:induction false} SumWithin<L>(v: L -> int, w: L -> int, ts: seq<L>)
    requires forall i | 0 <= i < |ts| :: v(ts[i]) <= 1 + w(ts[i])
    ensures Sum(v, ts) <= |ts| + Sum(w, ts)
  {
    if |ts| != 0 {
      SumWithin(v, w, ts[..|ts| - 1]);
    }
  }

  lemma {:induction false} SumOfTwo<L>(v: L -> int, w: L -> int, both: L -> int, ts: seq<L>)
    requires forall x :: both(x) == v(x) + w(x)
    ensures Sum(both, ts) == Sum(v, ts) + Sum(w, ts)
  {
    if |ts| != 0 {
      SumOfTwo(v, w, both, ts[..|ts| - 1]);
    }
  }

  /** Pointwise smaller weights along two sequences of the same length. */
  lemma {:induction false} SumPointwise<L>(w: L -> int, ts: seq<L>, us: seq<L>)
    requires |ts| == |us|
    requires forall i | 0 <= i < |ts| :: w(ts[i]) <= w(us[i])
    ensures Sum(w, ts) <= Sum(w, us)
  {
    if |ts| != 0 {
      SumPointwise(w, ts[..|ts| - 1], us[..|us| - 1]);
    }
  }

  /** n copies of one element. */
  function Copies<L>(n: nat, x: L): (r: seq<L>)
    ensures |r| == n && forall i | 0 <= i < n :: r[i] == x
  {
    seq(n, i => x)
  }

  /** ts with positions a .. a + n overwritten by x. */
  function Overwrite<L>(ts: seq<L>, a: nat, n: nat, x: L): (r: seq<L>)
    requires a + n <= |ts|
    ensures |r| == |ts|
    ensures forall i | 0 <= i < |ts| :: r[i] == if a <= i < a + n then x else ts[i]
  {
    seq(|ts|, i requires 0 <= i < |ts| => if a <= i < a + n then x else ts[i])
  }

  /** Overwriting elements of weight v by one of weight v + 1 adds their number. */
  lemma {:induction false} SumOverwrite<L>(w: L -> int, ts: seq<L>, a: nat, n: nat, x: L)
    requires a + n <= |ts|
    requires forall i | a <= i < a + n :: w(x) == w(ts[i]) + 1
    ensures Sum(w, Overwrite(ts, a, n, x)) == Sum(w, ts) + n
  {
    if n == 0 {
      assert Overwrite(ts, a, n, x) == ts;
    } else {
      var less := Overwrite(ts, a, n - 1, x);
      assert Overwrite(ts, a, n, x) == less[a + n - 1 := x];
      SumOverwrite(w, ts, a, n - 1, x);
      SumUpdate(w, less, a + n - 1, x);
    }
  }

  lemma {:induction false} SumZero<L>(w: L -> int, ts: seq<L>)
    requires forall i | 0 <= i < |ts| :: w(ts[i]) == 0
    ensures Sum(w, ts) == 0
  {
    if |ts| != 0 {
      SumZero(w, ts[..|ts| - 1]);
    }
  }
}
