/** Byte order: detail/endian.h. Integers are natural numbers below 256^n; their
    bytes in memory depend on the host. The lowest byte of v and the rest are
    Off(256, v) and Num(256, v), which BlockMath ties to % and /. */
module Endian {
  import opened BlockMath

  type Byte = x: int | 0 <= x < 256

  datatype Host = Little | Big

  /** Multiples spelled as sums, which are easier to reason about. */
  function Times16(x: int): int { x + x + x + x + x + x + x + x + x + x + x + x + x + x + x + x }

  function Times128(x: nat): nat { var y := Times16(x); y + y + y + y + y + y + y + y }

  function Times256(x: nat): nat { Times16(Times16(x)) }

  lemma {:induction false} LowHigh(b: Byte, y: nat)
    ensures Off(256, b + Times256(y)) == b && Num(256, b + Times256(y)) == y
  {
    if y > 0 { LowHigh(b, y - 1); }
  }

  lemma {:induction false} LowPlusHigh(v: nat)
    ensures v == Off(256, v) + Times256(Num(256, v))
  {
    if v >= 256 { LowPlusHigh(v - 256); }
  }

  function Pow256(n: nat): (r: nat)
    ensures r > 0
  {
    if n == 0 then 1 else Times256(Pow256(n - 1))
  }

  /** The n bytes of v, least significant first. */
  function LittleEndian(v: nat, n: nat): (r: seq<Byte>)
    ensures |r| == n
    decreases n
  {
    if n == 0 then [] else [Off(256, v)] + LittleEndian(Num(256, v), n - 1)
  }

  /** The integer with the given bytes, least significant first. */
  function Value(bytes: seq<Byte>): nat
  {
    if bytes == [] then 0 else bytes[0] + Times256(Value(bytes[1..]))
  }

  function Reversed(bytes: seq<Byte>): (r: seq<Byte>)
    ensures |r| == |bytes|
  {
    if bytes == [] then [] else Reversed(bytes[1..]) + [bytes[0]]
  }

  /** How an n-byte integer lies in the memory of a host, and what it reads there. */
  function InMemory(host: Host, v: nat, n: nat): (r: seq<Byte>)
    ensures |r| == n
  {
    if host == Little then LittleEndian(v, n) else Reversed(LittleEndian(v, n))
  }

  function FromMemory(host: Host, bytes: seq<Byte>): nat
  {
    if host == Little then Value(bytes) else Value(Reversed(bytes))
  }

  // ----- laws -----

  lemma {:induction false} ValueRange(bytes: seq<Byte>)
    ensures Value(bytes) < Pow256(|bytes|)
  {
    if bytes != [] { ValueRange(bytes[1..]); }
  }

  lemma {:induction false} Pow256Is(n: nat)
    ensures Pow256(n + 1) == 256 * Pow256(n)
  {}

  /** Byte i of v is its digit i in base 256. */
  lemma {:induction false} ByteAt(v: nat, n: nat, i: nat)
    requires i < n
    ensures LittleEndian(v, n)[i] == v / Pow256(i) % 256
    decreases n
  {
    NumIsQuotient(256, v);
    if i > 0 {
      ByteAt(Num(256, v), n - 1, i - 1);
      Pow256Is(i - 1);
      DivideTwice(v, 256, Pow256(i - 1));
    }
  }

  lemma DivideTwice(v: nat, a: nat, b: nat)
    requires a > 0 && b > 0
    ensures a * b > 0 && v / (a * b) == v / a / b
  {
    var q, r, q', r' := v / a, v % a, v / a / b, v / a % b;
    Positive(a, b);
    assert v == a * q + r && q == b * q' + r';
    assert a * (b * q' + r') == q' * (a * b) + a * r';
    Below(a, b, r', r);
    Quotient(v, a * b, q', a * r' + r);
  }

  lemma Positive(a: nat, b: nat)
    requires a > 0 && b > 0
    ensures a * b > 0
  {}

  lemma Below(a: nat, b: nat, x: nat, y: nat)
    requires x < b && y < a
    ensures a * x + y < a * b
  {
    assert a * x + a <= a * b by { Times(b - x, a); Spread(b, x, a); }
  }

  /** The bytes of v give v back, and the bytes of a value are those it was made of. */
  lemma {:induction false} ValueOfBytes(v: nat, n: nat)
    requires v < Pow256(n)
    ensures Value(LittleEndian(v, n)) == v
    decreases n
  {
    if n > 0 {
      LowPlusHigh(v);
      ValueOfBytes(Num(256, v), n - 1);
      assert LittleEndian(v, n)[1..] == LittleEndian(Num(256, v), n - 1);
    }
  }

  lemma {:induction false} BytesOfValue(bytes: seq<Byte>)
    ensures LittleEndian(Value(bytes), |bytes|) == bytes
  {
    if bytes != [] {
      BytesOfValue(bytes[1..]);
      LowHigh(bytes[0], Value(bytes[1..]));
    }
  }

  lemma {:induction false} ReversedAppend(bytes: seq<Byte>, b: Byte)
    ensures Reversed(bytes + [b]) == [b] + Reversed(bytes)
  {
    if bytes != [] {
      ReversedAppend(bytes[1..], b);
      assert (bytes + [b])[1..] == bytes[1..] + [b];
    }
  }

  lemma {:induction false} ReversedTwice(bytes: seq<Byte>)
    ensures Reversed(Reversed(bytes)) == bytes
  {
    if bytes != [] {
      ReversedTwice(bytes[1..]);
      ReversedAppend(Reversed(bytes[1..]), bytes[0]);
    }
  }

  // ----- byteswap -----

  function Swapped(v: nat, n: nat): (r: nat)
  {
    Value(Reversed(LittleEndian(v, n)))
  }

  /** Swapping the bytes of what is left on top of those swapped so far. */
  lemma SwapStep(done: seq<Byte>, v: nat)
    ensures Value([Off(256, v)] + done) == Times256(Value(done)) + Off(256, v)
  {
    assert ([Off(256, v)] + done)[1..] == done;
  }

  /** The loop of byteswap. */
  method ByteSwap(value: nat, n: nat) returns (swapped: nat)
    ensures swapped == Swapped(value, n)
  {
    swapped := 0;
    var rest := value;
    ghost var done: seq<Byte> := [];
    for i := 0 to n
      invariant swapped == Value(done) && |done| == i
      invariant Reversed(LittleEndian(value, n)) == Reversed(LittleEndian(rest, n - i)) + done
    {
      SwapStep(done, rest);
      NumIsQuotient(256, rest);
      assert LittleEndian(rest, n - i)[1..] == LittleEndian(Num(256, rest), n - i - 1);
      done := [Off(256, rest)] + done;
      swapped := Times256(swapped) + rest % 256;
      rest := rest / 256;
    }
    assert Reversed(LittleEndian(value, n)) == done;
  }

  lemma SwappedTwice(v: nat, n: nat)
    requires v < Pow256(n)
    ensures Swapped(v, n) < Pow256(n) && Swapped(Swapped(v, n), n) == v
  {
    var bytes := Reversed(LittleEndian(v, n));
    ValueRange(bytes);
    BytesOfValue(bytes);
    ReversedTwice(LittleEndian(v, n));
    ValueOfBytes(v, n);
  }

  // ----- host2le, le2host -----

  function HostToLe(host: Host, v: nat, n: nat): nat
  {
    if host == Little then v else Swapped(v, n)
  }

  /** What host2le leaves in memory is little endian on either host. */
  lemma SameBytesOnEitherHost(host: Host, v: nat, n: nat)
    requires v < Pow256(n)
    ensures InMemory(host, HostToLe(host, v, n), n) == LittleEndian(v, n)
  {
    var bytes := Reversed(LittleEndian(v, n));
    BytesOfValue(bytes);
    ReversedTwice(LittleEndian(v, n));
  }

  /** le2host of little-endian bytes in memory is their value on either host. */
  lemma SameValueOnEitherHost(host: Host, bytes: seq<Byte>)
    ensures HostToLe(host, FromMemory(host, bytes), |bytes|) == Value(bytes)
  {
    BytesOfValue(Reversed(bytes));
    ReversedTwice(bytes);
  }
}
