/** The typed values of z::wire and their encoding. */
module Wire {
  import opened Endian
  import opened Frames

  datatype Val =
    | Raw(b: Byte)                        // write_byte
    | Unsigned(v: nat, width: nat)        // write_u8, _u16, _u32, _u64
    | Signed(i: int, width: nat)          // write_i32, _i64
    | Double(bits: nat)                   // write_double, as its binary64 pattern
    | Blob(bytes: seq<Byte>)              // write_bytes

  datatype Kind =
    | RawKind
    | UnsignedKind(width: nat)
    | SignedKind(width: nat)
    | DoubleKind
    | BlobKind(n: nat)

  function Half(width: nat): nat
    requires width > 0
  {
    Times128(Pow256(width - 1))
  }

  /** The value is one of its C++ type. */
  predicate Typed(v: Val)
  {
    match v
    case Raw(_) => true
    case Unsigned(x, w) => (w == 1 || w == 2 || w == 4 || w == 8) && x < Pow256(w)
    case Signed(i, w) => (w == 4 || w == 8) && 0 <= i + Half(w) && i < Half(w)
    case Double(bits) => bits < Pow256(8)
    case Blob(_) => true
  }

  ghost predicate AllTyped(vs: seq<Val>)
  {
    forall i {:trigger Typed(vs[i])} | 0 <= i < |vs| :: Typed(vs[i])
  }

  function KindOf(v: Val): Kind
  {
    match v
    case Raw(_) => RawKind
    case Unsigned(_, w) => UnsignedKind(w)
    case Signed(_, w) => SignedKind(w)
    case Double(_) => DoubleKind
    case Blob(bytes) => BlobKind(|bytes|)
  }

  function Width(k: Kind): nat
  {
    match k
    case RawKind => 1
    case UnsignedKind(w) => w
    case SignedKind(w) => w
    case DoubleKind => 8
    case BlobKind(n) => n
  }

  /** The conversions between signed and unsigned integers of the same width. */
  function ToUnsigned(i: int, width: nat): int { if i < 0 then i + Pow256(width) else i }

  function ToSigned(u: nat, width: nat): int
    requires width > 0
  {
    if u < Half(width) then u else u - Pow256(width)
  }

  function Encode(v: Val): (r: seq<Byte>)
    requires Typed(v)
    ensures |r| == Width(KindOf(v))
  {
    match v
    case Raw(b) => [b]
    case Unsigned(x, w) => LittleEndian(x, w)
    case Signed(i, w) => LittleEndian(ToUnsigned(i, w), w)
    case Double(bits) => LittleEndian(bits, 8)
    case Blob(bytes) => bytes
  }

  predicate Readable(k: Kind) { k.SignedKind? ==> k.width > 0 }

  function Decode(k: Kind, bytes: seq<Byte>): Val
    requires |bytes| == Width(k) && Readable(k)
  {
    match k
    case RawKind => Raw(bytes[0])
    case UnsignedKind(w) => Unsigned(Value(bytes), w)
    case SignedKind(w) => Signed(ToSigned(Value(bytes), w), w)
    case DoubleKind => Double(Value(bytes))
    case BlobKind(_) => Blob(bytes)
  }

  lemma DecodeEncode(v: Val)
    requires Typed(v)
    ensures Readable(KindOf(v)) && Decode(KindOf(v), Encode(v)) == v
  {
    match v
    case Raw(_) =>
    case Unsigned(x, w) => ValueOfBytes(x, w);
    case Signed(i, w) => ValueOfBytes(ToUnsigned(i, w), w);
    case Double(bits) => ValueOfBytes(bits, 8);
    case Blob(_) =>
  }

  // ----- what the bytes mean -----

  lemma HalfTwice(width: nat)
    requires width > 0
    ensures Half(width) + Half(width) == Pow256(width)
  {}

  /** The bytes of a value, whatever the host: little endian for numbers, binary64
      patterns among them, and two's complement for negative ones; bytes as given. */
  lemma EncodingMeans(v: Val)
    requires Typed(v)
    ensures match v
            case Raw(b) => Encode(v) == [b]
            case Unsigned(x, w) => |Encode(v)| == w && Value(Encode(v)) == x
            case Signed(i, w) => |Encode(v)| == w && Value(Encode(v)) == if i >= 0 then i else i + Pow256(w)
            case Double(bits) => |Encode(v)| == 8 && Value(Encode(v)) == bits
            case Blob(bytes) => Encode(v) == bytes
  {
    match v
    case Unsigned(x, w) => ValueOfBytes(x, w);
    case Signed(i, w) =>
      HalfTwice(w);
      ValueOfBytes(if i >= 0 then i else i + Pow256(w), w);
    case Double(bits) => ValueOfBytes(bits, 8);
    case _ =>
  }

  /** Reading back: the same numbers, those with the sign bit set counting down from
      zero. */
  lemma DecodingMeans(k: Kind, bytes: seq<Byte>)
    requires |bytes| == Width(k) && Readable(k)
    ensures match k
            case RawKind => Decode(k, bytes) == Raw(bytes[0])
            case UnsignedKind(w) => Decode(k, bytes) == Unsigned(Value(bytes), w)
            case SignedKind(w) =>
              var x := Value(bytes);
              Decode(k, bytes) == Signed(if x + x < Pow256(w) then x else x - Pow256(w), w)
            case DoubleKind => Decode(k, bytes) == Double(Value(bytes))
            case BlobKind(_) => Decode(k, bytes) == Blob(bytes)
  {
    if k.SignedKind? { HalfTwice(k.width); }
  }

  // ----- messages -----

  function Encodings(vs: seq<Val>): (r: seq<seq<Byte>>)
    requires AllTyped(vs)
    ensures |r| == |vs| && forall i {:trigger r[i]} | 0 <= i < |vs| :: r[i] == Encode(vs[i])
  {
    seq(|vs|, i requires 0 <= i < |vs| => Encode(vs[i]))
  }

  function KindsOf(vs: seq<Val>): (r: seq<Kind>)
    ensures |r| == |vs| && forall i {:trigger r[i]} | 0 <= i < |vs| :: r[i] == KindOf(vs[i])
  {
    seq(|vs|, i requires 0 <= i < |vs| => KindOf(vs[i]))
  }

  function Widths(ks: seq<Kind>): (r: seq<nat>)
    ensures |r| == |ks| && forall i {:trigger r[i]} | 0 <= i < |ks| :: r[i] == Width(ks[i])
  {
    seq(|ks|, i requires 0 <= i < |ks| => Width(ks[i]))
  }

  /** The parts decode, one by one, to the values. */
  ghost predicate DecodesTo(ks: seq<Kind>, parts: seq<seq<Byte>>, vs: seq<Val>)
  {
    && |parts| == |vs| <= |ks|
    && forall i | 0 <= i < |vs| :: Readable(ks[i]) && |parts[i]| == Width(ks[i]) && Decode(ks[i], parts[i]) == vs[i]
  }

  lemma {:induction false} WidthsAreLengths(vs: seq<Val>)
    requires AllTyped(vs)
    ensures Widths(KindsOf(vs)) == Lengths(Encodings(vs))
    decreases |vs|
  {
    if vs != [] {
      WidthsAreLengths(vs[1..]);
      assert Encodings(vs)[1..] == Encodings(vs[1..]);
      assert KindsOf(vs) == [KindOf(vs[0])] + KindsOf(vs[1..]);
      assert Widths(KindsOf(vs)) == [Width(KindOf(vs[0]))] + Widths(KindsOf(vs[1..]));
    }
  }

  lemma PartsDecode(vs: seq<Val>, k: nat)
    requires AllTyped(vs) && k <= |vs|
    ensures DecodesTo(KindsOf(vs), Encodings(vs)[..k], vs[..k])
  {
    forall i | 0 <= i < k
      ensures Readable(KindOf(vs[i])) && Decode(KindOf(vs[i]), Encode(vs[i])) == vs[i]
    {
      DecodeEncode(vs[i]);
    }
  }

  /** Writing into a buffer of exactly the counted size completes, and reading it
      with the same types returns the values and completes. */
  lemma RoundTrip(vs: seq<Val>)
    requires AllTyped(vs)
    ensures var parts, widths := Encodings(vs), Widths(KindsOf(vs));
            var c := AddAll(Counting(0, true), widths);
            && (c.ok <==> Total(parts) <= SIZE_MAX)
            && (c.ok ==>
                  var w := PutAll(Writing([], c.size, true), parts);
                  && w.ok && w.remaining == 0
                  && var r := GetAll(Reading(w.written, true), widths);
                     r.0 == Reading([], true) && DecodesTo(KindsOf(vs), r.1, vs))
  {
    var parts := Encodings(vs);
    WidthsAreLengths(vs);
    CountIsTotal(Counting(0, true), parts);
    PutAllFits(Writing([], Total(parts), true), parts);
    assert [] + Concat(parts) == Concat(parts);
    GetBack(parts);
    PartsDecode(vs, |vs|);
    assert parts[..|vs|] == parts && vs[..|vs|] == vs;
  }

  /** A buffer smaller than counted: the writer keeps the values before the first
      that does not fit and fails, and a reader of the buffer it leaves, whatever
      its last bytes are, gets these values back and fails too. */
  lemma TooSmall(vs: seq<Val>, capacity: nat, last: seq<Byte>) returns (k: nat)
    requires AllTyped(vs) && capacity < Total(Encodings(vs)) && |last| == capacity
    ensures k < |vs| && Total(Encodings(vs)[..k]) <= capacity < Total(Encodings(vs)[..k + 1])
    ensures var w := PutAll(Writing([], capacity, true), Encodings(vs));
            && w == Writing(Concat(Encodings(vs)[..k]), capacity - Total(Encodings(vs)[..k]), false)
            && |w.written| <= capacity
            && var left := w.written + last[|w.written|..];
               var r := GetAll(Reading(left, true), Widths(KindsOf(vs)));
               !r.0.ok && DecodesTo(KindsOf(vs), r.1, vs[..k])
  {
    var parts := Encodings(vs);
    k := PutAllShort(Writing([], capacity, true), parts);
    assert [] + Concat(parts[..k]) == Concat(parts[..k]);
    WidthsAreLengths(vs);
    TotalNext(parts, k);
    GetBroken(parts, k, last[Total(parts[..k])..]);
    PartsDecode(vs, k);
  }

  lemma {:induction false} TotalNext(parts: seq<seq<Byte>>, k: nat)
    requires k < |parts|
    ensures Total(parts[..k + 1]) == Total(parts[..k]) + |parts[k]|
    decreases |parts|
  {
    TotalPrefix(parts, k);
    if k > 0 {
      TotalPrefix(parts, k - 1);
      TotalNext(parts[1..], k - 1);
    }
  }
}
