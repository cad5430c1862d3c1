/** writer.h, reader.h, size_counter.h, fixed_writer.h and fixed_reader.h: the
    classes over buffers, each proved to do on any host what its state machine in
    the module Frames does with the encodings of the module Wire. */
module WireBuffers {
  import opened Endian
  import opened Frames
  import opened Wire

  /** detail::host2le. */
  method HostToLittleEndian(host: Host, v: nat, n: nat) returns (r: nat)
    ensures r == HostToLe(host, v, n)
  {
    r := v;
    if host == Big {
      r := ByteSwap(v, n);
    }
  }

  /** memcpy into a buffer. */
  method Copy(target: array<Byte>, at: nat, bytes: seq<Byte>)
    requires at + |bytes| <= target.Length
    modifies target
    ensures target[..] == old(target[..at]) + bytes + old(target[at + |bytes|..])
  {
    for i := 0 to |bytes|
      invariant target[..at] == old(target[..at]) && target[at + |bytes|..] == old(target[at + |bytes|..])
      invariant target[at..at + i] == bytes[..i]
    {
      target[at + i] := bytes[i];
      assert target[at..at + i + 1] == bytes[..i] + [bytes[i]];
    }
    assert target[..] == target[..at] + target[at..at + |bytes|] + target[at + |bytes|..];
  }

  class Writer {
    const buffer: array<Byte>
    var current: nat
    var remaining: nat
    var isValid: bool

    ghost predicate Valid()
      reads this
    {
      current + remaining == buffer.Length
    }

    ghost function State(): Writing
      requires Valid()
      reads this, buffer
    {
      Writing(buffer[..current], remaining, isValid)
    }

    constructor (b: array<Byte>)
      ensures Valid() && buffer == b && State() == Writing([], b.Length, true)
    {
      buffer := b;
      current, remaining, isValid := 0, b.Length, true;
    }

    method EnsureAvailable(size: nat) returns (ok: bool)
      modifies this`isValid
      ensures ok == isValid == (old(isValid) && size <= remaining)
    {
      if !isValid || size > remaining {
        isValid := false;
        return false;
      }
      ok := true;
    }

    /** write_bytes; nothing past the written bytes is touched. */
    method WriteBytes(bytes: seq<Byte>) returns (ok: bool)
      requires Valid()
      modifies this, buffer
      ensures Valid() && State() == Put(old(State()), bytes) && ok == isValid
      ensures buffer[current..] == old(buffer[..])[current..]
    {
      ok := EnsureAvailable(|bytes|);
      if !ok {
        return;
      }
      if bytes != [] {
        Copy(buffer, current, bytes);
        current := current + |bytes|;
        remaining := remaining - |bytes|;
      }
    }

    method WriteByte(b: Byte) returns (ok: bool)
      requires Valid()
      modifies this, buffer
      ensures Valid() && State() == Put(old(State()), [b]) && ok == isValid
      ensures buffer[current..] == old(buffer[..])[current..]
    {
      ok := EnsureAvailable(1);
      if !ok {
        return;
      }
      buffer[current] := b;
      current := current + 1;
      remaining := remaining - 1;
    }

    method WriteUnsigned(host: Host, v: nat, n: nat) returns (ok: bool)
      requires Valid() && v < Pow256(n)
      modifies this, buffer
      ensures Valid() && State() == Put(old(State()), LittleEndian(v, n)) && ok == isValid
      ensures buffer[current..] == old(buffer[..])[current..]
    {
      ok := EnsureAvailable(n);
      if !ok {
        return;
      }
      var value := HostToLittleEndian(host, v, n);
      SameBytesOnEitherHost(host, v, n);
      Copy(buffer, current, InMemory(host, value, n));
      current := current + n;
      remaining := remaining - n;
    }

    /** The write function for the type of v. */
    method Write(host: Host, v: Val) returns (ok: bool)
      requires Valid() && Typed(v)
      modifies this, buffer
      ensures Valid() && State() == Put(old(State()), Encode(v)) && ok == isValid
      ensures buffer[current..] == old(buffer[..])[current..]
    {
      match v
      case Raw(b) => ok := WriteByte(b);
      case Unsigned(x, w) =>
        if w == 1 {
          assert LittleEndian(x, 1) == [x];
          ok := WriteByte(x);
        } else {
          ok := WriteUnsigned(host, x, w);
        }
      case Signed(i, w) => ok := WriteUnsigned(host, ToUnsigned(i, w), w);
      case Double(bits) => ok := WriteUnsigned(host, bits, 8);
      case Blob(bytes) => ok := WriteBytes(bytes);
    }

    predicate Complete()
      reads this
    {
      isValid && remaining == 0
    }
  }

  class Reader {
    const buffer: array<Byte>
    var current: nat
    var remaining: nat
    var isValid: bool

    ghost predicate Valid()
      reads this
    {
      current + remaining == buffer.Length
    }

    ghost function State(): Reading
      requires Valid()
      reads this, buffer
    {
      Reading(buffer[current..], isValid)
    }

    constructor (b: array<Byte>)
      ensures Valid() && buffer == b && State() == Reading(b[..], true)
    {
      buffer := b;
      current, remaining, isValid := 0, b.Length, true;
    }

    method EnsureAvailable(size: nat) returns (ok: bool)
      modifies this`isValid
      ensures ok == isValid == (old(isValid) && size <= remaining)
    {
      if !isValid || size > remaining {
        isValid := false;
        return false;
      }
      ok := true;
    }

    /** read_bytes of n bytes. */
    method ReadBytes(n: nat) returns (ok: bool, bytes: seq<Byte>)
      requires Valid()
      modifies this
      ensures Valid() && State() == Get(old(State()), n) && ok == CanGet(old(State()), n)
      ensures bytes == if ok then old(State()).unread[..n] else []
    {
      ok := EnsureAvailable(n);
      bytes := [];
      if !ok {
        return;
      }
      if n > 0 {
        bytes := buffer[current..current + n];
        current := current + n;
        remaining := remaining - n;
      }
    }

    method ReadByte() returns (ok: bool, b: Byte)
      requires Valid()
      modifies this
      ensures Valid() && State() == Get(old(State()), 1) && ok == CanGet(old(State()), 1)
      ensures ok ==> b == old(State()).unread[0]
    {
      b := 0;
      ok := EnsureAvailable(1);
      if !ok {
        return;
      }
      b := buffer[current];
      current := current + 1;
      remaining := remaining - 1;
    }

    method ReadUnsigned(host: Host, n: nat) returns (ok: bool, v: nat)
      requires Valid()
      modifies this
      ensures Valid() && State() == Get(old(State()), n) && ok == CanGet(old(State()), n)
      ensures ok ==> v == Value(old(State()).unread[..n])
    {
      v := 0;
      ok := EnsureAvailable(n);
      if !ok {
        return;
      }
      var encoded := buffer[current..current + n];
      assert buffer[current..][..n] == encoded;
      SameValueOnEitherHost(host, encoded);
      v := HostToLittleEndian(host, FromMemory(host, encoded), n);
      current := current + n;
      remaining := remaining - n;
    }

    /** The read function for the kind of value; without success the out value keeps
        what it had. */
    method Read(host: Host, k: Kind, was: Val) returns (ok: bool, v: Val)
      requires Valid() && Readable(k)
      modifies this
      ensures Valid() && State() == Get(old(State()), Width(k)) && ok == CanGet(old(State()), Width(k))
      ensures v == if ok then Decode(k, old(State()).unread[..Width(k)]) else was
    {
      v := was;
      match k
      case RawKind =>
        var b: Byte;
        ok, b := ReadByte();
        if ok { v := Raw(b); }
      case UnsignedKind(w) =>
        var x: nat;
        ok, x := ReadUnsigned(host, w);
        if ok { v := Unsigned(x, w); }
      case SignedKind(w) =>
        var x: nat;
        ok, x := ReadUnsigned(host, w);
        if ok { v := Signed(ToSigned(x, w), w); }
      case DoubleKind =>
        var x: nat;
        ok, x := ReadUnsigned(host, 8);
        if ok { v := Double(x); }
      case BlobKind(n) =>
        var bytes: seq<Byte>;
        ok, bytes := ReadBytes(n);
        if ok { v := Blob(bytes); }
    }

    predicate Complete()
      reads this
    {
      isValid && remaining == 0
    }
  }

  class SizeCounter {
    var size: nat
    var isValid: bool

    ghost predicate Valid()
      reads this
    {
      size <= SIZE_MAX
    }

    ghost function State(): Counting
      reads this
    {
      Counting(size, isValid)
    }

    constructor (initial: nat)
      requires initial <= SIZE_MAX
      ensures Valid() && State() == Counting(initial, true)
    {
      size, isValid := initial, true;
    }

    /** Accounts for a value of the given kind. */
    method Count(k: Kind) returns (ok: bool)
      requires Valid()
      modifies this
      ensures Valid() && State() == Add(old(State()), Width(k)) && ok == isValid
    {
      var n := Width(k);
      if !isValid || n > SIZE_MAX - size {
        isValid := false;
        return false;
      }
      size := size + n;
      ok := true;
    }
  }

  /** fixed_writer: no checks after the one of create; a caller must stay inside the
      block, as the assertion in fixed_writer asks. */
  class FixedWriter {
    const buffer: array<Byte>
    var position: nat

    ghost predicate Valid()
      reads this
    {
      position <= buffer.Length
    }

    /** The checked writer's state that this one stands for. */
    ghost function State(): Writing
      requires Valid()
      reads this, buffer
    {
      Writing(buffer[..position], buffer.Length - position, true)
    }

    constructor (b: array<Byte>)
      ensures Valid() && buffer == b && State() == Writing([], b.Length, true)
    {
      buffer := b;
      position := 0;
    }

    static method Create(b: array<Byte>, size: nat) returns (w: FixedWriter?)
      ensures w == null <==> b.Length != size
      ensures w != null ==> fresh(w) && w.Valid() && w.buffer == b && w.State() == Writing([], size, true)
    {
      if b.Length != size {
        return null;
      }
      w := new FixedWriter(b);
    }

    method WriteBytes(bytes: seq<Byte>)
      requires Valid() && |bytes| <= buffer.Length - position
      modifies this, buffer
      ensures Valid() && State() == Put(old(State()), bytes)
      ensures buffer[position..] == old(buffer[..])[position..]
    {
      if bytes != [] {
        Copy(buffer, position, bytes);
        position := position + |bytes|;
      }
    }

    method WriteUnsigned(host: Host, v: nat, n: nat)
      requires Valid() && v < Pow256(n) && n <= buffer.Length - position
      modifies this, buffer
      ensures Valid() && State() == Put(old(State()), LittleEndian(v, n))
      ensures buffer[position..] == old(buffer[..])[position..]
    {
      var value := HostToLittleEndian(host, v, n);
      SameBytesOnEitherHost(host, v, n);
      Copy(buffer, position, InMemory(host, value, n));
      position := position + n;
    }

    /** Writes what the checked writer would: the same bytes at the same place. */
    method Write(host: Host, v: Val)
      requires Valid() && Typed(v) && Width(KindOf(v)) <= buffer.Length - position
      modifies this, buffer
      ensures Valid() && State() == Put(old(State()), Encode(v))
      ensures buffer[position..] == old(buffer[..])[position..]
    {
      match v
      case Raw(b) =>
        buffer[position] := b;
        position := position + 1;
      case Unsigned(x, w) =>
        if w == 1 {
          assert LittleEndian(x, 1) == [x];
          buffer[position] := x;
          position := position + 1;
        } else {
          WriteUnsigned(host, x, w);
        }
      case Signed(i, w) => WriteUnsigned(host, ToUnsigned(i, w), w);
      case Double(bits) => WriteUnsigned(host, bits, 8);
      case Blob(bytes) => WriteBytes(bytes);
    }

    predicate Complete()
      reads this
    {
      position == buffer.Length
    }
  }

  class FixedReader {
    const buffer: array<Byte>
    var position: nat

    ghost predicate Valid()
      reads this
    {
      position <= buffer.Length
    }

    ghost function State(): Reading
      requires Valid()
      reads this, buffer
    {
      Reading(buffer[position..], true)
    }

    constructor (b: array<Byte>)
      ensures Valid() && buffer == b && State() == Reading(b[..], true)
    {
      buffer := b;
      position := 0;
    }

    static method Create(b: array<Byte>, size: nat) returns (r: FixedReader?)
      ensures r == null <==> b.Length != size
      ensures r != null ==> fresh(r) && r.Valid() && r.buffer == b && r.State() == Reading(b[..], true)
    {
      if b.Length != size {
        return null;
      }
      r := new FixedReader(b);
    }

    method ReadUnsigned(host: Host, n: nat) returns (v: nat)
      requires Valid() && n <= buffer.Length - position
      modifies this
      ensures Valid() && State() == Get(old(State()), n) && v == Value(old(State()).unread[..n])
    {
      var encoded := buffer[position..position + n];
      assert buffer[position..][..n] == encoded;
      SameValueOnEitherHost(host, encoded);
      v := HostToLittleEndian(host, FromMemory(host, encoded), n);
      position := position + n;
    }

    /** Reads what the checked reader would. */
    method Read(host: Host, k: Kind) returns (v: Val)
      requires Valid() && Readable(k) && Width(k) <= buffer.Length - position
      modifies this
      ensures Valid() && State() == Get(old(State()), Width(k))
      ensures v == Decode(k, old(State()).unread[..Width(k)])
    {
      match k
      case RawKind =>
        v := Raw(buffer[position]);
        position := position + 1;
      case UnsignedKind(w) =>
        var x := ReadUnsigned(host, w);
        v := Unsigned(x, w);
      case SignedKind(w) =>
        var x := ReadUnsigned(host, w);
        v := Signed(ToSigned(x, w), w);
      case DoubleKind =>
        var x := ReadUnsigned(host, 8);
        v := Double(x);
      case BlobKind(n) =>
        v := Blob(buffer[position..position + n]);
        position := position + n;
    }

    predicate Complete()
      reads this
    {
      position == buffer.Length
    }
  }

  // ----- whole messages -----

  /** True exactly when the size fits in std::size_t. */
  method CountMessage(vs: seq<Val>) returns (ok: bool, size: nat)
    requires AllTyped(vs)
    ensures ok <==> Total(Encodings(vs)) <= SIZE_MAX
    ensures ok ==> size == Total(Encodings(vs))
  {
    var counter := new SizeCounter(0);
    ghost var widths := Widths(KindsOf(vs));
    for i := 0 to |vs|
      invariant fresh(counter) && counter.Valid()
      invariant AddAll(counter.State(), widths[i..]) == AddAll(Counting(0, true), widths)
    {
      assert widths[i..][1..] == widths[i + 1..];
      var counted := counter.Count(KindOf(vs[i]));
    }
    WidthsAreLengths(vs);
    CountIsTotal(Counting(0, true), Encodings(vs));
    ok, size := counter.isValid, counter.size;
  }

  /** Completes exactly on a buffer of the counted size; a larger one keeps its rest,
      a smaller one gets the values before the first that does not fit. */
  method WriteMessage(vs: seq<Val>, host: Host, buffer: array<Byte>) returns (complete: bool)
    requires AllTyped(vs)
    modifies buffer
    ensures complete <==> Total(Encodings(vs)) == buffer.Length
    ensures Total(Encodings(vs)) <= buffer.Length ==>
              buffer[..] == Concat(Encodings(vs)) + old(buffer[Total(Encodings(vs))..])
    ensures Total(Encodings(vs)) > buffer.Length ==> exists k ::
              0 <= k < |vs| && Total(Encodings(vs)[..k]) <= buffer.Length < Total(Encodings(vs)[..k + 1])
              && buffer[..] == Concat(Encodings(vs)[..k]) + old(buffer[Total(Encodings(vs)[..k])..])
  {
    var w := new Writer(buffer);
    ghost var s, parts := w.State(), Encodings(vs);
    for i := 0 to |vs|
      invariant fresh(w) && w.Valid() && w.buffer == buffer
      invariant PutAll(w.State(), parts[i..]) == PutAll(s, parts)
      invariant buffer[w.current..] == old(buffer[..])[w.current..]
    {
      assert parts[i..][1..] == parts[i + 1..];
      var ok := w.Write(host, vs[i]);
    }
    assert buffer[..] == buffer[..w.current] + buffer[w.current..];
    if Total(parts) <= buffer.Length {
      PutAllFits(s, parts);
    } else {
      var k := PutAllShort(s, parts);
      assert buffer[..w.current] == Concat(parts[..k]);
    }
    complete := w.Complete();
  }

  /** After i reads of a message: the parts got so far, then those still to come,
      are those of the whole message. */
  ghost predicate Progress(start: Reading, ks: seq<Kind>, i: nat, now: Reading, got: seq<seq<Byte>>, vs: seq<Val>)
  {
    && i <= |ks| && DecodesTo(ks, got, vs) && (now.ok ==> |got| == i)
    && GetAll(start, Widths(ks)).0 == GetAll(now, Widths(ks)[i..]).0
    && GetAll(start, Widths(ks)).1 == got + GetAll(now, Widths(ks)[i..]).1
  }

  lemma OneRead(start: Reading, ks: seq<Kind>, i: nat, now: Reading, got: seq<seq<Byte>>, vs: seq<Val>)
    requires Progress(start, ks, i, now, got, vs) && i < |ks| && CanGet(now, Width(ks[i])) && Readable(ks[i])
    ensures var part := now.unread[..Width(ks[i])];
            Progress(start, ks, i + 1, Get(now, Width(ks[i])), got + [part], vs + [Decode(ks[i], part)])
  {
    var widths, part := Widths(ks), now.unread[..Width(ks[i])];
    assert widths[i..][1..] == widths[i + 1..] && widths[i..][0] == Width(ks[i]);
    var later := GetAll(Get(now, Width(ks[i])), widths[i + 1..]).1;
    assert got + ([part] + later) == got + [part] + later;
  }

  lemma FailedRead(start: Reading, ks: seq<Kind>, i: nat, now: Reading, got: seq<seq<Byte>>, vs: seq<Val>)
    requires Progress(start, ks, i, now, got, vs) && i < |ks| && !CanGet(now, Width(ks[i]))
    ensures Progress(start, ks, i + 1, Get(now, Width(ks[i])), got, vs)
  {
    assert Widths(ks)[i..][1..] == Widths(ks)[i + 1..] && Widths(ks)[i..][0] == Width(ks[i]);
  }

  lemma AllRead(start: Reading, ks: seq<Kind>, now: Reading, got: seq<seq<Byte>>, vs: seq<Val>)
    requires Progress(start, ks, |ks|, now, got, vs)
    ensures GetAll(start, Widths(ks)) == (now, got)
  {
    assert Widths(ks)[|ks|..] == [];
    assert got + [] == got;
  }

  /** Reads values of the given kinds until one is missing; complete if none is and
      nothing is left over. */
  method ReadMessage(ks: seq<Kind>, host: Host, buffer: array<Byte>) returns (complete: bool, vs: seq<Val>)
    requires forall i {:trigger Readable(ks[i])} | 0 <= i < |ks| :: Readable(ks[i])
    ensures var r := GetAll(Reading(buffer[..], true), Widths(ks));
            (complete <==> r.0 == Reading([], true)) && DecodesTo(ks, r.1, vs)
  {
    var reader := new Reader(buffer);
    ghost var start, got: seq<seq<Byte>> := reader.State(), [];
    vs := [];
    assert Widths(ks)[0..] == Widths(ks);
    for i := 0 to |ks|
      invariant fresh(reader) && reader.Valid() && reader.buffer == buffer
      invariant Progress(start, ks, i, reader.State(), got, vs)
    {
      ghost var now := reader.State();
      var ok, v := reader.Read(host, ks[i], Raw(0));
      if ok {
        OneRead(start, ks, i, now, got, vs);
        got := got + [now.unread[..Width(ks[i])]];
        vs := vs + [v];
      } else {
        FailedRead(start, ks, i, now, got, vs);
      }
    }
    AllRead(start, ks, reader.State(), got, vs);
    complete := reader.Complete();
  }

  /** A message written on one host and read on another comes back whole; the reader
      is told the types and nothing else. */
  method Transfer(vs: seq<Val>, from: Host, to: Host) returns (complete: bool, got: seq<Val>)
    requires AllTyped(vs)
    ensures complete <==> Total(Encodings(vs)) <= SIZE_MAX
    ensures complete ==> got == vs
  {
    var ok, size := CountMessage(vs);
    if !ok {
      return false, [];
    }
    var buffer := new Byte[size];
    var written := WriteMessage(vs, from, buffer);
    assert buffer[..] == Concat(Encodings(vs));
    MessageReadsBack(vs);
    complete, got := ReadMessage(KindsOf(vs), to, buffer);
    assert got == vs;
  }

  lemma MessageReadsBack(vs: seq<Val>)
    requires AllTyped(vs)
    ensures GetAll(Reading(Concat(Encodings(vs)), true), Widths(KindsOf(vs))) == (Reading([], true), Encodings(vs))
    ensures forall i {:trigger Readable(KindsOf(vs)[i])} | 0 <= i < |vs| :: Readable(KindsOf(vs)[i])
    ensures forall got: seq<Val> :: DecodesTo(KindsOf(vs), Encodings(vs), got) ==> got == vs
  {
    WidthsAreLengths(vs);
    GetBack(Encodings(vs));
    PartsDecode(vs, |vs|);
    assert Encodings(vs)[..|vs|] == Encodings(vs) && vs[..|vs|] == vs;
  }
}
