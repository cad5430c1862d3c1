/** Writers, readers and size counters of z::wire as state machines with sticky
    failure, over parts: the byte strings of the single values. */
module Frames {
  import opened Endian

  function Total(parts: seq<seq<Byte>>): nat
  {
    if parts == [] then 0 else |parts[0]| + Total(parts[1..])
  }

  function Concat(parts: seq<seq<Byte>>): (r: seq<Byte>)
    ensures |r| == Total(parts)
  {
    if parts == [] then [] else parts[0] + Concat(parts[1..])
  }

  lemma TotalPrefix(parts: seq<seq<Byte>>, m: nat)
    requires m < |parts|
    ensures Total(parts[..m + 1]) == |parts[0]| + Total(parts[1..][..m])
    ensures Concat(parts[..m + 1]) == parts[0] + Concat(parts[1..][..m])
  {
    assert parts[..m + 1][1..] == parts[1..][..m];
  }

  // ----- writers -----

  /** The bytes written, the room left, and whether every write succeeded. */
  datatype Writing = Writing(written: seq<Byte>, remaining: nat, ok: bool)

  function Put(s: Writing, bytes: seq<Byte>): Writing
  {
    if s.ok && |bytes| <= s.remaining
    then Writing(s.written + bytes, s.remaining - |bytes|, true)
    else s.(ok := false)
  }

  function PutAll(s: Writing, parts: seq<seq<Byte>>): Writing
    decreases |parts|
  {
    if parts == [] then s else PutAll(Put(s, parts[0]), parts[1..])
  }

  /** Enough room: everything is written, in order. */
  lemma {:induction false} PutAllFits(s: Writing, parts: seq<seq<Byte>>)
    requires s.ok && Total(parts) <= s.remaining
    ensures PutAll(s, parts) == Writing(s.written + Concat(parts), s.remaining - Total(parts), true)
    decreases |parts|
  {
    if parts == [] {
      assert s.written + [] == s.written;
    } else {
      var s' := Put(s, parts[0]);
      PutAllFits(s', parts[1..]);
      assert s'.written + Concat(parts[1..]) == s.written + (parts[0] + Concat(parts[1..]));
    }
  }

  /** Failure is sticky: nothing is written after it. */
  lemma {:induction false} PutAllStuck(s: Writing, parts: seq<seq<Byte>>)
    requires !s.ok
    ensures PutAll(s, parts) == s
    decreases |parts|
  {
    if parts != [] { PutAllStuck(s, parts[1..]); }
  }

  /** Too little room: the parts before the first that does not fit are written,
      nothing after them, and the writer reports failure. */
  lemma {:induction false} PutAllShort(s: Writing, parts: seq<seq<Byte>>) returns (k: nat)
    requires s.ok && s.remaining < Total(parts)
    ensures k < |parts| && Total(parts[..k]) <= s.remaining < Total(parts[..k + 1])
    ensures PutAll(s, parts) == Writing(s.written + Concat(parts[..k]), s.remaining - Total(parts[..k]), false)
    decreases |parts|
  {
    TotalPrefix(parts, 0);
    assert parts[1..][..0] == [];
    if |parts[0]| > s.remaining {
      PutAllStuck(Put(s, parts[0]), parts[1..]);
      k := 0;
      assert s.written + [] == s.written;
    } else {
      var s' := Put(s, parts[0]);
      var m := PutAllShort(s', parts[1..]);
      k := m + 1;
      TotalPrefix(parts, m);
      TotalPrefix(parts, m + 1);
      assert s'.written + Concat(parts[1..][..m]) == s.written + (parts[0] + Concat(parts[1..][..m]));
    }
  }

  // ----- readers -----

  datatype Reading = Reading(unread: seq<Byte>, ok: bool)

  predicate CanGet(s: Reading, n: nat) { s.ok && n <= |s.unread| }

  function Get(s: Reading, n: nat): Reading
  {
    if CanGet(s, n) then Reading(s.unread[n..], true) else s.(ok := false)
  }

  /** The parts read before the first failure, and the state after all reads. */
  function GetAll(s: Reading, widths: seq<nat>): (Reading, seq<seq<Byte>>)
    decreases |widths|
  {
    if widths == [] then (s, [])
    else
      var rest := GetAll(Get(s, widths[0]), widths[1..]);
      if CanGet(s, widths[0]) then (rest.0, [s.unread[..widths[0]]] + rest.1) else rest
  }

  function Lengths(parts: seq<seq<Byte>>): (r: seq<nat>)
    ensures |r| == |parts|
  {
    if parts == [] then [] else [|parts[0]|] + Lengths(parts[1..])
  }

  lemma {:induction false} GetAllStuck(s: Reading, widths: seq<nat>)
    requires !s.ok
    ensures GetAll(s, widths) == (s, [])
    decreases |widths|
  {
    if widths != [] { GetAllStuck(s, widths[1..]); }
  }

  /** The first part of a message is read back when its bytes are there. */
  lemma GetHead(parts: seq<seq<Byte>>, cut: nat)
    requires parts != [] && |parts[0]| <= cut <= Total(parts)
    ensures var rest := GetAll(Reading(Concat(parts[1..])[..cut - |parts[0]|], true), Lengths(parts[1..]));
            GetAll(Reading(Concat(parts)[..cut], true), Lengths(parts)) == (rest.0, [parts[0]] + rest.1)
  {
    var bytes := Concat(parts)[..cut];
    assert bytes[..|parts[0]|] == parts[0];
    assert bytes[|parts[0]|..] == Concat(parts[1..])[..cut - |parts[0]|];
    assert Lengths(parts)[1..] == Lengths(parts[1..]);
  }

  /** Reading a whole message part by part returns the parts and completes. */
  lemma {:induction false} GetBack(parts: seq<seq<Byte>>)
    ensures GetAll(Reading(Concat(parts), true), Lengths(parts)) == (Reading([], true), parts)
    decreases |parts|
  {
    assert Concat(parts)[..Total(parts)] == Concat(parts);
    if parts != [] {
      GetHead(parts, Total(parts));
      GetBack(parts[1..]);
      assert Concat(parts[1..])[..Total(parts[1..])] == Concat(parts[1..]);
      assert [parts[0]] + parts[1..] == parts;
    }
  }

  /** A message that breaks off inside its part number k: whatever follows the whole
      parts, they are read back, and then the reader fails for good. */
  lemma {:induction false} GetBroken(parts: seq<seq<Byte>>, k: nat, rest: seq<Byte>)
    requires k < |parts| && |rest| < |parts[k]|
    ensures GetAll(Reading(Concat(parts[..k]) + rest, true), Lengths(parts)) == (Reading(rest, false), parts[..k])
    decreases |parts|
  {
    var bytes := Concat(parts[..k]) + rest;
    assert Lengths(parts)[1..] == Lengths(parts[1..]);
    if k == 0 {
      assert bytes == rest;
      GetAllStuck(Reading(rest, false), Lengths(parts[1..]));
    } else {
      assert parts[..k][1..] == parts[1..][..k - 1];
      assert bytes[..|parts[0]|] == parts[0];
      assert bytes[|parts[0]|..] == Concat(parts[1..][..k - 1]) + rest;
      GetBroken(parts[1..], k - 1, rest);
      assert parts[..k] == [parts[0]] + parts[1..][..k - 1];
    }
  }

  /** The part that a cut falls into. */
  lemma {:induction false} CutPart(parts: seq<seq<Byte>>, cut: nat) returns (k: nat)
    requires cut < Total(parts)
    ensures k < |parts| && Total(parts[..k]) <= cut < Total(parts[..k]) + |parts[k]|
    ensures Total(parts[..k + 1]) == Total(parts[..k]) + |parts[k]|
    ensures Concat(parts)[..Total(parts[..k])] == Concat(parts[..k])
    decreases |parts|
  {
    if |parts[0]| > cut {
      k := 0;
      TotalPrefix(parts, 0);
    } else {
      var m := CutPart(parts[1..], cut - |parts[0]|);
      k := m + 1;
      TotalPrefix(parts, m);
      TotalPrefix(parts, m + 1);
    }
  }

  /** A truncated message: the whole parts are read, then the reader fails for good. */
  lemma GetShort(parts: seq<seq<Byte>>, cut: nat) returns (k: nat)
    requires cut < Total(parts)
    ensures k < |parts| && Total(parts[..k]) <= cut < Total(parts[..k + 1])
    ensures GetAll(Reading(Concat(parts)[..cut], true), Lengths(parts))
            == (Reading(Concat(parts)[Total(parts[..k])..cut], false), parts[..k])
  {
    k := CutPart(parts, cut);
    var p := Total(parts[..k]);
    assert Concat(parts)[..cut] == Concat(parts[..k]) + Concat(parts)[p..cut];
    GetBroken(parts, k, Concat(parts)[p..cut]);
  }

  // ----- the size counter -----

  const SIZE_MAX: nat := 0xFFFF_FFFF_FFFF_FFFF

  datatype Counting = Counting(size: nat, ok: bool)

  function Add(s: Counting, n: nat): Counting
    requires s.size <= SIZE_MAX
  {
    if s.ok && n <= SIZE_MAX - s.size then Counting(s.size + n, true) else s.(ok := false)
  }

  function AddAll(s: Counting, widths: seq<nat>): Counting
    requires s.size <= SIZE_MAX
    decreases |widths|
  {
    if widths == [] then s else AddAll(Add(s, widths[0]), widths[1..])
  }

  /** The counter succeeds exactly when the total fits in std::size_t, and then it
      is the room that a writer of the parts needs. */
  lemma {:induction false} CountIsTotal(s: Counting, parts: seq<seq<Byte>>)
    requires s.size <= SIZE_MAX && s.ok
    ensures var c := AddAll(s, Lengths(parts));
            c.size <= SIZE_MAX && (c.ok <==> s.size + Total(parts) <= SIZE_MAX)
            && (c.ok ==> c.size == s.size + Total(parts))
    decreases |parts|
  {
    if parts != [] {
      var s' := Add(s, |parts[0]|);
      assert Lengths(parts)[1..] == Lengths(parts[1..]);
      if s'.ok { CountIsTotal(s', parts[1..]); } else { CountStuck(s', Lengths(parts[1..])); }
    }
  }

  lemma {:induction false} CountStuck(s: Counting, widths: seq<nat>)
    requires s.size <= SIZE_MAX && !s.ok
    ensures AddAll(s, widths) == s
    decreases |widths|
  {
    if widths != [] { CountStuck(s, widths[1..]); }
  }
}
