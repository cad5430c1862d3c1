/** The steps of the producer of BlockRing keep its invariant: reuse of the oldest
    block, insertion of a new one, a larger index, publication, and writing. */
module BlockRingProducer {
  import opened BlockMath
  import opened BlockRing

  // ----- calls and checks -----

  lemma CallTail<T>(s: State<T>, x: T)
    requires Structure(s) && TailOk(s) && s.producer.EIdle?
    ensures TailOk(Call(s, x)) && Quiet(s, Call(s, x))
  {
    if s.tailBlock.At? { NextIsOldest(s); }
    NumOfStart(s.size, |s.blocksOf|, 0);
    if Inside(s) && Start(s.size, |s.blocksOf| - 1) < s.tail {
      NumOfStart(s.size, |s.blocksOf| - 1, s.tail - Start(s.size, |s.blocksOf| - 1));
    }
  }

  lemma CheckTail<T>(s: State<T>)
    requires Structure(s) && TailOk(s) && ProducerReady(s) && (s.producer.ECheck? || s.producer.EGrow?)
    ensures TailOk(ProduceStep(s)) && Quiet(s, ProduceStep(s))
  {
    if s.producer.ECheck? { NextIsOldest(s); }
  }

  // ----- reuse of the oldest block -----

  /** A block is reused only after every index in it was marked empty. */
  lemma ReuseIsDrained<T>(s: State<T>)
    requires Contents(s) && TailOk(s) && s.producer.EReset?
    ensures s.lo < |s.blocksOf|
    ensures forall i: nat | i < Start(s.size, s.lo + 1) :: i in s.done
  {
    forall i: nat | i < Start(s.size, s.lo + 1) ensures i in s.done {
      if Start(s.size, s.lo) <= i {
        var o := i - Start(s.size, s.lo);
        assert FlagOk(s.blocks, s.size, s.blocksOf, s.done, s.lo, o);
      }
    }
  }

  lemma RotateRing<T>(ring: seq<nat>, blocks: seq<Block<T>>, blocks': seq<Block<T>>)
    requires |ring| > 0 && RingOk(ring, blocks) && |blocks'| == |blocks|
    requires forall b | 0 <= b < |blocks| :: blocks'[b].next == blocks[b].next
    ensures RingOk(Rotated(ring), blocks')
  {
    var r := Rotated(ring);
    forall j, k | 0 <= j < k < |r| && k == j + 1 ensures blocks'[r[j]].next == r[k] {
      if k < |ring| - 1 { assert blocks[ring[j + 1]].next == ring[k + 1]; }
    }
  }

  lemma HeaderShrinks(h: Header, h': Header, size: nat, blocksOf: seq<nat>)
    requires HeaderOk(h, size, blocksOf) && h.lo < h.hi && h' == h.(lo := h.lo + 1)
    ensures HeaderOk(h', size, blocksOf)
  {
    forall q: nat | h'.lo <= q < h'.hi ensures EntryOk(h', size, blocksOf, q) {
      assert EntryOk(h, size, blocksOf, q);
    }
  }

  lemma ResetHeaders<T>(s: State<T>)
    requires IndexOk(s) && HeadersOk(s.headers, s.size, s.blocksOf) && s.lo < |s.blocksOf|
    requires ProducerReady(s) && s.producer.EReset?
    ensures HeadersOk(ProduceStep(s).headers, s.size, s.blocksOf)
  {
    var s' := ProduceStep(s);
    forall h: nat | h < |s'.headers| ensures HeaderOk(s'.headers[h], s.size, s.blocksOf) {
      assert HeaderOk(s.headers[h], s.size, s.blocksOf);
      if h == |s.headers| - 1 { HeaderShrinks(s.headers[h], s'.headers[h], s.size, s.blocksOf); }
    }
  }

  lemma ResetIndex<T>(s: State<T>)
    requires IndexOk(s) && s.lo < |s.blocksOf| && ProducerReady(s) && s.producer.EReset? && Next(s) == s.blocksOf[s.lo]
    ensures IndexOk(ProduceStep(s)) && ProduceStep(s).ring == Rotated(s.ring)
  {}

  lemma ResetStructure<T>(s: State<T>)
    requires Structure(s) && TailOk(s) && ProducerReady(s) && s.producer.EReset?
    ensures Structure(ProduceStep(s))
  {
    NextIsOldest(s);
    ResetIndex(s);
    ResetHeaders(s);
    RotateRing(s.ring, s.blocks, ProduceStep(s).blocks);
  }

  /** Clearing the flags of the oldest block does not disturb the others. */
  lemma ResetContents<T>(s: State<T>)
    requires Structure(s) && Contents(s) && TailOk(s) && ProducerReady(s) && s.producer.EReset?
    ensures Contents(ProduceStep(s))
  {
    ReuseIsDrained(s);
    NextIsOldest(s);
    var s' := ProduceStep(s);
    forall q: nat, o: nat | s.lo + 1 <= q < |s.blocksOf| && o < s.size
      ensures FlagOk(s'.blocks, s.size, s.blocksOf, s.done, q, o)
    {
      assert FlagOk(s.blocks, s.size, s.blocksOf, s.done, q, o);
      assert s.ring[0] != s.ring[q - s.lo];
    }
    SameData(s, s');
  }

  lemma ResetConsumers<T>(s: State<T>)
    requires Contents(s) && TailOk(s) && Consumers(s) && ProducerReady(s) && s.producer.EReset?
    ensures Consumers(ProduceStep(s))
  {
    ReuseIsDrained(s);
    var s' := ProduceStep(s);
    forall t: nat | t < |s.consumers| ensures Extends(s, s', s.consumers[t]) {
      var l := s.consumers[t];
      assert LocalOk(s, l);
      assert From(l) < To(l) ==> From(l) !in s.done;
      NumAtLeast(s.size, From(l), s.lo + 1);
    }
    ConsumersFrame(s, s');
  }

  lemma ResetTail<T>(s: State<T>)
    requires Structure(s) && TailOk(s) && ProducerReady(s) && s.producer.EReset?
    ensures TailOk(ProduceStep(s))
  {
    NextIsOldest(s);
  }

  // ----- a new block -----

  lemma InsertRing<T>(ring: seq<nat>, blocks: seq<Block<T>>, blocks': seq<Block<T>>, b: nat)
    requires RingOk(ring, blocks) && b == |blocks| && |blocks'| == b + 1
    requires blocks'[b].next == if |ring| > 0 then ring[0] else b
    requires |ring| > 0 ==> blocks'[ring[|ring| - 1]].next == b
    requires forall c | 0 <= c < |blocks| && (|ring| == 0 || c != ring[|ring| - 1]) :: blocks'[c].next == blocks[c].next
    ensures RingOk(ring + [b], blocks')
  {
    var r := ring + [b];
    forall j, k | 0 <= j < k < |r| && k == j + 1 ensures blocks'[r[j]].next == r[k] {
      if k < |ring| { assert blocks[ring[j]].next == ring[k]; }
    }
  }

  lemma NewBlockStructure<T>(s: State<T>, block: Block<T>)
    requires Structure(s) && TailOk(s) && CanLink(s, block)
    ensures Structure(LinkBlock(s, block))
  {
    var s' := LinkBlock(s, block);
    if s.tailBlock.At? { NextIsOldest(s); }
    InsertRing(s.ring, s.blocks, s'.blocks, |s.blocks|);
  }

  lemma NewBlockContents<T>(s: State<T>, block: Block<T>)
    requires Contents(s) && CanLink(s, block)
    ensures Contents(LinkBlock(s, block))
  {
    var s' := LinkBlock(s, block);
    forall q: nat, o: nat | s.lo <= q < |s.blocksOf| && o < s.size
      ensures FlagOk(s'.blocks, s.size, s.blocksOf, s.done, q, o)
    {
      assert FlagOk(s.blocks, s.size, s.blocksOf, s.done, q, o);
    }
    SameData(s, s');
  }

  lemma NewBlockConsumers<T>(s: State<T>, block: Block<T>)
    requires Consumers(s) && CanLink(s, block)
    ensures Consumers(LinkBlock(s, block))
  {
    ConsumersFrame(s, LinkBlock(s, block));
  }

  lemma NewBlockTail<T>(s: State<T>, block: Block<T>)
    requires Structure(s) && TailOk(s) && CanLink(s, block)
    ensures TailOk(LinkBlock(s, block))
  {}

  // ----- a larger index -----

  lemma {:induction false} CopiedAt(entries: seq<Entry>, front: nat, used: nat, j: nat)
    requires front < |entries| && j < used <= |entries|
    ensures Copied(entries, front, used)[j] == entries[Around(front - used + j, |entries|)]
    decreases used
  {
    if j > 0 { CopiedAt(entries, front, used - 1, j - 1); }
  }

  /** The copied entries put the ring's block numbers in order from slot 0. */
  lemma CopiedEntries(h: Header, size: nat, blocksOf: seq<nat>, front: nat, j: nat)
    requires HeaderOk(h, size, blocksOf) && front == Slot(h.size, h.origin, h.hi) < h.size && j < h.hi - h.lo
    ensures Copied(h.entries, front, h.hi - h.lo)[j] == Entry(Start(size, h.lo + j), blocksOf[h.lo + j])
  {
    CopiedAt(h.entries, front, h.hi - h.lo, j);
    SlotMove(h.size, h.origin, h.hi, h.lo + j);
    AroundIsRemainder(front - (h.hi - h.lo) + j, h.size);
    assert EntryOk(h, size, blocksOf, h.lo + j);
  }

  lemma NewHeader(h: Header, h': Header, size: nat, blocksOf: seq<nat>, front: nat,
      copied: seq<Entry>, rest: seq<Entry>)
    requires HeaderOk(h, size, blocksOf) && front == Slot(h.size, h.origin, h.hi) < h.size
    requires copied == Copied(h.entries, front, h.hi - h.lo)
    requires h' == Header(|copied + rest|, |copied| - 1, copied + rest, h.lo, h.lo, h.hi) && h'.size > 0
    ensures HeaderOk(h', size, blocksOf)
  {
    forall q: nat | h.lo <= q < h.hi ensures EntryOk(h', size, blocksOf, q) {
      CopiedEntries(h, size, blocksOf, front, q - h.lo);
    }
  }

  lemma UsedSlots<T>(s: State<T>)
    requires IndexOk(s) && !Adding(s.producer)
    ensures s.slotsUsed == |s.blocksOf| - s.lo
  {
  }

  lemma NewIndexHeader<T>(s: State<T>, fill: seq<Entry>)
    requires IndexOk(s) && HeadersOk(s.headers, s.size, s.blocksOf) && !Adding(s.producer) && CanGrow(s, fill)
    ensures HeaderOk(Current(GrowIndex(s, fill)), s.size, s.blocksOf)
  {
    UsedSlots(s);
    var s' := GrowIndex(s, fill);
    if s.slotsUsed > 0 {
      assert HeaderOk(s.headers[|s.headers| - 1], s.size, s.blocksOf);
      var copied := Copied(Current(s).entries, s.indexFront, s.slotsUsed);
      NewHeader(Current(s), Current(s'), s.size, s.blocksOf, s.indexFront, copied, fill[s.slotsUsed..]);
    }
  }

  lemma GrownShape<T>(s: State<T>, s': State<T>, h: Header)
    requires IndexOk(s) && !Adding(s.producer) && s.slotsUsed == |s.blocksOf| - s.lo
    requires s' == s.(headers := s.headers + [h], indexSize := s'.indexSize, indexFront := s.slotsUsed,
                      producer := s'.producer)
    requires s'.producer.ENew? && h.size == s'.indexSize == s.indexSize + s.indexSize && s.slotsUsed <= s.indexSize
    requires h.origin == h.lo == s.lo && h.hi == |s.blocksOf|
    ensures IndexOk(s')
  {}

  lemma NewIndexStructure<T>(s: State<T>, fill: seq<Entry>)
    requires Structure(s) && !Adding(s.producer) && CanGrow(s, fill)
    ensures Structure(GrowIndex(s, fill))
  {
    var s' := GrowIndex(s, fill);
    UsedSlots(s);
    NewIndexHeader(s, fill);
    GrownStructure(s, s', Current(s'));
  }

  lemma GrownStructure<T>(s: State<T>, s': State<T>, h: Header)
    requires Structure(s) && !Adding(s.producer) && s.slotsUsed == |s.blocksOf| - s.lo
    requires s' == s.(headers := s.headers + [h], indexSize := s'.indexSize, indexFront := s.slotsUsed,
                      producer := s'.producer)
    requires s'.producer.ENew? && h.size == s'.indexSize == s.indexSize + s.indexSize && s.slotsUsed <= s.indexSize
    requires h.origin == h.lo == s.lo && h.hi == |s.blocksOf| && HeaderOk(h, s.size, s.blocksOf)
    ensures Structure(s')
  {
    GrownShape(s, s', h);
  }

  lemma NewIndexContents<T>(s: State<T>, fill: seq<Entry>)
    requires Contents(s) && TailOk(s) && CanGrow(s, fill)
    ensures Contents(GrowIndex(s, fill)) && TailOk(GrowIndex(s, fill))
  {}

  lemma NewIndexConsumers<T>(s: State<T>, fill: seq<Entry>)
    requires Consumers(s) && CanGrow(s, fill)
    ensures Consumers(GrowIndex(s, fill))
  {
    ConsumersFrame(s, GrowIndex(s, fill));
  }

  // ----- publishing a block -----

  lemma EntryStructure<T>(s: State<T>)
    requires Structure(s) && TailOk(s) && ProducerReady(s) && s.producer.EEntry?
    ensures Structure(ProduceStep(s))
  {
    var s' := ProduceStep(s);
    forall h: nat | h < |s'.headers| ensures HeaderOk(s'.headers[h], s.size, s.blocksOf) {
      assert HeaderOk(s.headers[h], s.size, s.blocksOf);
      if h == |s.headers| - 1 { OverwriteFree(s.headers[h], s'.headers[h], s.size, s.blocksOf); }
    }
  }

  /** The slot after the newest block is free: overwriting it disturbs no entry. */
  lemma OverwriteFree(h: Header, h': Header, size: nat, blocksOf: seq<nat>)
    requires HeaderOk(h, size, blocksOf) && h.hi - h.lo < h.size
    requires h' == h.(entries := h'.entries) && |h'.entries| == |h.entries|
    requires forall j | 0 <= j < |h.entries| && j != Slot(h.size, h.origin, h.hi) :: h'.entries[j] == h.entries[j]
    ensures HeaderOk(h', size, blocksOf)
  {
    forall q: nat | h.lo <= q < h.hi ensures EntryOk(h', size, blocksOf, q) {
      assert EntryOk(h, size, blocksOf, q);
      OffsDiffer(h.size, q - h.origin, h.hi - h.origin);
    }
  }

  lemma FrontStructure<T>(s: State<T>)
    requires Structure(s) && TailOk(s) && ProducerReady(s) && s.producer.EFront?
    ensures Structure(ProduceStep(s))
  {
    var s' := ProduceStep(s);
    var hi := |s.blocksOf|;
    SlotAfter(s.indexSize, Current(s).origin, hi);
    forall h: nat | h < |s'.headers| ensures HeaderOk(s'.headers[h], s.size, s'.blocksOf) {
      assert HeaderOk(s.headers[h], s.size, s.blocksOf);
      if h == |s.headers| - 1 {
        PublishEntry(s.headers[h], s'.headers[h], s.size, s.blocksOf, s'.blocksOf);
      } else {
        HeaderKept(s.headers[h], s.size, s.blocksOf, s'.blocksOf);
      }
    }
  }

  lemma HeaderKept(h: Header, size: nat, blocksOf: seq<nat>, blocksOf': seq<nat>)
    requires HeaderOk(h, size, blocksOf) && blocksOf <= blocksOf'
    ensures HeaderOk(h, size, blocksOf')
  {
    forall q: nat | h.lo <= q < h.hi ensures EntryOk(h, size, blocksOf', q) {
      assert EntryOk(h, size, blocksOf, q);
    }
  }

  lemma PublishEntry(h: Header, h': Header, size: nat, blocksOf: seq<nat>, blocksOf': seq<nat>)
    requires HeaderOk(h, size, blocksOf) && h.hi - h.lo < h.size && h.hi == |blocksOf|
    requires blocksOf <= blocksOf' && |blocksOf'| == |blocksOf| + 1
    requires Slot(h.size, h.origin, h.hi) < |h.entries|
    requires h.entries[Slot(h.size, h.origin, h.hi)] == Entry(Start(size, h.hi), blocksOf'[h.hi])
    requires h' == h.(front := Slot(h.size, h.origin, h.hi), hi := h.hi + 1)
    ensures HeaderOk(h', size, blocksOf')
  {
    forall q: nat | h.lo <= q < h'.hi ensures EntryOk(h', size, blocksOf', q) {
      if q < h.hi { assert EntryOk(h, size, blocksOf, q); }
    }
  }

  lemma FrontContents<T>(s: State<T>)
    requires Structure(s) && Contents(s) && TailOk(s) && ProducerReady(s) && s.producer.EFront?
    ensures Contents(ProduceStep(s))
  {
    var s' := ProduceStep(s);
    forall q: nat, o: nat | s.lo <= q < |s'.blocksOf| && o < s.size
      ensures FlagOk(s.blocks, s.size, s'.blocksOf, s.done, q, o)
    {
      if q < |s.blocksOf| {
        assert FlagOk(s.blocks, s.size, s.blocksOf, s.done, q, o);
      } else {
        assert Start(s.size, q) + o !in s.done;
      }
    }
    SameData(s, s');
  }

  lemma FrontConsumers<T>(s: State<T>)
    requires Structure(s) && Consumers(s) && ProducerReady(s) && (s.producer.EFront? || s.producer.EEntry?)
    ensures Consumers(ProduceStep(s))
  {
    ConsumersFrame(s, ProduceStep(s));
  }

  lemma EntryTail<T>(s: State<T>)
    requires Structure(s) && TailOk(s) && ProducerReady(s) && (s.producer.EFront? || s.producer.EEntry?)
    ensures TailOk(ProduceStep(s))
  {
  }

  // ----- writing an element -----

  lemma TailBlockIsNewest<T>(s: State<T>)
    requires Structure(s) && TailOk(s) && (s.producer.EWrite? || s.producer.EPublish?)
    ensures TailInRange(s) && s.lo <= |s.blocksOf| - 1 && s.tailBlock.block == s.blocksOf[|s.blocksOf| - 1]
    ensures Num(s.size, s.tail) == |s.blocksOf| - 1 && Off(s.size, s.tail) < s.size
  {
    NumOfStart(s.size, |s.blocksOf| - 1, s.tail - Start(s.size, |s.blocksOf| - 1));
  }

  lemma WriteStructure<T>(s: State<T>)
    requires Structure(s) && ProducerReady(s) && (s.producer.EWrite? || s.producer.EPublish?)
    ensures Structure(ProduceStep(s))
  {
    StructureFrame(s, ProduceStep(s));
  }

  /** Writing the slot of the tail touches no slot of an index below it. */
  lemma WriteContents<T>(s: State<T>)
    requires Structure(s) && Contents(s) && TailOk(s) && ProducerReady(s) && s.producer.EWrite?
    ensures Contents(ProduceStep(s))
  {
    var s' := ProduceStep(s);
    forall q: nat, o: nat | s.lo <= q < |s.blocksOf| && o < s.size
      ensures FlagOk(s'.blocks, s.size, s.blocksOf, s.done, q, o)
    {
      assert FlagOk(s.blocks, s.size, s.blocksOf, s.done, q, o);
    }
    WriteData(s);
  }

  lemma WriteData<T>(s: State<T>)
    requires Structure(s) && Contents(s) && TailOk(s) && ProducerReady(s) && s.producer.EWrite?
    ensures DataOk(ProduceStep(s).blocks, s.size, s.blocksOf, s.lo, s.done, s.log)
  {
    TailBlockIsNewest(s);
    var s' := ProduceStep(s);
    forall i: nat | i < |s.log| && s.lo <= Num(s.size, i) && i !in s.done
      ensures ValueOk(s'.blocks, s.size, s.blocksOf, s.log, i)
    {
      assert ValueOk(s.blocks, s.size, s.blocksOf, s.log, i);
      NumOff(s.size, i);
      NumOff(s.size, s.tail);
      if Num(s.size, i) < |s.blocksOf| - 1 { RingDistinct(s, Num(s.size, i), |s.blocksOf| - 1); }
    }
  }

  lemma PublishContents<T>(s: State<T>)
    requires Structure(s) && Contents(s) && TailOk(s) && ProducerReady(s) && s.producer.EPublish?
    ensures Contents(ProduceStep(s))
  {
    TailBlockIsNewest(s);
    var s' := ProduceStep(s);
    forall i: nat | i < |s'.log| && s.lo <= Num(s.size, i) && i !in s.done
      ensures ValueOk(s.blocks, s.size, s.blocksOf, s'.log, i)
    {
      if i < |s.log| { assert ValueOk(s.blocks, s.size, s.blocksOf, s.log, i); }
    }
  }

  lemma WriteConsumers<T>(s: State<T>)
    requires Consumers(s) && ProducerReady(s) && (s.producer.EWrite? || s.producer.EPublish?)
    ensures Consumers(ProduceStep(s))
  {
    ConsumersFrame(s, ProduceStep(s));
  }

  lemma WriteTail<T>(s: State<T>)
    requires Structure(s) && TailOk(s) && ProducerReady(s) && (s.producer.EWrite? || s.producer.EPublish?)
    ensures TailOk(ProduceStep(s))
  {
    TailBlockIsNewest(s);
  }

  // ----- the copy loop of new_block_index -----

  /** The copy loop in place: a do-while over the circle that also copies a full
      index, where the first slot copied is the one that ends the loop. */
  method CopyEntries(entries: array<Entry>, front: nat, used: nat, target: array<Entry>) returns (j: nat)
    requires 0 < used <= entries.Length <= target.Length && front < entries.Length && entries != target
    modifies target
    ensures j == used
    ensures target[..used] == Copied(entries[..], front, used)
    ensures target[used..] == old(target[used..])
  {
    var n := entries.Length;
    AroundIsRemainder(front - used, n);
    var i := (front - used) % n;
    j := 0;
    var more := true;
    while more
      invariant j <= used && (more <==> j < used)
      invariant i == Around(front - used + j, n)
      invariant forall k | 0 <= k < j :: target[k] == entries[Around(front - used + k, n)]
      invariant target[used..] == old(target[used..])
      decreases used - j
    {
      target[j] := entries[i];
      j := j + 1;
      AroundIsRemainder(i + 1, n);
      i := (i + 1) % n;
      more := i != front;
    }
    forall k | 0 <= k < used ensures target[k] == Copied(entries[..], front, used)[k] {
      CopiedAt(entries[..], front, used, k);
    }
  }
}
