/** What holds over every run of BlockRing. */
module BlockRingRuns {
  import opened BlockMath
  import opened BlockRing
  import opened BlockRingProducer
  import opened BlockRingConsumer

  // ----- every step keeps the invariant -----

  lemma MarkKeepsInv<T>(s: State<T>, t: nat)
    requires Inv(s) && Marking(s, t)
    ensures Inv(ConsumeStep(s, t))
  {
    MarkStructure(s, t);
    MarkContents(s, t);
    if Adding(s.producer) { AddedIsOther(s, t); }
    MarkTail(s, t);
    MarkConsumers(s, t);
  }

  lemma LocalKeepsInv<T>(s: State<T>, t: nat)
    requires Inv(s) && t < |s.consumers| && ConsumerReady(s, s.consumers[t]) && Local(s.consumers[t])
    ensures Inv(ConsumeStep(s, t))
  {
    LocalConsumers(s, t);
    LocalShared(s, ConsumeStep(s, t));
  }

  lemma LocalShared<T>(s: State<T>, s': State<T>)
    requires Structure(s) && Contents(s) && TailOk(s) && s' == s.(consumers := s'.consumers)
    ensures Structure(s') && Contents(s') && TailOk(s')
  {
    StructureFrame(s, s');
  }

  lemma ConsumeKeepsInv<T>(s: State<T>, t: nat)
    requires Inv(s) && Enabled(s, Consume(t))
    ensures Inv(ConsumeStep(s, t))
  {
    if Local(s.consumers[t]) {
      LocalKeepsInv(s, t);
    } else {
      MarkKeepsInv(s, t);
    }
  }

  lemma ResetKeepsInv<T>(s: State<T>)
    requires Inv(s) && ProducerReady(s) && s.producer.EReset?
    ensures Inv(ProduceStep(s))
  {
    ResetStructure(s);
    ResetContents(s);
    ResetTail(s);
    ResetConsumers(s);
  }

  lemma EntryKeepsInv<T>(s: State<T>)
    requires Inv(s) && ProducerReady(s) && s.producer.EEntry?
    ensures Inv(ProduceStep(s))
  {
    EntryStructure(s);
    EntryTail(s);
    FrontConsumers(s);
  }

  lemma FrontKeepsInv<T>(s: State<T>)
    requires Inv(s) && ProducerReady(s) && s.producer.EFront?
    ensures Inv(ProduceStep(s))
  {
    FrontStructure(s);
    FrontContents(s);
    EntryTail(s);
    FrontConsumers(s);
  }

  lemma WriteKeepsInv<T>(s: State<T>)
    requires Inv(s) && ProducerReady(s) && (s.producer.EWrite? || s.producer.EPublish?)
    ensures Inv(ProduceStep(s))
  {
    WriteStructure(s);
    if s.producer.EWrite? { WriteContents(s); } else { PublishContents(s); }
    WriteTail(s);
    WriteConsumers(s);
  }

  lemma QuietKeepsInv<T>(s: State<T>, s': State<T>)
    requires Inv(s) && Quiet(s, s') && TailOk(s')
    ensures Inv(s')
  {
    StructureFrame(s, s');
    QuietConsumers(s, s');
  }

  lemma ProduceKeepsInv<T>(s: State<T>)
    requires Inv(s) && ProducerReady(s)
    ensures Inv(ProduceStep(s))
  {
    match s.producer
    case EReset(_) => ResetKeepsInv(s);
    case EEntry(_) => EntryKeepsInv(s);
    case EFront(_) => FrontKeepsInv(s);
    case EWrite(_) => WriteKeepsInv(s);
    case EPublish(_) => WriteKeepsInv(s);
    case ECheck(_, _) => CheckTail(s); QuietKeepsInv(s, ProduceStep(s));
    case EGrow(_) => CheckTail(s); QuietKeepsInv(s, ProduceStep(s));
  }

  lemma NewIndexKeepsInv<T>(s: State<T>, fill: seq<Entry>)
    requires Inv(s) && CanGrow(s, fill)
    ensures Inv(GrowIndex(s, fill))
  {
    NewIndexStructure(s, fill);
    NewIndexContents(s, fill);
    NewIndexConsumers(s, fill);
  }

  lemma NewBlockKeepsInv<T>(s: State<T>, block: Block<T>)
    requires Inv(s) && CanLink(s, block)
    ensures Inv(LinkBlock(s, block))
  {
    NewBlockStructure(s, block);
    NewBlockContents(s, block);
    NewBlockTail(s, block);
    NewBlockConsumers(s, block);
  }

  lemma CallKeepsInv<T>(s: State<T>, x: T)
    requires Inv(s) && s.producer.EIdle?
    ensures Inv(Call(s, x))
  {
    CallTail(s, x);
    QuietKeepsInv(s, Call(s, x));
  }

  lemma GiveUpKeepsInv<T>(s: State<T>)
    requires Inv(s) && (s.producer.EIndex? || s.producer.ENew?)
    ensures Inv(s.(producer := EIdle))
  {
    QuietKeepsInv(s, s.(producer := EIdle));
  }

  lemma StepKeepsInv<T>(s: State<T>, e: Event<T>)
    requires Inv(s) && Enabled(s, e)
    ensures Inv(Apply(s, e))
  {
    match e
    case Enqueue(x) => CallKeepsInv(s, x);
    case Produce => ProduceKeepsInv(s);
    case NewIndex(fill) => NewIndexKeepsInv(s, fill);
    case NewBlock(block) => NewBlockKeepsInv(s, block);
    case OutOfMemory => GiveUpKeepsInv(s);
    case TakeClaim(t, n) => ClaimKeepsInv(s, t, n);
    case Consume(t) => ConsumeKeepsInv(s, t);
  }

  lemma InitInv<T>(s: State<T>)
    requires Init(s)
    ensures Inv(s)
  {}

  lemma {:induction false} RunKeepsInv<T>(states: seq<State<T>>, events: seq<Event<T>>, i: nat)
    requires Run(states, events) && i < |states|
    ensures Inv(states[i])
  {
    if i == 0 {
      InitInv(states[0]);
    } else {
      RunKeepsInv(states, events, i - 1);
      StepKeepsInv(states[i - 1], events[i - 1]);
    }
  }

  // ----- what holds over every run -----

  lemma ProducerIsReady<T>(s: State<T>)
    requires Structure(s) && TailOk(s) && !s.producer.EIdle? && !s.producer.EIndex? && !s.producer.ENew?
    ensures ProducerReady(s)
  {
    match s.producer
    case ECheck(_, _) => NextIsOldest(s);
    case EReset(_) => NextIsOldest(s);
    case EWrite(_) => TailBlockIsNewest(s);
    case EEntry(_) => IndexIsReady(s);
    case _ =>
  }

  lemma IndexIsReady<T>(s: State<T>)
    requires IndexOk(s) && HeadersOk(s.headers, s.size, s.blocksOf) && |s.headers| > 0
    ensures CopyReady(s)
  {
    assert HeaderOk(s.headers[|s.headers| - 1], s.size, s.blocksOf);
  }

  lemma ConsumerIsReady<T>(s: State<T>, l: Consumer<T>)
    requires Structure(s) && Contents(s) && TailOk(s) && LocalOk(s, l) && !l.CIdle?
    ensures ConsumerReady(s, l)
  {
    match l
    case CHeader(c) => BelowTail(s, c.first);
    case CBase(c, k) =>
      assert HeaderOk(s.headers[k.h], s.size, s.blocksOf);
    case CBlock(c, h, slot, cur, got) =>
      assert HeaderOk(s.headers[h], s.size, s.blocksOf);
    case CRead(c, h, slot, b, from, cur, stop, got) =>
      if cur < stop { ReadsItsValue(s, l); }
    case CMark(_, _, _, _, _, _, _, _) => MarkIsReady(s, l);
    case _ =>
  }

  lemma MarkIsReady<T>(s: State<T>, l: Consumer<T>)
    requires Structure(s) && Contents(s) && TailOk(s) && LocalOk(s, l) && l.CMark?
    ensures ConsumerReady(s, l)
  {
    if l.from < l.j {
      assert !Marked(l, l.from);
      Pinned(s.size, s.lo, s.head, s.done, l.from);
      NumOff(s.size, l.j - 1);
      assert s.ring[Num(s.size, l.from) - s.lo] == l.b;
    }
  }

  /** Every pointer and index used by the next step of either side is in range:
      neither the producer nor any consumer can be stuck on a bad access. */
  lemma StepsAreDefined<T>(states: seq<State<T>>, events: seq<Event<T>>, i: nat)
    requires Run(states, events) && i < |states|
    ensures var s := states[i];
            && (s.producer.EIdle? || s.producer.EIndex? || s.producer.ENew? || ProducerReady(s))
            && (s.producer.EIndex? ==> s.slotsUsed <= s.indexSize + s.indexSize
                                       && (s.slotsUsed > 0 ==> CopyReady(s)))
            && (s.tailBlock.At? ==> TailInRange(s))
            && forall t: nat | t < |s.consumers| :: s.consumers[t].CIdle? || ConsumerReady(s, s.consumers[t])
  {
    RunKeepsInv(states, events, i);
    var s := states[i];
    if !s.producer.EIdle? && !s.producer.EIndex? && !s.producer.ENew? { ProducerIsReady(s); }
    if |s.headers| > 0 { IndexIsReady(s); }
    if s.tailBlock.At? { assert s.ring[|s.ring| - 1] < |s.blocks|; }
    forall t: nat | t < |s.consumers| && !s.consumers[t].CIdle? ensures ConsumerReady(s, s.consumers[t]) {
      assert LocalOk(s, s.consumers[t]);
      ConsumerIsReady(s, s.consumers[t]);
    }
  }

  /** A dequeue or bulk dequeue returns exactly the values enqueued at the indices
      it claimed, in order. */
  lemma ReadsInOrder<T>(states: seq<State<T>>, events: seq<Event<T>>, i: nat, t: nat)
    requires Run(states, events) && i < |states| && t < |states[i].consumers| && states[i].consumers[t].CDone?
    ensures var l := states[i].consumers[t];
            l.c.first <= l.c.end <= |states[i].log| && l.got == states[i].log[l.c.first..l.c.end]
  {
    RunKeepsInv(states, events, i);
    assert LocalOk(states[i], states[i].consumers[t]);
  }

  lemma StepGrows<T>(s: State<T>, e: Event<T>)
    requires Enabled(s, e)
    ensures s.head <= Apply(s, e).head && s.log <= Apply(s, e).log && s.size == Apply(s, e).size
    ensures |s.consumers| == |Apply(s, e).consumers|
  {}

  lemma {:induction false} RunGrows<T>(states: seq<State<T>>, events: seq<Event<T>>, i: nat, j: nat)
    requires Run(states, events) && i <= j < |states|
    ensures states[i].head <= states[j].head && states[i].log <= states[j].log
    decreases j
  {
    if i < j {
      RunGrows(states, events, i, j - 1);
      StepGrows(states[j - 1], events[j - 1]);
    }
  }

  /** Claims follow one another: what an earlier claim covers lies before what a
      later one does. With ReadsInOrder, the queue is first in, first out. */
  lemma ClaimsFollow<T>(states: seq<State<T>>, events: seq<Event<T>>, i: nat, j: nat)
    requires Run(states, events) && i < j < |events| && events[i].TakeClaim? && events[j].TakeClaim?
    ensures var c, d := states[i + 1].consumers[events[i].t], states[j + 1].consumers[events[j].t];
            c.CHeader? && d.CHeader? && c.c.end <= d.c.first
  {
    RunGrows(states, events, i + 1, j);
    assert states[i + 1] == Apply(states[i], events[i]) && states[j + 1] == Apply(states[j], events[j]);
  }

  /** For every live index, the lookup in the current index, from the published
      front slot, returns the block whose base is that index rounded down, and
      that block holds the value enqueued at the index. */
  lemma LookupFindsBlock<T>(states: seq<State<T>>, events: seq<Event<T>>, k: nat, i: nat)
    requires Run(states, events) && k < |states| && states[k].head <= i < states[k].tail
    ensures var s := states[k];
            s.size > 0 && |s.headers| > 0 &&
            var h := Current(s);
            0 < h.size == |h.entries| && 0 <= h.front < h.size &&
            var slot := SlotFor(s.size, h.size, h.front, h.entries[h.front].base, i);
            0 <= slot < h.size && h.entries[slot].base == i - i % s.size
            && h.entries[slot].block < |s.blocks|
            && |s.blocks[h.entries[slot].block].data| == s.size && i < |s.log|
            && s.blocks[h.entries[slot].block].data[i % s.size] == s.log[i]
  {
    RunKeepsInv(states, events, k);
    var s := states[k];
    LiveIndex(s, i);
    var h, q := Current(s), Num(s.size, i);
    assert HeaderOk(s.headers[|s.headers| - 1], s.size, s.blocksOf);
    assert EntryOk(h, s.size, s.blocksOf, h.hi - 1);
    SlotFound(h, s.size, s.blocksOf, h.hi - 1, i);
    assert EntryOk(h, s.size, s.blocksOf, q);
    assert ValueOk(s.blocks, s.size, s.blocksOf, s.log, i);
    NumOff(s.size, i);
    NumIsQuotient(s.size, i);
  }

  lemma LiveIndex<T>(s: State<T>, i: nat)
    requires IndexOk(s) && Contents(s) && TailOk(s) && s.head <= i < s.tail
    ensures i !in s.done && s.lo <= Num(s.size, i) < |s.blocksOf| && |s.headers| > 0
  {
    Pinned(s.size, s.lo, s.head, s.done, i);
    BelowTail(s, i);
  }

  /** A block is reused only when every index it held was claimed and marked
      empty, and no consumer still reads from it or sets its flags. */
  lemma ReusedBlockIsDrained<T>(states: seq<State<T>>, events: seq<Event<T>>, k: nat)
    requires Run(states, events) && k < |states| && states[k].producer.EReset?
    ensures var s := states[k];
            && s.size > 0 && s.lo < |s.blocksOf| && TailInRange(s) && Next(s) == s.blocksOf[s.lo]
            && (forall i: nat | i < Start(s.size, s.lo + 1) :: i in s.done && i < s.head)
            && (forall t: nat | t < |s.consumers| :: !Uses(s.consumers[t], Next(s)))
  {
    RunKeepsInv(states, events, k);
    var s := states[k];
    ReuseIsDrained(s);
    NextIsOldest(s);
    forall t: nat | t < |s.consumers| ensures !Uses(s.consumers[t], Next(s)) {
      assert LocalOk(s, s.consumers[t]);
      UsesNewer(s, s.consumers[t]);
    }
  }

  /** With the oldest block drained, consumers need only newer ones. */
  lemma UsesNewer<T>(s: State<T>, l: Consumer<T>)
    requires Structure(s) && LocalOk(s, l) && s.lo < |s.blocksOf|
    requires forall i: nat | i < Start(s.size, s.lo + 1) :: i in s.done
    ensures !Uses(l, s.blocksOf[s.lo])
  {
    if l.CRead? || (l.CMark? && l.from < l.j) {
      assert !Marked(l, l.from) && l.from !in s.done;
      NumAtLeast(s.size, l.from, s.lo + 1);
      RingDistinct(s, s.lo, Num(s.size, l.from));
    }
  }

  /** The consumer is still to read from block b or to mark slots in it. */
  predicate Uses<T>(l: Consumer<T>, b: nat)
  {
    (l.CRead? && l.b == b) || (l.CMark? && l.from < l.j && l.b == b)
  }
}
