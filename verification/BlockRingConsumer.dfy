/** The steps of a consumer of BlockRing keep its invariant: claiming, looking a
    block up in an index of any age, reading, and marking slots empty. */
module BlockRingConsumer {
  import opened BlockMath
  import opened BlockRing

  // ----- consumer steps -----

  lemma BlockEndInside(size: nat, cur: nat, end: nat)
    requires size > 0 && cur < end
    ensures cur < BlockEnd(size, cur, end) <= end
    ensures BlockEnd(size, cur, end) < end ==> Num(size, BlockEnd(size, cur, end)) == Num(size, cur) + 1
    ensures forall i: nat | cur <= i < BlockEnd(size, cur, end) :: Num(size, i) == Num(size, cur)
  {
    NumOff(size, cur);
    NumOfStart(size, Num(size, cur) + 1, 0);
    forall i: nat | cur <= i < BlockEnd(size, cur, end) ensures Num(size, i) == Num(size, cur) {
      NumOfStart(size, Num(size, cur), i - Start(size, Num(size, cur)));
    }
  }

  /** The header a consumer loads covers its claim. */
  lemma HeaderCovers<T>(s: State<T>, l: Consumer<T>)
    requires IndexOk(s) && Contents(s) && TailOk(s) && LocalOk(s, l) && ConsumerReady(s, l) && l.CHeader?
    ensures LocalOk(s, NextLocal(s, l))
  {
    assert l.c.first !in s.done;
    Pinned(s.size, s.lo, s.head, s.done, l.c.first);
    BelowTail(s, l.c.end - 1);
  }

  lemma FrontCovers<T>(s: State<T>, l: Consumer<T>)
    requires HeadersOk(s.headers, s.size, s.blocksOf) && s.size > 0 && LocalOk(s, l) && ConsumerReady(s, l) && l.CFront?
    ensures LocalOk(s, NextLocal(s, l))
  {
    NumMono(s.size, l.c.first, l.c.end - 1);
    assert HeaderOk(s.headers[l.h], s.size, s.blocksOf);
  }

  /** The slot computed from the front slot's base is that of the claim's block. */
  lemma SlotFound(h: Header, size: nat, blocksOf: seq<nat>, newest: nat, cur: nat)
    requires size > 0 && HeaderOk(h, size, blocksOf) && h.lo <= newest < h.hi && h.lo <= Num(size, cur)
    ensures SlotFor(size, h.size, Slot(h.size, h.origin, newest), Start(size, newest), cur)
            == Slot(h.size, h.origin, Num(size, cur))
  {
    BlockDistance(size, newest, Num(size, cur));
    SlotMove(h.size, h.origin, newest, Num(size, cur));
  }

  lemma BaseSlot(h: Header, size: nat, blocksOf: seq<nat>, k: Lookup, c: Claim)
    requires size > 0 && HeaderOk(h, size, blocksOf) && c.first < c.end
    requires h.lo <= Num(size, c.first) <= k.newest < h.hi
    requires k.f == Slot(h.size, h.origin, k.newest) && 0 <= k.f < h.size
    ensures SlotFor(size, h.size, k.f, h.entries[k.f].base, c.first) == Slot(h.size, h.origin, Num(size, c.first))
  {
    assert EntryOk(h, size, blocksOf, k.newest);
    SlotFound(h, size, blocksOf, k.newest, c.first);
  }

  lemma BaseFinds<T>(s: State<T>, l: Consumer<T>)
    requires HeadersOk(s.headers, s.size, s.blocksOf) && s.size > 0 && LocalOk(s, l) && ConsumerReady(s, l) && l.CBase?
    requires s.head <= |s.log|
    ensures LocalOk(s, NextLocal(s, l))
  {
    assert HeaderOk(s.headers[l.k.h], s.size, s.blocksOf);
    NumMono(s.size, l.c.first, l.c.end - 1);
    BaseSlot(s.headers[l.k.h], s.size, s.blocksOf, l.k, l.c);
  }

  lemma BlockFound<T>(s: State<T>, l: Consumer<T>)
    requires HeadersOk(s.headers, s.size, s.blocksOf) && s.size > 0 && LocalOk(s, l) && ConsumerReady(s, l) && l.CBlock?
    ensures LocalOk(s, NextLocal(s, l))
  {
    var h := s.headers[l.h];
    assert HeaderOk(h, s.size, s.blocksOf);
    NumMono(s.size, l.cur, l.c.end - 1);
    assert EntryOk(h, s.size, s.blocksOf, Num(s.size, l.cur));
    BlockEndInside(s.size, l.cur, l.c.end);
  }

  /** A read returns the value enqueued at its index. */
  lemma ReadsItsValue<T>(s: State<T>, l: Consumer<T>)
    requires Contents(s) && TailOk(s) && LocalOk(s, l) && l.CRead? && l.cur < l.stop
    ensures l.cur < |s.log| && l.b < |s.blocks| && Off(s.size, l.cur) < |s.blocks[l.b].data|
    ensures s.blocks[l.b].data[Off(s.size, l.cur)] == s.log[l.cur]
  {
    BlockEndInside(s.size, l.from, l.c.end);
    Pinned(s.size, s.lo, s.head, s.done, l.cur);
    assert ValueOk(s.blocks, s.size, s.blocksOf, s.log, l.cur);
  }

  lemma ReadLocal<T>(s: State<T>, l: Consumer<T>)
    requires Contents(s) && TailOk(s) && LocalOk(s, l) && ConsumerReady(s, l) && l.CRead?
    ensures LocalOk(s, NextLocal(s, l))
  {
    if l.cur < l.stop { ReadsItsValue(s, l); }
  }

  /** The block after the one just emptied has the next slot. */
  lemma NextSlot<T>(s: State<T>, l: Consumer<T>)
    requires s.size > 0 && LocalOk(s, l) && ConsumerReady(s, l) && l.CMark? && l.from == l.j
    ensures LocalOk(s, NextLocal(s, l))
  {
    BlockEndInside(s.size, l.from, l.c.end);
    if l.stop < l.c.end {
      SlotAfter(s.headers[l.h].size, s.headers[l.h].origin, Num(s.size, l.from));
    }
  }

  /** Steps other than setting a flag change only the consumer. */
  ghost predicate Local<T>(l: Consumer<T>) { !(l.CMark? && l.from < l.j) }

  lemma LocalKept<T>(s: State<T>, l: Consumer<T>)
    requires Structure(s) && Contents(s) && TailOk(s) && LocalOk(s, l) && ConsumerReady(s, l) && Local(l)
    ensures LocalOk(s, NextLocal(s, l))
  {
    match l
    case CHeader(_) => HeaderCovers(s, l);
    case CFront(_, _) => FrontCovers(s, l);
    case CBase(_, _) => BaseFinds(s, l);
    case CBlock(_, _, _, _, _) => BlockFound(s, l);
    case CRead(_, _, _, _, _, _, _, _) => ReadLocal(s, l);
    case CMark(_, _, _, _, _, _, _, _) => NextSlot(s, l);
    case CDone(_, _) =>
  }

  /** A consumer's needs only shrink. */
  lemma NeedsShrink<T>(s: State<T>, l: Consumer<T>)
    requires s.size > 0 && LocalOk(s, l) && ConsumerReady(s, l)
    ensures From(NextLocal(s, l)) == To(NextLocal(s, l)) || From(l) <= From(NextLocal(s, l))
    ensures To(NextLocal(s, l)) <= To(l)
  {
    if l.CMark? && l.from == l.j - 1 { BlockEndInside(s.size, l.from, l.c.end); }
  }

  lemma DisjointKept<T>(ls: seq<Consumer<T>>, t: nat, l: Consumer<T>)
    requires Disjoint(ls) && t < |ls|
    requires To(l) <= From(l) || (From(ls[t]) <= From(l) && To(l) <= To(ls[t]))
    ensures Disjoint(ls[t := l])
  {
    var ls' := ls[t := l];
    forall u, v | 0 <= u < v < |ls| ensures Apart(ls'[u], ls'[v]) {
      assert Apart(ls[u], ls[v]);
    }
  }

  lemma LocalConsumers<T>(s: State<T>, t: nat)
    requires Inv(s) && t < |s.consumers| && ConsumerReady(s, s.consumers[t]) && Local(s.consumers[t])
    ensures Consumers(ConsumeStep(s, t))
  {
    var l := s.consumers[t];
    assert LocalOk(s, l);
    LocalKept(s, l);
    NeedsShrink(s, l);
    DisjointKept(s.consumers, t, NextLocal(s, l));
    OthersFrame(s, ConsumeStep(s, t), t);
  }

  /** The other consumers are as before. */
  lemma OthersFrame<T>(s: State<T>, s': State<T>, t: nat)
    requires Consumers(s) && t < |s.consumers| == |s'.consumers| && s'.size == s.size
    requires Disjoint(s'.consumers) && LocalOk(s', s'.consumers[t])
    requires forall u: nat | u < |s.consumers| && u != t ::
               s'.consumers[u] == s.consumers[u] && Extends(s, s', s.consumers[u])
                   && PendingOk(s'.head, s'.done, s.consumers[u])
    ensures Consumers(s')
  {
    forall u: nat | u < |s'.consumers| ensures LocalOk(s', s'.consumers[u]) {
      if u != t { LocalFrame(s, s', s.consumers[u]); }
    }
  }

  // ----- setting a flag -----

  ghost predicate Marking<T>(s: State<T>, t: nat)
  {
    t < |s.consumers| && s.consumers[t].CMark? && s.consumers[t].from < s.consumers[t].j
    && ConsumerReady(s, s.consumers[t])
  }

  /** The block whose flag is set is still in the ring. */
  lemma MarkedBlock<T>(s: State<T>, t: nat)
    requires Contents(s) && Consumers(s) && Marking(s, t)
    ensures var l := s.consumers[t];
            && s.lo <= Num(s.size, l.from) < |s.blocksOf| && l.b == s.blocksOf[Num(s.size, l.from)]
            && l.from <= l.j - 1 < l.c.end <= s.head && Num(s.size, l.j - 1) == Num(s.size, l.from)
            && l.j - 1 == Start(s.size, Num(s.size, l.from)) + Off(s.size, l.j - 1) && Off(s.size, l.j - 1) < s.size
  {
    var l := s.consumers[t];
    assert LocalOk(s, l);
    assert !Marked(l, l.from);
    Pinned(s.size, s.lo, s.head, s.done, l.from);
    BlockEndInside(s.size, l.from, l.c.end);
    NumOff(s.size, l.j - 1);
  }

  lemma MarkStructure<T>(s: State<T>, t: nat)
    requires Structure(s) && Marking(s, t)
    ensures Structure(ConsumeStep(s, t))
  {
    StructureFrame(s, ConsumeStep(s, t));
  }

  /** Setting the flag of offset k of block number p and noting its index. */
  lemma SetFlag<T>(blocks: seq<Block<T>>, size: nat, blocksOf: seq<nat>, done: set<nat>, p: nat, k: nat, q: nat, o: nat)
    requires p < |blocksOf| && q < |blocksOf| && k < size && o < size
    requires FlagOk(blocks, size, blocksOf, done, q, o)
    requires blocksOf[p] < |blocks| && |blocks[blocksOf[p]].empty| == size
    requires q != p ==> blocksOf[q] != blocksOf[p] && Start(size, q) + o != Start(size, p) + k
    ensures var flags := blocks[blocksOf[p]].empty[size - 1 - k := true];
            FlagOk(blocks[blocksOf[p] := blocks[blocksOf[p]].(empty := flags)], size, blocksOf,
                   done + {Start(size, p) + k}, q, o)
  {}

  lemma OtherSlot<T>(s: State<T>, p: nat, k: nat, q: nat, o: nat)
    requires IndexOk(s) && RingOk(s.ring, s.blocks) && p != q && k < s.size && o < s.size
    requires s.lo <= p < |s.blocksOf| && s.lo <= q < |s.blocksOf|
    ensures s.blocksOf[q] != s.blocksOf[p] && Start(s.size, q) + o != Start(s.size, p) + k
  {
    if q < p {
      RingDistinct(s, q, p);
      StartMono(s.size, q, p);
    } else {
      RingDistinct(s, p, q);
      StartMono(s.size, p, q);
    }
  }

  lemma MarkFlags<T>(s: State<T>, p: nat, k: nat)
    requires IndexOk(s) && RingOk(s.ring, s.blocks) && k < s.size && s.lo <= p < |s.blocksOf|
    requires FlagsOk(s.blocks, s.size, s.blocksOf, s.lo, s.done)
    ensures var b := s.blocksOf[p];
            && b < |s.blocks| && |s.blocks[b].empty| == s.size
            && FlagsOk(s.blocks[b := s.blocks[b].(empty := s.blocks[b].empty[s.size - 1 - k := true])],
                       s.size, s.blocksOf, s.lo, s.done + {Start(s.size, p) + k})
  {
    var b, done := s.blocksOf[p], s.done + {Start(s.size, p) + k};
    assert FlagOk(s.blocks, s.size, s.blocksOf, s.done, p, k);
    var blocks := s.blocks[b := s.blocks[b].(empty := s.blocks[b].empty[s.size - 1 - k := true])];
    forall q: nat, o: nat | s.lo <= q < |s.blocksOf| && o < s.size
      ensures FlagOk(blocks, s.size, s.blocksOf, done, q, o)
    {
      assert FlagOk(s.blocks, s.size, s.blocksOf, s.done, q, o);
      if q != p { OtherSlot(s, p, k, q, o); }
      SetFlag(s.blocks, s.size, s.blocksOf, s.done, p, k, q, o);
    }
  }

  lemma MarkStep<T>(s: State<T>, t: nat)
    requires Marking(s, t)
    ensures var l, s' := s.consumers[t], ConsumeStep(s, t);
            var flags := s.blocks[l.b].empty[s.size - 1 - Off(s.size, l.j - 1) := true];
            s' == s.(blocks := s.blocks[l.b := s.blocks[l.b].(empty := flags)], done := s.done + {l.j - 1},
                     consumers := s'.consumers)
  {}

  lemma MarkedContents<T>(s: State<T>, s': State<T>, p: nat, k: nat)
    requires Structure(s) && Contents(s) && s.lo <= p < |s.blocksOf| && k < s.size && Start(s.size, p) + k < s.head
    requires var b := s.blocksOf[p];
             && b < |s.blocks| && |s.blocks[b].empty| == s.size
             && s' == s.(blocks := s.blocks[b := s.blocks[b].(empty := s.blocks[b].empty[s.size - 1 - k := true])],
                         done := s.done + {Start(s.size, p) + k}, consumers := s'.consumers)
    ensures Contents(s')
  {
    MarkFlags(s, p, k);
    SameData(s, s');
  }

  lemma MarkContents<T>(s: State<T>, t: nat)
    requires Structure(s) && Contents(s) && Consumers(s) && Marking(s, t)
    ensures Contents(ConsumeStep(s, t))
  {
    MarkedBlock(s, t);
    MarkStep(s, t);
    var l := s.consumers[t];
    MarkedContents(s, ConsumeStep(s, t), Num(s.size, l.from), Off(s.size, l.j - 1));
  }

  /** A block being added is not the one a flag is set in. */
  lemma AddedIsOther<T>(s: State<T>, t: nat)
    requires Structure(s) && Contents(s) && Consumers(s) && Marking(s, t) && Adding(s.producer)
    ensures s.tailBlock.At? && s.tailBlock.block != s.consumers[t].b
  {
    MarkedBlock(s, t);
    var p := Num(s.size, s.consumers[t].from);
    assert s.ring[p - s.lo] == s.blocksOf[p] && s.ring[|s.ring| - 1] == s.tailBlock.block;
  }

  lemma MarkTail<T>(s: State<T>, t: nat)
    requires TailOk(s) && Marking(s, t)
    requires Adding(s.producer) ==> s.tailBlock.At? && s.tailBlock.block != s.consumers[t].b
    ensures TailOk(ConsumeStep(s, t))
  {}

  lemma MarkConsumers<T>(s: State<T>, t: nat)
    requires Contents(s) && Consumers(s) && Marking(s, t)
    ensures Consumers(ConsumeStep(s, t))
  {
    MarkedBlock(s, t);
    var s', l := ConsumeStep(s, t), s.consumers[t];
    assert LocalOk(s, l);
    NeedsShrink(s, l);
    DisjointKept(s.consumers, t, NextLocal(s, l));
    MarkLocal(s, s', l);
    forall u: nat | u < |s.consumers| && u != t ensures PendingOk(s.head, s'.done, s.consumers[u]) {
      assert LocalOk(s, s.consumers[u]);
      assert if u < t then Apart(s.consumers[u], l) else Apart(l, s.consumers[u]);
    }
    OthersFrame(s, s', t);
  }

  lemma MarkLocal<T>(s: State<T>, s': State<T>, l: Consumer<T>)
    requires s.size > 0 && LocalOk(s, l) && l.CMark? && l.from < l.j && ConsumerReady(s, l)
    requires s' == s.(blocks := s'.blocks, consumers := s'.consumers, done := s.done + {l.j - 1})
    ensures LocalOk(s', NextLocal(s, l))
  {
    BlockEndInside(s.size, l.from, l.c.end);
    if l.stop < l.c.end { NumMono(s.size, l.from, l.stop); }
  }

  // ----- a claim -----

  lemma ClaimConsumers<T>(s: State<T>, t: nat, n: nat)
    requires Contents(s) && Consumers(s) && CanClaim(s, t, n)
    ensures Consumers(Apply(s, TakeClaim(t, n)))
  {
    var s' := Apply(s, TakeClaim(t, n));
    forall u, v | 0 <= u < v < |s.consumers| ensures Apart(s'.consumers[u], s'.consumers[v]) {
      assert Apart(s.consumers[u], s.consumers[v]);
      assert LocalOk(s, s.consumers[u]) && LocalOk(s, s.consumers[v]);
    }
    forall u: nat | u < |s.consumers| && u != t ensures PendingOk(s'.head, s.done, s.consumers[u]) {
      assert LocalOk(s, s.consumers[u]);
    }
    OthersFrame(s, s', t);
  }

  lemma ClaimKeepsInv<T>(s: State<T>, t: nat, n: nat)
    requires Inv(s) && CanClaim(s, t, n)
    ensures Inv(Apply(s, TakeClaim(t, n)))
  {
    StructureFrame(s, Apply(s, TakeClaim(t, n)));
    ClaimConsumers(s, t, n);
  }
}
