/** ExplicitProducer of concurrentqueue.h as a FIFO: one producer fills blocks
    that form a reusable ring, and publishes them through a growable circular
    block index; consumers that own a range of indices look their blocks up in
    whatever index they loaded, read the elements and mark the slots empty.
    Every step makes at most one shared access.

    A consumer claims only indices below the tail here (CanClaim); the module
    ExplicitProducer runs the ticket protocol of Tickets along with this one and
    proves that it never claims more.

    History: `log` holds the enqueued values, `blocksOf[q]` the block that was
    used for indices q * BLOCK_SIZE and on, `lo` the first block number still in
    the ring, `ring` the blocks of the ring from the oldest to the tail block,
    `done` the indices marked empty. A header's slots hold block numbers `lo` to
    `hi`, number `origin` in slot 0 (for a replaced header: those it held when it
    was replaced). */
module BlockRing {
  import opened BlockMath

  datatype Ptr = Null | At(block: nat)

  datatype Block<T> = Block(next: nat, data: seq<T>, empty: seq<bool>)

  datatype Entry = Entry(base: int, block: nat)

  datatype Header = Header(size: nat, front: int, entries: seq<Entry>, origin: nat, lo: nat, hi: nat)

  datatype Producer<T> =
    | EIdle
    | ECheck(x: T, i: nat)     // is_empty of the next block, i flags read
    | EReset(x: T)
    | EGrow(x: T)
    | EIndex(x: T)             // about to allocate a larger index
    | ENew(x: T)               // about to requisition a block
    | EEntry(x: T)
    | EFront(x: T)
    | EWrite(x: T)
    | EPublish(x: T)

  datatype Claim = Claim(first: nat, end: nat)

  /** What a consumer loaded: header and front slot; `newest` is the block number
      in that slot (history). */
  datatype Lookup = Lookup(h: nat, f: int, newest: nat)

  /** A consumer takes its claim block by block: `slot` is the index slot of the
      block, `b` the block, from .. stop the claimed indices in it. */
  datatype Consumer<T> =
    | CIdle
    | CHeader(c: Claim)
    | CFront(c: Claim, h: nat)
    | CBase(c: Claim, k: Lookup)
    | CBlock(c: Claim, h: nat, slot: int, cur: nat, got: seq<T>)
    | CRead(c: Claim, h: nat, slot: int, b: nat, from: nat, cur: nat, stop: nat, got: seq<T>)
    | CMark(c: Claim, h: nat, slot: int, b: nat, from: nat, j: nat, stop: nat, got: seq<T>)
    | CDone(c: Claim, got: seq<T>)

  datatype State<T> = State(
    size: nat,                  // BLOCK_SIZE
    tail: nat,
    head: nat,
    blocks: seq<Block<T>>,
    tailBlock: Ptr,
    headers: seq<Header>,       // the last one is blockIndex
    slotsUsed: nat,             // pr_blockIndexSlotsUsed
    indexSize: nat,             // pr_blockIndexSize
    indexFront: nat,            // pr_blockIndexFront
    producer: Producer<T>,
    consumers: seq<Consumer<T>>,
    log: seq<T>,
    blocksOf: seq<nat>,
    ring: seq<nat>,
    lo: nat,
    done: set<nat>)

  datatype Event<T> =
    | Enqueue(x: T)
    | Produce
    | NewIndex(fill: seq<Entry>)      // allocation of a larger index succeeds
    | NewBlock(block: Block<T>)       // requisition_block yields a block
    | OutOfMemory                     // either fails, or may not allocate
    | TakeClaim(t: nat, n: nat)       // headIndex.fetch_add(n)
    | Consume(t: nat)

  // ----- the steps -----

  function Filled(n: nat, b: bool): (r: seq<bool>)
    ensures |r| == n && forall i | 0 <= i < n :: r[i] == b
  {
    seq(n, i => b)
  }

  function Min(a: nat, b: nat): nat { if a < b then a else b }

  /** One step outside a circle of n slots, on either side, is taken around; there
      it is the remainder (AroundIsRemainder). */
  function Around(x: int, n: nat): int { if x < 0 then x + n else if x < n then x else x - n }

  /** enqueue up to the test of the block boundary. */
  function Call<T>(s: State<T>, x: T): State<T>
    requires s.size > 0
  {
    s.(producer := if Off(s.size, s.tail) != 0 then EWrite(x)
                   else if s.tailBlock.Null? then EGrow(x) else ECheck(x, 0))
  }

  /** What the producer's next step needs to be defined. */
  predicate ProducerReady<T>(s: State<T>)
  {
    match s.producer
    case EIdle => false
    case EIndex(_) => false
    case ENew(_) => false
    case ECheck(_, i) => TailInRange(s) && NextInRange(s) && (i < s.size ==> i < |s.blocks[Next(s)].empty|)
    case EReset(_) => TailInRange(s) && NextInRange(s) && |s.headers| > 0
    case EGrow(_) => true
    case EEntry(_) => TailInRange(s) && |s.headers| > 0 && s.indexFront < |s.headers[|s.headers| - 1].entries|
    case EFront(_) => TailInRange(s) && |s.headers| > 0 && s.indexSize > 0
    case EWrite(_) => s.size > 0 && TailInRange(s) && Off(s.size, s.tail) < |s.blocks[s.tailBlock.block].data|
    case EPublish(_) => true
  }

  predicate TailInRange<T>(s: State<T>) { s.tailBlock.At? && s.tailBlock.block < |s.blocks| }

  function Next<T>(s: State<T>): nat
    requires TailInRange(s)
  {
    s.blocks[s.tailBlock.block].next
  }

  predicate NextInRange<T>(s: State<T>)
    requires TailInRange(s)
  {
    Next(s) < |s.blocks|
  }

  function Current<T>(s: State<T>): Header
    requires |s.headers| > 0
  {
    s.headers[|s.headers| - 1]
  }

  function SetCurrent(headers: seq<Header>, h: Header): seq<Header>
    requires |headers| > 0
  {
    headers[|headers| - 1 := h]
  }

  /** The oldest block becomes the newest. */
  function Rotated(ring: seq<nat>): seq<nat>
  {
    if |ring| > 0 then ring[1..] + [ring[0]] else []
  }

  function ProduceStep<T>(s: State<T>): State<T>
    requires ProducerReady(s)
  {
    match s.producer
    case ECheck(x, i) =>
      s.(producer := if i == s.size then EReset(x)
                     else if i < s.size && s.blocks[Next(s)].empty[i] then ECheck(x, i + 1)
                     else EGrow(x))
    case EReset(x) =>
      var b := Next(s);
      s.(tailBlock := At(b), blocks := s.blocks[b := s.blocks[b].(empty := Filled(s.size, false))],
         headers := SetCurrent(s.headers, Current(s).(lo := s.lo + 1)), lo := s.lo + 1,
         ring := Rotated(s.ring), producer := EEntry(x))
    case EGrow(x) =>
      // The leeway test against the head; it can only fail by wrap-around.
      s.(producer := if !(s.head < s.tail + s.size) then EIdle
                     else if |s.headers| == 0 || s.slotsUsed == s.indexSize then EIndex(x)
                     else ENew(x))
    case EEntry(x) =>
      var h := Current(s);
      s.(headers := SetCurrent(s.headers, h.(entries := h.entries[s.indexFront := Entry(s.tail, s.tailBlock.block)])),
         producer := EFront(x))
    case EFront(x) =>
      s.(headers := SetCurrent(s.headers, Current(s).(front := s.indexFront, hi := |s.blocksOf| + 1)),
         indexFront := Around(s.indexFront + 1, s.indexSize),
         blocksOf := s.blocksOf + [s.tailBlock.block],
         producer := EWrite(x))
    case EWrite(x) =>
      var b := s.tailBlock.block;
      s.(blocks := s.blocks[b := s.blocks[b].(data := s.blocks[b].data[Off(s.size, s.tail) := x])],
         producer := EPublish(x))
    case EPublish(x) =>
      s.(tail := s.tail + 1, log := s.log + [x], producer := EIdle)
  }

  /** The entries new_block_index copies, oldest first: slots from
      pr_blockIndexFront - pr_blockIndexSlotsUsed on, around the circle. */
  function Copied(entries: seq<Entry>, front: nat, used: nat): (r: seq<Entry>)
    requires front < |entries| && used <= |entries|
    ensures |r| == used
  {
    if used == 0 then [] else [entries[Around(front - used, |entries|)]] + Copied(entries, front, used - 1)
  }

  predicate CopyReady<T>(s: State<T>)
  {
    |s.headers| > 0 && s.indexFront < s.indexSize == |Current(s).entries| && s.slotsUsed <= s.indexSize
  }

  function GrowIndex<T>(s: State<T>, fill: seq<Entry>): State<T>
    requires s.producer.EIndex? && s.slotsUsed <= |fill|
    requires s.slotsUsed > 0 ==> CopyReady(s)
  {
    var copied := if s.slotsUsed == 0 then [] else Copied(Current(s).entries, s.indexFront, s.slotsUsed);
    var h := Header(|fill|, s.slotsUsed - 1, copied + fill[s.slotsUsed..], s.lo, s.lo, |s.blocksOf|);
    s.(headers := s.headers + [h], indexSize := |fill|, indexFront := s.slotsUsed, producer := ENew(s.producer.x))
  }

  function LinkBlock<T>(s: State<T>, block: Block<T>): State<T>
    requires s.producer.ENew? && (s.tailBlock.At? ==> TailInRange(s))
  {
    var b := |s.blocks|;
    var next := if s.tailBlock.Null? then b else Next(s);
    var blocks := s.blocks + [block.(next := next, empty := Filled(s.size, false))];
    s.(blocks := if s.tailBlock.Null? then blocks
                 else blocks[s.tailBlock.block := blocks[s.tailBlock.block].(next := b)],
       tailBlock := At(b), ring := s.ring + [b], slotsUsed := s.slotsUsed + 1, producer := EEntry(s.producer.x))
  }

  /** The slot dequeue computes for index cur from the front slot and its base. */
  function SlotFor(size: nat, indexSize: nat, f: int, base: int, cur: nat): int
    requires size > 0 && indexSize > 0
  {
    (f + (Start(size, Num(size, cur)) - base) / size) % indexSize
  }

  predicate ConsumerReady<T>(s: State<T>, l: Consumer<T>)
  {
    match l
    case CIdle => false
    case CHeader(_) => |s.headers| > 0
    case CFront(_, h) => h < |s.headers|
    case CBase(_, k) =>
      s.size > 0 && k.h < |s.headers| && 0 < s.headers[k.h].size == |s.headers[k.h].entries|
          && 0 <= k.f < s.headers[k.h].size
    case CBlock(_, h, slot, _, _) => s.size > 0 && h < |s.headers| && 0 <= slot < |s.headers[h].entries|
    case CRead(_, _, _, b, _, cur, stop, _) =>
      s.size > 0 && (cur < stop ==> b < |s.blocks| && Off(s.size, cur) < |s.blocks[b].data|)
    case CMark(_, h, _, b, from, j, _, _) =>
      && s.size > 0 && h < |s.headers| && s.headers[h].size > 0
      && (from < j ==> b < |s.blocks| && |s.blocks[b].empty| == s.size && Off(s.size, j - 1) < s.size)
    case CDone(_, _) => true
  }

  function SetConsumer<T>(s: State<T>, t: nat, l: Consumer<T>): State<T>
    requires t < |s.consumers|
  {
    s.(consumers := s.consumers[t := l])
  }

  /** The step that changes only the consumer's own state. */
  function NextLocal<T>(s: State<T>, l: Consumer<T>): Consumer<T>
    requires ConsumerReady(s, l)
  {
    match l
    case CHeader(c) => CFront(c, |s.headers| - 1)
    case CFront(c, h) =>
      CBase(c, Lookup(h, s.headers[h].front, if s.headers[h].hi > 0 then s.headers[h].hi - 1 else 0))
    case CBase(c, k) =>
      var h := s.headers[k.h];
      CBlock(c, k.h, SlotFor(s.size, h.size, k.f, h.entries[k.f].base, c.first), c.first, [])
    case CBlock(c, h, slot, cur, got) =>
      CRead(c, h, slot, s.headers[h].entries[slot].block, cur, cur, BlockEnd(s.size, cur, c.end), got)
    case CRead(c, h, slot, b, from, cur, stop, got) =>
      if cur < stop
      then CRead(c, h, slot, b, from, cur + 1, stop, got + [s.blocks[b].data[Off(s.size, cur)]])
      else CMark(c, h, slot, b, from, stop, stop, got)
    case CMark(c, h, slot, b, from, j, stop, got) =>
      if from < j then CMark(c, h, slot, b, from, j - 1, stop, got)
      else if stop == c.end then CDone(c, got)
      else CBlock(c, h, Around(slot + 1, s.headers[h].size), stop, got)
    case CDone(_, _) => CIdle
  }

  /** Where the claimed indices from cur on leave their block. */
  function BlockEnd(size: nat, cur: nat, end: nat): nat
    requires size > 0
  {
    Min(end, Start(size, Num(size, cur)) + size)
  }

  /** A consumer's step; set_empty writes the flags of a block from the last of
      its indices down. */
  function ConsumeStep<T>(s: State<T>, t: nat): State<T>
    requires t < |s.consumers| && ConsumerReady(s, s.consumers[t])
  {
    var l := s.consumers[t];
    if l.CMark? && l.from < l.j then
      var flags := s.blocks[l.b].empty[s.size - 1 - Off(s.size, l.j - 1) := true];
      SetConsumer(s, t, NextLocal(s, l))
      .(blocks := s.blocks[l.b := s.blocks[l.b].(empty := flags)], done := s.done + {l.j - 1})
    else
      SetConsumer(s, t, NextLocal(s, l))
  }

  /** Allocation doubles the index. */
  predicate CanGrow<T>(s: State<T>, fill: seq<Entry>)
  {
    && s.producer.EIndex? && |fill| == s.indexSize + s.indexSize && s.slotsUsed <= |fill|
    && (s.slotsUsed > 0 ==> CopyReady(s))
  }

  predicate CanLink<T>(s: State<T>, block: Block<T>)
  {
    s.producer.ENew? && |block.data| == s.size && (s.tailBlock.At? ==> TailInRange(s))
  }

  /** The ticket protocol lets a consumer claim only elements that are there. */
  predicate CanClaim<T>(s: State<T>, t: nat, n: nat)
  {
    t < |s.consumers| && s.consumers[t].CIdle? && n > 0 && s.head + n <= s.tail
  }

  predicate Enabled<T>(s: State<T>, e: Event<T>)
  {
    match e
    case Enqueue(_) => s.producer.EIdle? && s.size > 0
    case Produce => ProducerReady(s)
    case NewIndex(fill) => CanGrow(s, fill)
    case NewBlock(block) => CanLink(s, block)
    case OutOfMemory => s.producer.EIndex? || s.producer.ENew?
    case TakeClaim(t, n) => CanClaim(s, t, n)
    case Consume(t) => t < |s.consumers| && ConsumerReady(s, s.consumers[t])
  }

  function Apply<T>(s: State<T>, e: Event<T>): State<T>
    requires Enabled(s, e)
  {
    match e
    case Enqueue(x) => Call(s, x)
    case Produce => ProduceStep(s)
    case NewIndex(fill) => GrowIndex(s, fill)
    case NewBlock(block) => LinkBlock(s, block)
    case OutOfMemory => s.(producer := EIdle)
    case TakeClaim(t, n) =>
      SetConsumer(s, t, CHeader(Claim(s.head, s.head + n))).(head := s.head + n)
    case Consume(t) => ConsumeStep(s, t)
  }

  /** A fresh producer: no block yet, and an index of the initial size unless its
      allocation failed. */
  predicate Init<T>(s: State<T>)
  {
    && s.size > 0 && s.indexSize > 0
    && s.tail == s.head == s.slotsUsed == s.indexFront == s.lo == 0
    && |s.blocks| == |s.log| == |s.blocksOf| == |s.ring| == 0 && s.tailBlock == Null
    && |s.headers| <= 1
    && (|s.headers| == 1 ==>
          s.headers[0].size == s.indexSize == |s.headers[0].entries| && s.headers[0].front == -1
          && s.headers[0].origin == s.headers[0].lo == s.headers[0].hi == 0)
    && s.producer.EIdle? && s.done == {}
    && forall t | 0 <= t < |s.consumers| :: s.consumers[t].CIdle?
  }

  ghost predicate Run<T>(states: seq<State<T>>, events: seq<Event<T>>)
  {
    && |states| == |events| + 1
    && Init(states[0])
    && forall i | 0 <= i < |events| ::
         Enabled(states[i], events[i]) && states[i + 1] == Apply(states[i], events[i])
  }

  // ----- the invariant -----

  ghost predicate Adding<T>(p: Producer<T>) { p.EEntry? || p.EFront? }

  ghost predicate RingOk<T>(ring: seq<nat>, blocks: seq<Block<T>>)
  {
    && (forall k | 0 <= k < |ring| :: ring[k] < |blocks|)
    && (forall j, k | 0 <= j < k < |ring| :: ring[j] != ring[k])
    && (forall j, k | 0 <= j < k < |ring| && k == j + 1 :: blocks[ring[j]].next == ring[k])
    && (|ring| > 0 ==> blocks[ring[|ring| - 1]].next == ring[0])
  }

  ghost predicate Sized<T>(blocks: seq<Block<T>>, size: nat)
  {
    forall b | 0 <= b < |blocks| :: |blocks[b].data| == size == |blocks[b].empty|
  }

  /** A header's slots hold its block numbers with their bases, front the newest. */
  ghost predicate HeaderOk(h: Header, size: nat, blocksOf: seq<nat>)
  {
    && 0 < h.size == |h.entries| && h.origin <= h.lo <= h.hi <= |blocksOf| && h.hi - h.lo <= h.size
    && (forall q: nat {:trigger EntryOk(h, size, blocksOf, q)} | h.lo <= q < h.hi :: EntryOk(h, size, blocksOf, q))
    && (h.lo < h.hi ==> h.front == Slot(h.size, h.origin, h.hi - 1))
  }

  ghost predicate EntryOk(h: Header, size: nat, blocksOf: seq<nat>, q: nat)
    requires 0 < h.size == |h.entries| && h.origin <= q < |blocksOf|
  {
    Slot(h.size, h.origin, q) < h.size
    && h.entries[Slot(h.size, h.origin, q)] == Entry(Start(size, q), blocksOf[q])
  }

  ghost predicate HeadersOk(headers: seq<Header>, size: nat, blocksOf: seq<nat>)
  {
    forall h: nat | h < |headers| :: HeaderOk(headers[h], size, blocksOf)
  }

  ghost predicate IndexOk<T>(s: State<T>)
  {
    && s.size > 0 && s.indexSize > 0
    && s.lo <= |s.blocksOf|
    && |s.ring| == s.slotsUsed == |s.blocksOf| - s.lo + (if Adding(s.producer) then 1 else 0)
    && (forall q: nat | s.lo <= q < |s.blocksOf| :: s.blocksOf[q] == s.ring[q - s.lo])
    && (|s.headers| == 0 ==> |s.blocksOf| == 0 && s.slotsUsed == 0 && !Adding(s.producer) && !s.producer.ENew?)
    && (|s.headers| > 0 ==>
          && Current(s).size == s.indexSize && s.slotsUsed <= s.indexSize
          && Current(s).origin <= s.lo == Current(s).lo && Current(s).hi == |s.blocksOf|
          && s.indexFront == Slot(s.indexSize, Current(s).origin, |s.blocksOf|))
    && (s.producer.ENew? ==> s.slotsUsed < s.indexSize)
    && (s.tailBlock == if |s.ring| > 0 then At(s.ring[|s.ring| - 1]) else Null)
    && (Adding(s.producer) ==> s.tailBlock.At?)
    && (|s.blocksOf| > 0 && !Adding(s.producer) ==> s.lo < |s.blocksOf|)
  }

  /** A slot's flag is set exactly when its index was marked empty. */
  ghost predicate FlagsOk<T>(blocks: seq<Block<T>>, size: nat, blocksOf: seq<nat>, lo: nat, done: set<nat>)
  {
    forall q: nat, o: nat {:trigger FlagOk(blocks, size, blocksOf, done, q, o)} | lo <= q < |blocksOf| && o < size ::
      FlagOk(blocks, size, blocksOf, done, q, o)
  }

  ghost predicate FlagOk<T>(blocks: seq<Block<T>>, size: nat, blocksOf: seq<nat>, done: set<nat>, q: nat, o: nat)
    requires q < |blocksOf| && o < size
  {
    && blocksOf[q] < |blocks| && |blocks[blocksOf[q]].empty| == size
    && (blocks[blocksOf[q]].empty[size - 1 - o] <==> Start(size, q) + o in done)
  }

  /** A slot not yet emptied holds the value enqueued at its index. */
  ghost predicate DataOk<T>(blocks: seq<Block<T>>, size: nat, blocksOf: seq<nat>, lo: nat, done: set<nat>, log: seq<T>)
    requires size > 0
  {
    forall i: nat {:trigger ValueOk(blocks, size, blocksOf, log, i)} |
      i < |log| && lo <= Num(size, i) && i !in done :: ValueOk(blocks, size, blocksOf, log, i)
  }

  ghost predicate ValueOk<T>(blocks: seq<Block<T>>, size: nat, blocksOf: seq<nat>, log: seq<T>, i: nat)
    requires size > 0 && i < |log|
  {
    var q, o := Num(size, i), Off(size, i);
    q < |blocksOf| && blocksOf[q] < |blocks| && o < |blocks[blocksOf[q]].data|
    && blocks[blocksOf[q]].data[o] == log[i]
  }

  ghost predicate DoneOk(size: nat, lo: nat, head: nat, done: set<nat>)
  {
    && (forall i | i in done :: i < head)
    && (forall i: nat | i < Start(size, lo) :: i in done)
  }

  ghost predicate Boundary<T>(s: State<T>) { s.tail == Start(s.size, |s.blocksOf|) }

  ghost predicate Inside<T>(s: State<T>)
  {
    |s.blocksOf| > 0 && Start(s.size, |s.blocksOf| - 1) <= s.tail < Start(s.size, |s.blocksOf|)
  }

  ghost predicate TailOk<T>(s: State<T>)
  {
    && |s.log| == s.tail && s.head <= s.tail && s.size > 0
    && match s.producer
       case EIdle => Boundary(s) || (Inside(s) && Start(s.size, |s.blocksOf| - 1) < s.tail)
       case ECheck(_, i) =>
         && Boundary(s) && i <= s.size && OldestInRange(s)
         && (forall j | 0 <= j < i :: s.blocks[s.blocksOf[s.lo]].empty[j])
       case EReset(_) =>
         && Boundary(s) && OldestInRange(s)
         && (forall j | 0 <= j < s.size :: s.blocks[s.blocksOf[s.lo]].empty[j])
       case EWrite(_) => Inside(s)
       case EPublish(x) =>
         && Inside(s) && TailInRange(s)
         && Off(s.size, s.tail) < |s.blocks[s.tailBlock.block].data|
         && s.blocks[s.tailBlock.block].data[Off(s.size, s.tail)] == x
       case EEntry(_) => Boundary(s) && Fresh(s)
       case EFront(_) =>
         && Boundary(s) && Fresh(s) && |s.headers| > 0
         && s.indexFront < |Current(s).entries|
         && TailInRange(s) && Current(s).entries[s.indexFront] == Entry(s.tail, s.tailBlock.block)
       case _ => Boundary(s)
  }

  ghost predicate OldestInRange<T>(s: State<T>)
  {
    s.lo < |s.blocksOf| && s.blocksOf[s.lo] < |s.blocks| && |s.blocks[s.blocksOf[s.lo]].empty| == s.size
  }

  /** The block being added has all its flags clear. */
  ghost predicate Fresh<T>(s: State<T>)
  {
    TailInRange(s) && |s.blocks[s.tailBlock.block].empty| == s.size
    && forall j | 0 <= j < s.size :: !s.blocks[s.tailBlock.block].empty[j]
  }

  /** The claimed indices a consumer still needs lie in From .. To, and are all of
      these but the ones it has just marked. */
  function From<T>(l: Consumer<T>): nat
  {
    match l
    case CIdle => 0
    case CHeader(c) => c.first
    case CFront(c, _) => c.first
    case CBase(c, _) => c.first
    case CBlock(_, _, _, cur, _) => cur
    case CRead(_, _, _, _, from, _, _, _) => from
    case CMark(_, _, _, _, from, j, stop, _) => if from < j then from else stop
    case CDone(c, _) => c.end
  }

  function To<T>(l: Consumer<T>): nat { if l.CIdle? then 0 else l.c.end }

  predicate Marked<T>(l: Consumer<T>, i: nat) { l.CMark? && l.j <= i < l.stop }

  ghost predicate Apart<T>(k: Consumer<T>, l: Consumer<T>)
  {
    To(k) <= From(k) || To(l) <= From(l) || To(k) <= From(l) || To(l) <= From(k)
  }

  ghost predicate Disjoint<T>(ls: seq<Consumer<T>>)
  {
    forall t, u | 0 <= t < u < |ls| :: Apart(ls[t], ls[u])
  }

  ghost predicate PendingOk<T>(head: nat, done: set<nat>, l: Consumer<T>)
  {
    && From(l) <= To(l) <= head
    && (forall i: nat | From(l) <= i < To(l) && !Marked(l, i) :: i !in done)
  }

  /** Header h covers the indices from .. end. */
  ghost predicate Covers(headers: seq<Header>, size: nat, h: nat, from: nat, end: nat)
    requires size > 0
  {
    && h < |headers| && from <= end
    && (from < end ==> headers[h].lo <= Num(size, from) && Num(size, end - 1) < headers[h].hi)
  }

  /** `slot` is the slot of the block that index i lies in. */
  ghost predicate SlotOk(headers: seq<Header>, size: nat, h: nat, slot: int, i: nat)
    requires size > 0 && h < |headers|
  {
    && headers[h].size > 0 && headers[h].origin <= Num(size, i)
    && slot == Slot(headers[h].size, headers[h].origin, Num(size, i))
  }

  ghost predicate FrontOk(headers: seq<Header>, size: nat, k: Lookup, end: nat)
    requires size > 0 && k.h < |headers| && end > 0
  {
    && headers[k.h].size > 0 && headers[k.h].origin <= k.newest
    && Num(size, end - 1) <= k.newest < headers[k.h].hi
    && k.f == Slot(headers[k.h].size, headers[k.h].origin, k.newest)
  }

  /** The values read so far are those enqueued at the claimed indices. */
  ghost predicate GotOk<T>(log: seq<T>, got: seq<T>, first: nat, upto: nat)
  {
    first <= upto <= |log| && got == log[first..upto]
  }

  ghost predicate PartOk(size: nat, blocksOf: seq<nat>, b: nat, from: nat, stop: nat, end: nat)
    requires size > 0
  {
    && from < stop == BlockEnd(size, from, end)
    && Num(size, from) < |blocksOf| && b == blocksOf[Num(size, from)]
  }

  ghost predicate LocalOk<T>(s: State<T>, l: Consumer<T>)
    requires s.size > 0
  {
    && PendingOk(s.head, s.done, l)
    && (l.CHeader? || l.CFront? || l.CBase? || l.CBlock? ==> From(l) < To(l))
    && (!l.CIdle? ==> l.c.first <= From(l))
    && match l
       case CIdle => true
       case CHeader(_) => true
       case CFront(c, h) => Covers(s.headers, s.size, h, c.first, c.end)
       case CBase(c, k) => Covers(s.headers, s.size, k.h, c.first, c.end) && FrontOk(s.headers, s.size, k, c.end)
       case CBlock(c, h, slot, cur, got) =>
         && Covers(s.headers, s.size, h, cur, c.end) && SlotOk(s.headers, s.size, h, slot, cur)
         && GotOk(s.log, got, c.first, cur)
       case CRead(c, h, slot, b, from, cur, stop, got) =>
         && Covers(s.headers, s.size, h, from, c.end) && SlotOk(s.headers, s.size, h, slot, from)
         && PartOk(s.size, s.blocksOf, b, from, stop, c.end) && from <= cur <= stop && GotOk(s.log, got, c.first, cur)
       case CMark(c, h, slot, b, from, j, stop, got) =>
         && Covers(s.headers, s.size, h, From(l), c.end) && SlotOk(s.headers, s.size, h, slot, from)
         && PartOk(s.size, s.blocksOf, b, from, stop, c.end) && from <= j <= stop && GotOk(s.log, got, c.first, stop)
       case CDone(c, got) => GotOk(s.log, got, c.first, c.end)
  }

  ghost predicate Structure<T>(s: State<T>)
  {
    && IndexOk(s)
    && RingOk(s.ring, s.blocks)
    && Sized(s.blocks, s.size)
    && HeadersOk(s.headers, s.size, s.blocksOf)
  }

  ghost predicate Contents<T>(s: State<T>)
  {
    && s.size > 0
    && FlagsOk(s.blocks, s.size, s.blocksOf, s.lo, s.done)
    && DataOk(s.blocks, s.size, s.blocksOf, s.lo, s.done, s.log)
    && DoneOk(s.size, s.lo, s.head, s.done)
  }

  ghost predicate Consumers<T>(s: State<T>)
  {
    && s.size > 0
    && Disjoint(s.consumers)
    && (forall t: nat | t < |s.consumers| :: LocalOk(s, s.consumers[t]))
  }

  ghost predicate Inv<T>(s: State<T>)
  {
    Structure(s) && Contents(s) && TailOk(s) && Consumers(s)
  }

  // ----- what consumers know -----

  /** What a consumer knows survives any step that only extends the history, adds
      headers or blocks, and drops no block it still needs. */
  ghost predicate Extends<T>(s: State<T>, s': State<T>, l: Consumer<T>)
  {
    && s'.size == s.size > 0
    && s.blocksOf <= s'.blocksOf && s.log <= s'.log
    && |s.headers| <= |s'.headers|
    && forall h: nat | h < |s.headers| :: HeaderExtends(s.headers[h], s'.headers[h], s.size, l)
  }

  ghost predicate HeaderExtends<T>(h: Header, h': Header, size: nat, l: Consumer<T>)
    requires size > 0
  {
    && h'.size == h.size && h'.origin == h.origin && h.hi <= h'.hi
    && (From(l) < To(l) ==> h'.lo <= h.lo || h'.lo <= Num(size, From(l)))
  }

  lemma LocalFrame<T>(s: State<T>, s': State<T>, l: Consumer<T>)
    requires s.size > 0 && LocalOk(s, l) && Extends(s, s', l) && PendingOk(s'.head, s'.done, l)
    ensures LocalOk(s', l)
  {
    match l
    case CFront(_, h) => assert HeaderExtends(s.headers[h], s'.headers[h], s.size, l);
    case CBase(_, k) => assert HeaderExtends(s.headers[k.h], s'.headers[k.h], s.size, l);
    case CBlock(_, h, _, _, _) => assert HeaderExtends(s.headers[h], s'.headers[h], s.size, l);
    case CRead(_, h, _, _, _, _, _, _) => assert HeaderExtends(s.headers[h], s'.headers[h], s.size, l);
    case CMark(_, h, _, _, _, _, _, _) => assert HeaderExtends(s.headers[h], s'.headers[h], s.size, l);
    case _ =>
  }

  /** Producer steps leave claims and marks alone. */
  lemma ConsumersFrame<T>(s: State<T>, s': State<T>)
    requires Consumers(s) && s'.size == s.size && s'.consumers == s.consumers
    requires s'.head == s.head && s'.done == s.done
    requires forall t: nat | t < |s.consumers| :: Extends(s, s', s.consumers[t])
    ensures Consumers(s')
  {
    forall t: nat | t < |s'.consumers| ensures LocalOk(s', s'.consumers[t]) {
      LocalFrame(s, s', s.consumers[t]);
    }
  }

  // ----- steps that leave the structure alone -----

  ghost predicate SameShape<T>(s: State<T>, s': State<T>)
  {
    && s'.size == s.size && s'.indexSize == s.indexSize && s'.slotsUsed == s.slotsUsed
    && s'.indexFront == s.indexFront && s'.headers == s.headers && s'.blocksOf == s.blocksOf
    && s'.lo == s.lo && s'.ring == s.ring && s'.tailBlock == s.tailBlock && Adding(s'.producer) == Adding(s.producer)
    && (s'.producer.ENew? ==> |s.headers| > 0 && s.slotsUsed < s.indexSize)
    && SameLinks(s.blocks, s'.blocks)
  }

  ghost predicate SameLinks<T>(blocks: seq<Block<T>>, blocks': seq<Block<T>>)
  {
    && |blocks'| == |blocks|
    && forall b | 0 <= b < |blocks| ::
         && blocks'[b].next == blocks[b].next
         && |blocks'[b].data| == |blocks[b].data| && |blocks'[b].empty| == |blocks[b].empty|
  }

  lemma SameRing<T>(ring: seq<nat>, size: nat, blocks: seq<Block<T>>, blocks': seq<Block<T>>)
    requires RingOk(ring, blocks) && Sized(blocks, size) && SameLinks(blocks, blocks')
    ensures RingOk(ring, blocks') && Sized(blocks', size)
  {}

  lemma StructureFrame<T>(s: State<T>, s': State<T>)
    requires Structure(s) && SameShape(s, s')
    ensures Structure(s')
  {
    SameRing(s.ring, s.size, s.blocks, s'.blocks);
  }

  /** Producer steps that only move on. */
  ghost predicate Quiet<T>(s: State<T>, s': State<T>)
  {
    && s' == s.(producer := s'.producer)
    && Adding(s'.producer) == Adding(s.producer)
    && (s'.producer.ENew? ==> |s.headers| > 0 && s.slotsUsed < s.indexSize)
  }

  lemma QuietConsumers<T>(s: State<T>, s': State<T>)
    requires Consumers(s) && Quiet(s, s')
    ensures Consumers(s')
  {
    ConsumersFrame(s, s');
  }

  /** The block after the tail block is the oldest one. */
  lemma NextIsOldest<T>(s: State<T>)
    requires Structure(s) && !Adding(s.producer) && s.tailBlock.At?
    ensures OldestInRange(s) && TailInRange(s) && Next(s) == s.blocksOf[s.lo]
  {
    assert s.blocksOf[s.lo] == s.ring[0];
  }

  // ----- where indices live -----

  /** A pending index is in a block of the ring. */
  lemma Pinned(size: nat, lo: nat, head: nat, done: set<nat>, i: nat)
    requires size > 0 && DoneOk(size, lo, head, done) && i !in done
    ensures lo <= Num(size, i)
  {
    NumAtLeast(size, i, lo);
  }

  lemma BelowTail<T>(s: State<T>, i: nat)
    requires IndexOk(s) && TailOk(s) && i < s.tail
    ensures Num(s.size, i) < |s.blocksOf|
  {
    assert s.tail <= Start(s.size, |s.blocksOf|);
    NumAtLeast(s.size, i, |s.blocksOf|);
  }

  lemma RingDistinct<T>(s: State<T>, p: nat, q: nat)
    requires IndexOk(s) && RingOk(s.ring, s.blocks) && s.lo <= p < q < |s.blocksOf|
    ensures s.blocksOf[p] != s.blocksOf[q]
  {
    assert s.ring[p - s.lo] == s.blocksOf[p] && s.ring[q - s.lo] == s.blocksOf[q];
  }

  lemma AroundIsRemainder(x: int, n: nat)
    requires 0 <= x + n && x < n + n
    ensures x % n == Around(x, n)
  {
    Quotient(x, n, if x < 0 then -1 else if x < n then 0 else 1, Around(x, n));
  }

  lemma SlotAfter(size: nat, origin: nat, q: nat)
    requires size > 0 && origin <= q
    ensures Around(Slot(size, origin, q) + 1, size) == Slot(size, origin, q + 1)
  {
    SlotMove(size, origin, q, q + 1);
    AroundIsRemainder(Slot(size, origin, q) + 1, size);
  }

  /** Values stay put when no data changes and the window does not grow. */
  lemma SameData<T>(s: State<T>, s': State<T>)
    requires s.size > 0 && DataOk(s.blocks, s.size, s.blocksOf, s.lo, s.done, s.log)
    requires s'.size == s.size && s'.log == s.log && s.blocksOf <= s'.blocksOf
    requires s.lo <= s'.lo && s.done <= s'.done && |s.blocks| <= |s'.blocks|
    requires forall b | 0 <= b < |s.blocks| :: s'.blocks[b].data == s.blocks[b].data
    ensures DataOk(s'.blocks, s'.size, s'.blocksOf, s'.lo, s'.done, s'.log)
  {
    forall i: nat | i < |s'.log| && s'.lo <= Num(s.size, i) && i !in s'.done
      ensures ValueOk(s'.blocks, s.size, s'.blocksOf, s'.log, i)
    {
      assert ValueOk(s.blocks, s.size, s.blocksOf, s.log, i);
    }
  }
}
