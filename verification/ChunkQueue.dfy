/** The chunked queue of mpmc.hpp and spsc.hpp: linked chunks with one recycled
    spare, cached pointers, a lazily advanced front and a chunk budget. Producers
    exclude each other by spin_p_ and consumers by spin_c_ (spsc has one of
    each), so one producer and one consumer run interleaved; every step makes at
    most one access to what they share. Chunks live in `heap`: a freed chunk is
    gone from it and its address may be allocated again.

    `chain`, `start`, `backAt`, `cachedAt`, `pushed` and `popped` are history:
    the linked chunks, the position of the first slot of the first one, where in
    the chain the published and the cached pointer point, and the values. */
module ChunkQueue {
  import BlockMath

  datatype Ptr = Null | At(chunk: nat)

  /** An element pointer: offset `off` in a chunk, possibly one past its end. */
  datatype Place = Place(chunk: nat, off: nat)

  datatype Chunk<T> = Chunk(next: Ptr, data: seq<T>)

  datatype PushOp<T> = Push(x: T) | AskFull
  datatype PopOp = Pop | AskEmpty

  datatype Producer<T> =
    | PIdle
    | PTest(op: PushOp<T>)
    | PExchange(op: PushOp<T>)
    | PLoadNum(op: PushOp<T>, held: seq<T>, numThen: int)   // held and numThen are history
    | PMalloc(op: PushOp<T>)
    | PCount(op: PushOp<T>, c: nat)
    | PLink(op: PushOp<T>, c: nat)
    | PStore(x: T)
    | PPublish(x: T)

  datatype Consumer =
    | CIdle
    | CTest(op: PopOp)
    | CLoad(op: PopOp)
    | CMove(op: PopOp)
    | CFree(op: PopOp, c: nat)
    | CRelease(op: PopOp, c: nat)
    | CCount(op: PopOp)
    | CRead

  datatype State<T> = State(
    size: nat,
    capacity: nat,             // chunk_capacity_, the spare chunk included
    heap: map<nat, Chunk<T>>,
    num: int,
    spare: Ptr,
    front: nat,
    frontPtr: Place,
    frontEnd: Place,
    back: nat,
    backLocal: Place,
    backEnd: Place,
    backPtr: Place,
    backCached: Place,
    producer: Producer<T>,
    consumer: Consumer,
    chain: seq<nat>,
    start: nat,
    backAt: nat,
    cachedAt: nat,
    pushed: seq<T>,
    popped: seq<T>)

  datatype Event<T> =
    | CallPush(op: PushOp<T>)
    | CallPop(pop: PopOp)
    | Produce
    | Malloc(c: nat, data: seq<T>)   // allocation succeeds at a free address
    | MallocFails
    | Consume

  // ----- the steps -----

  function AfterRoom<T>(op: PushOp<T>): Producer<T>
  {
    match op
    case Push(x) => PStore(x)
    case AskFull => PIdle
  }

  function AfterMove(op: PopOp): Consumer { if op.Pop? then CRead else CIdle }

  function Stored<T>(s: State<T>): seq<T>
  {
    if |s.popped| <= |s.pushed| then s.pushed[|s.popped|..] else []
  }

  function ProduceStep<T>(s: State<T>): State<T>
    requires !s.producer.PIdle? && !s.producer.PMalloc? && Reachable(s)
  {
    match s.producer
    case PTest(op) =>
      s.(producer := if s.backLocal.off < s.backEnd.off then AfterRoom(op) else PExchange(op))
    case PExchange(op) =>
      if s.spare.At? then
        s.(spare := Null, producer := PLink(op, s.spare.chunk),
           heap := s.heap[s.spare.chunk := s.heap[s.spare.chunk].(next := Null)])
      else
        s.(producer := PLoadNum(op, Stored(s), s.num))
    case PLoadNum(op, _, _) => s.(producer := if s.num >= s.capacity then PIdle else PMalloc(op))
    case PCount(op, c) => s.(num := s.num + 1, producer := PLink(op, c))
    case PLink(op, c) =>
      var heap := s.heap[c := s.heap[c].(next := Null)];
      s.(heap := heap[s.back := heap[s.back].(next := At(c))],
         back := c, backEnd := Place(c, s.size), backLocal := Place(c, 0),
         chain := s.chain + [c], producer := AfterRoom(op))
    case PStore(x) =>
      var chunk := s.heap[s.backLocal.chunk];
      s.(heap := s.heap[s.backLocal.chunk := chunk.(data := chunk.data[s.backLocal.off := x])],
         producer := PPublish(x))
    case PPublish(x) =>
      var p := Place(s.backLocal.chunk, s.backLocal.off + 1);
      s.(backLocal := p, backPtr := p, backAt := if |s.chain| > 0 then |s.chain| - 1 else 0,
         pushed := s.pushed + [x], producer := PIdle)
  }

  function ConsumeStep<T>(s: State<T>): State<T>
    requires !s.consumer.CIdle? && Reachable(s)
  {
    match s.consumer
    case CTest(op) => s.(consumer := if s.frontPtr != s.backCached then CMove(op) else CLoad(op))
    case CLoad(op) =>
      s.(backCached := s.backPtr, cachedAt := s.backAt,
         consumer := if s.frontPtr == s.backPtr then CIdle else CMove(op))
    case CMove(op) =>
      if s.frontPtr == s.frontEnd then
        var f := s.heap[s.front].next.chunk;
        s.(front := f, frontPtr := Place(f, 0), frontEnd := Place(f, s.size), consumer := CFree(op, s.front),
           chain := s.chain[1..], start := s.start + s.size,
           backAt := if s.backAt > 0 then s.backAt - 1 else 0,
           cachedAt := if s.cachedAt > 0 then s.cachedAt - 1 else 0)
      else
        s.(consumer := AfterMove(op))
    case CFree(op, c) =>
      s.(heap := s.heap[c := s.heap[c].(next := Null)], spare := At(c),
         consumer := if s.spare.At? then CRelease(op, s.spare.chunk) else AfterMove(op))
    case CRelease(op, c) => s.(heap := s.heap - {c}, consumer := CCount(op))
    case CCount(op) => s.(num := s.num - 1, consumer := AfterMove(op))
    case CRead =>
      s.(popped := s.popped + [s.heap[s.frontPtr.chunk].data[s.frontPtr.off]],
         frontPtr := Place(s.frontPtr.chunk, s.frontPtr.off + 1), consumer := CIdle)
  }

  /** The memory the next step of either side touches is allocated. */
  predicate Reachable<T>(s: State<T>)
  {
    && (s.producer.PExchange? && s.spare.At? ==> s.spare.chunk in s.heap)
    && (s.producer.PLink? ==> s.producer.c in s.heap && s.back in s.heap)
    && (s.producer.PStore? ==> s.backLocal.chunk in s.heap && s.backLocal.off < |s.heap[s.backLocal.chunk].data|)
    && (s.consumer.CMove? && s.frontPtr == s.frontEnd ==>
          s.front in s.heap && s.heap[s.front].next.At? && |s.chain| > 0)
    && (s.consumer.CFree? ==> s.consumer.c in s.heap)
    && (s.consumer.CRead? ==> s.frontPtr.chunk in s.heap && s.frontPtr.off < |s.heap[s.frontPtr.chunk].data|)
  }

  predicate Enabled<T>(s: State<T>, e: Event<T>)
  {
    match e
    case CallPush(_) => s.producer.PIdle?
    case CallPop(_) => s.consumer.CIdle?
    case Produce => !s.producer.PIdle? && !s.producer.PMalloc? && Reachable(s)
    case Malloc(c, data) => s.producer.PMalloc? && c !in s.heap && |data| == s.size
    case MallocFails => s.producer.PMalloc?
    case Consume => !s.consumer.CIdle? && Reachable(s)
  }

  function Apply<T>(s: State<T>, e: Event<T>): State<T>
    requires Enabled(s, e)
  {
    match e
    case CallPush(op) => s.(producer := PTest(op))
    case CallPop(pop) => s.(consumer := CTest(pop))
    case Produce => ProduceStep(s)
    case Malloc(c, data) => s.(heap := s.heap[c := Chunk(Null, data)], producer := PCount(s.producer.op, c))
    case MallocFails => s.(producer := PIdle)
    case Consume => ConsumeStep(s)
  }

  /** The constructor with arguments chunkSize and chunkCapacity, its first chunk
      allocated at c. */
  predicate Init<T>(s: State<T>, chunkSize: nat, chunkCapacity: nat)
  {
    && s.size == (if chunkSize > 0 then chunkSize else 1)
    && s.capacity == (if chunkCapacity > 2 then chunkCapacity else 2) + 1
    && s.heap.Keys == {s.front} && s.heap[s.front].next == Null && |s.heap[s.front].data| == s.size
    && s.num == 1 && s.spare == Null && s.back == s.front
    && s.frontPtr == s.backLocal == s.backPtr == s.backCached == Place(s.front, 0)
    && s.frontEnd == s.backEnd == Place(s.front, s.size)
    && s.producer.PIdle? && s.consumer.CIdle?
    && s.chain == [s.front] && s.start == s.backAt == s.cachedAt == 0
    && |s.pushed| == |s.popped| == 0
  }

  ghost predicate Run<T>(states: seq<State<T>>, events: seq<Event<T>>, chunkSize: nat, chunkCapacity: nat)
  {
    && |states| == |events| + 1
    && Init(states[0], chunkSize, chunkCapacity)
    && forall i | 0 <= i < |events| ::
         Enabled(states[i], events[i]) && states[i + 1] == Apply(states[i], events[i])
  }

  // ----- the invariant -----

  /** The position of the first slot of chain element i. */
  function Base(start: nat, size: nat, i: nat): nat
  {
    start + BlockMath.Start(size, i)
  }

  /** The slots of all chunks of the budget but one. */
  function Room(size: nat, capacity: nat): nat
  {
    if capacity > 0 then BlockMath.Start(size, capacity - 1) else 0
  }

  function Last<T>(s: State<T>): nat { if |s.chain| > 0 then |s.chain| - 1 else 0 }

  function Elements(cs: seq<nat>): set<nat> { set c | c in cs }

  function Spare<T>(s: State<T>): set<nat> { if s.spare.At? then {s.spare.chunk} else {} }

  /** Chunks in the hands of the producer, and of the consumer. */
  function Making<T>(s: State<T>): set<nat>
  {
    if s.producer.PCount? || s.producer.PLink? then {s.producer.c} else {}
  }

  function Freeing<T>(s: State<T>): set<nat>
  {
    if s.consumer.CFree? || s.consumer.CRelease? then {s.consumer.c} else {}
  }

  ghost predicate Distinct(cs: seq<nat>)
  {
    forall i, j | 0 <= i < j < |cs| :: cs[i] != cs[j]
  }

  /** No chunk is in two places, and exactly these are allocated. */
  ghost predicate Owned(chain: seq<nat>, spare: set<nat>, making: set<nat>, freeing: set<nat>, keys: set<nat>)
  {
    && Distinct(chain)
    && Elements(chain) !! spare !! making !! freeing
    && keys == Elements(chain) + spare + making + freeing
  }

  ghost predicate Sized<T>(heap: map<nat, Chunk<T>>, size: nat)
  {
    forall c | c in heap :: |heap[c].data| == size
  }

  ghost predicate Links<T>(chain: seq<nat>, heap: map<nat, Chunk<T>>)
  {
    && (forall i | 0 <= i < |chain| - 1 :: chain[i] in heap)
    && (forall i, j | 0 <= i < j < |chain| && j == i + 1 :: heap[chain[i]].next == At(chain[j]))
  }

  ghost predicate Ends<T>(s: State<T>)
  {
    && |s.chain| > 0 && s.size > 0 && s.capacity >= 3
    && s.front == s.chain[0] && s.back == s.chain[Last(s)]
    && s.frontEnd == Place(s.front, s.size) && s.backEnd == Place(s.back, s.size)
    && s.frontPtr.chunk == s.front && s.frontPtr.off <= s.size
    && s.backLocal.chunk == s.back && s.backLocal.off <= s.size
  }

  /** A pointer into chain element i; the start of a chunk other than the very
      first is always spelled as the end of the chunk before it. */
  ghost predicate PointsTo<T>(s: State<T>, at: Place, i: nat)
  {
    && i < |s.chain| && at.chunk == s.chain[i]
    && at.off <= s.size
    && (at.off == 0 ==> i == 0 && s.start == 0)
  }

  function Position<T>(s: State<T>, at: Place, i: nat): nat { Base(s.start, s.size, i) + at.off }

  ghost predicate Positions<T>(s: State<T>)
  {
    && s.popped <= s.pushed
    && |s.popped| == s.start + s.frontPtr.off
    && |s.pushed| == Base(s.start, s.size, Last(s)) + s.backLocal.off
    && PointsTo(s, s.backPtr, s.backAt) && Position(s, s.backPtr, s.backAt) == |s.pushed|
    && (s.backAt == Last(s) || (s.backAt + 1 == Last(s) && s.backLocal.off == 0))
    && PointsTo(s, s.backCached, s.cachedAt)
    && |s.popped| <= Position(s, s.backCached, s.cachedAt) <= |s.pushed|
    && s.cachedAt <= s.backAt
  }

  /** Slot `off` of chain element i lies between the front and the back. */
  ghost predicate Holds(n: nat, size: nat, from: nat, to: nat, i: nat, off: nat)
  {
    i < n && off < size && (i > 0 || off >= from) && (i < n - 1 || off < to)
  }

  /** The slots between front and back hold the values pushed at their position. */
  ghost predicate Data<T>(chain: seq<nat>, heap: map<nat, Chunk<T>>, size: nat,
      start: nat, from: nat, to: nat, pushed: seq<T>)
  {
    forall i, off | 0 <= i < |chain| && 0 <= off < size && Holds(|chain|, size, from, to, i, off) ::
      Slot(chain, heap, size, start, i, off, pushed)
  }

  ghost predicate Slot<T>(chain: seq<nat>, heap: map<nat, Chunk<T>>, size: nat,
      start: nat, i: nat, off: nat, pushed: seq<T>)
    requires i < |chain|
  {
    && chain[i] in heap && off < |heap[chain[i]].data|
    && Base(start, size, i) + off < |pushed|
    && heap[chain[i]].data[off] == pushed[Base(start, size, i) + off]
  }

  function One(b: bool): int { if b then 1 else 0 }

  /** chunk_num_ counts linked chunks, the spare and the chunks in transit. */
  ghost predicate Budget<T>(s: State<T>)
  {
    && s.num == |s.chain| + One(s.spare.At?) + One(s.producer.PLink?)
                + One(s.consumer.CFree? || s.consumer.CRelease? || s.consumer.CCount?)
    && s.num <= s.capacity
  }

  ghost predicate ProducerOk<T>(s: State<T>)
  {
    match s.producer
    case PIdle => true
    case PTest(_) => true
    case PExchange(_) => s.backLocal.off == s.size
    case PLoadNum(_, held, numThen) =>
      && s.backLocal.off == s.size && s.num <= numThen
      && (numThen >= s.capacity ==> |held| >= Room(s.size, s.capacity))
    case PMalloc(_) => s.backLocal.off == s.size && s.num < s.capacity
    case PCount(_, c) => s.backLocal.off == s.size && s.num < s.capacity
    case PLink(_, c) => s.backLocal.off == s.size
    case PStore(_) => s.backLocal.off < s.size
    case PPublish(x) =>
      s.backLocal.off < s.size && s.back in s.heap && s.backLocal.off < |s.heap[s.back].data|
      && s.heap[s.back].data[s.backLocal.off] == x
  }

  ghost predicate ConsumerOk<T>(s: State<T>)
  {
    match s.consumer
    case CIdle => true
    case CTest(_) => true
    case CLoad(_) => true
    case CMove(_) => |s.popped| < Position(s, s.backCached, s.cachedAt)
    case CRead => s.frontPtr.off < s.size && |s.popped| < Position(s, s.backCached, s.cachedAt)
    case _ => s.frontPtr.off == 0 && |s.popped| < Position(s, s.backCached, s.cachedAt)
  }

  ghost predicate Memory<T>(s: State<T>)
  {
    && Owned(s.chain, Spare(s), Making(s), Freeing(s), s.heap.Keys)
    && Sized(s.heap, s.size)
    && Links(s.chain, s.heap)
    && Data(s.chain, s.heap, s.size, s.start, s.frontPtr.off, s.backLocal.off, s.pushed)
  }

  /** Everything but the memory. */
  ghost predicate Control<T>(s: State<T>)
  {
    && Ends(s)
    && Positions(s)
    && Budget(s)
    && ProducerOk(s)
    && ConsumerOk(s)
  }

  ghost predicate Inv<T>(s: State<T>)
  {
    Memory(s) && Control(s)
  }

  lemma InvReachable<T>(s: State<T>)
    requires Inv(s)
    ensures Reachable(s)
  {
    assert s.front in s.heap && s.back in s.heap;
    if s.consumer.CMove? && s.frontPtr == s.frontEnd { MoveHasNext(s); }
  }

  /** The consumer moves on only when the link to the next chunk is set. */
  lemma MoveHasNext<T>(s: State<T>)
    requires Inv(s) && s.consumer.CMove? && s.frontPtr == s.frontEnd
    ensures |s.chain| > 1 && s.front in s.heap && s.heap[s.front].next == At(s.chain[1])
    ensures s.cachedAt > 0
  {
    assert s.cachedAt == 0 ==> Base(s.start, s.size, s.cachedAt) == s.start;
    assert s.heap[s.chain[0]].next == At(s.chain[0 + 1]);
  }

  /** front_ptr_ and a published pointer are equal exactly when the positions
      they stand for are. */
  lemma EqualPointers<T>(s: State<T>, at: Place, i: nat)
    requires Ends(s) && Positions(s) && Distinct(s.chain) && PointsTo(s, at, i)
    ensures s.frontPtr == at <==> |s.popped| == Position(s, at, i)
  {
    if i > 0 {
      BaseGrows(s.start, s.size, 1, i);
      assert Base(s.start, s.size, 0) == s.start;
      assert s.chain[0] != s.chain[i];
    }
  }

  lemma BaseGrows(start: nat, size: nat, i: nat, j: nat)
    requires i <= j
    ensures Base(start, size, i) <= Base(start, size, j)
  {
    if i < j { BlockMath.StartMono(size, i, j); }
  }

  lemma NextBase(start: nat, size: nat, i: nat)
    ensures Base(start + size, size, i) == Base(start, size, i + 1)
  {}

  // ----- the memory under a step -----

  /** A write to a chunk that is not linked. */
  lemma LooseWrite<T>(s: State<T>, heap: map<nat, Chunk<T>>, c: nat)
    requires Links(s.chain, s.heap) && c !in s.chain
    requires Data(s.chain, s.heap, s.size, s.start, s.frontPtr.off, s.backLocal.off, s.pushed)
    requires forall d | d in s.heap && d != c :: d in heap && heap[d] == s.heap[d]
    ensures Links(s.chain, heap)
    ensures Data(s.chain, heap, s.size, s.start, s.frontPtr.off, s.backLocal.off, s.pushed)
  {
    forall i, j | 0 <= i < j < |s.chain| && j == i + 1
      ensures heap[s.chain[i]].next == At(s.chain[j])
    {
      assert s.heap[s.chain[i]].next == At(s.chain[j]);
      assert s.chain[i] != c;
    }
    forall i, off | 0 <= i < |s.chain| && 0 <= off < s.size
        && Holds(|s.chain|, s.size, s.frontPtr.off, s.backLocal.off, i, off)
      ensures Slot(s.chain, heap, s.size, s.start, i, off, s.pushed)
    {
      assert Slot(s.chain, s.heap, s.size, s.start, i, off, s.pushed);
      assert s.chain[i] != c;
    }
  }

  lemma ExchangeMemory<T>(s: State<T>)
    requires Memory(s) && Reachable(s) && s.producer.PExchange?
    ensures Memory(ProduceStep(s))
  {
    if s.spare.At? {
      LooseWrite(s, ProduceStep(s).heap, s.spare.chunk);
    }
  }

  lemma MallocMemory<T>(s: State<T>, c: nat, data: seq<T>)
    requires Memory(s) && Enabled(s, Malloc(c, data))
    ensures Memory(Apply(s, Malloc(c, data)))
  {
    LooseWrite(s, Apply(s, Malloc(c, data)).heap, c);
  }

  lemma FreeMemory<T>(s: State<T>)
    requires Memory(s) && Reachable(s) && s.consumer.CFree?
    ensures Memory(ConsumeStep(s))
  {
    LooseWrite(s, ConsumeStep(s).heap, s.consumer.c);
  }

  lemma ReleaseMemory<T>(s: State<T>)
    requires Memory(s) && Reachable(s) && s.consumer.CRelease?
    ensures Memory(ConsumeStep(s))
  {
    LooseWrite(s, ConsumeStep(s).heap, s.consumer.c);
  }

  lemma StoreMemory<T>(s: State<T>)
    requires Inv(s) && Reachable(s) && s.producer.PStore?
    ensures Memory(ProduceStep(s))
  {
    var s' := ProduceStep(s);
    assert s'.heap.Keys == s.heap.Keys;
    forall i, off | 0 <= i < |s.chain| && 0 <= off < s.size
        && Holds(|s.chain|, s.size, s.frontPtr.off, s.backLocal.off, i, off)
      ensures Slot(s.chain, s'.heap, s.size, s.start, i, off, s.pushed)
    {
      assert Slot(s.chain, s.heap, s.size, s.start, i, off, s.pushed);
    }
  }

  lemma PublishMemory<T>(s: State<T>)
    requires Inv(s) && Reachable(s) && s.producer.PPublish?
    ensures Memory(ProduceStep(s))
  {
    var s' := ProduceStep(s);
    forall i, off | 0 <= i < |s.chain| && 0 <= off < s.size
        && Holds(|s.chain|, s.size, s.frontPtr.off, s'.backLocal.off, i, off)
      ensures Slot(s.chain, s.heap, s.size, s.start, i, off, s'.pushed)
    {
      if Holds(|s.chain|, s.size, s.frontPtr.off, s.backLocal.off, i, off) {
        assert Slot(s.chain, s.heap, s.size, s.start, i, off, s.pushed);
      }
    }
  }

  lemma LinkMemory<T>(s: State<T>)
    requires Inv(s) && Reachable(s) && s.producer.PLink?
    ensures Memory(ProduceStep(s))
  {
    var s' := ProduceStep(s);
    var c := s.producer.c;
    assert Elements(s'.chain) == Elements(s.chain) + {c};
    assert s'.heap.Keys == s.heap.Keys;
    assert c !in s.chain;
    LinkLinks(s);
    LinkData(s);
  }

  lemma LinkData<T>(s: State<T>)
    requires Data(s.chain, s.heap, s.size, s.start, s.frontPtr.off, s.size, s.pushed) && |s.chain| > 0
    requires Reachable(s) && s.producer.PLink? && s.producer.c !in s.chain
    ensures var s' := ProduceStep(s);
            Data(s'.chain, s'.heap, s.size, s.start, s.frontPtr.off, 0, s.pushed)
  {
    var s' := ProduceStep(s);
    forall i, off | 0 <= i < |s'.chain| && 0 <= off < s.size && Holds(|s'.chain|, s.size, s.frontPtr.off, 0, i, off)
      ensures Slot(s'.chain, s'.heap, s.size, s.start, i, off, s.pushed)
    {
      assert Slot(s.chain, s.heap, s.size, s.start, i, off, s.pushed);
    }
  }

  lemma LinkLinks<T>(s: State<T>)
    requires Links(s.chain, s.heap) && Distinct(s.chain) && Ends(s) && Reachable(s)
    requires s.producer.PLink? && s.producer.c !in s.chain
    ensures Links(ProduceStep(s).chain, ProduceStep(s).heap)
  {
    var s' := ProduceStep(s);
    forall i, j | 0 <= i < j < |s'.chain| && j == i + 1
      ensures s'.heap[s'.chain[i]].next == At(s'.chain[j])
    {
      if j < |s.chain| {
        assert s.heap[s.chain[i]].next == At(s.chain[j]);
        assert s.chain[i] != s.chain[Last(s)];
      }
    }
  }

  lemma MoveMemory<T>(s: State<T>)
    requires Inv(s) && Reachable(s) && s.consumer.CMove?
    ensures Memory(ConsumeStep(s))
  {
    if s.frontPtr == s.frontEnd {
      MoveHasNext(s);
      MovedMemory(s, ConsumeStep(s));
    }
  }

  lemma MovedMemory<T>(s: State<T>, s': State<T>)
    requires Memory(s) && |s.chain| > 1 && s.front == s.chain[0] && s.frontPtr.off == s.size
    requires s'.heap == s.heap && s'.chain == s.chain[1..] && s'.size == s.size && s'.pushed == s.pushed
    requires s'.start == s.start + s.size && s'.frontPtr.off == 0 && s'.backLocal == s.backLocal
    requires Spare(s') == Spare(s) && Making(s') == Making(s) && Freeing(s) == {} && Freeing(s') == {s.front}
    ensures Memory(s')
  {
    TailElements(s.chain);
    TailLinks(s.chain, s.heap);
    TailData(s.chain, s.heap, s.size, s.start, s.backLocal.off, s.pushed);
  }

  lemma TailElements(chain: seq<nat>)
    requires |chain| > 0 && Distinct(chain)
    ensures Elements(chain) == Elements(chain[1..]) + {chain[0]}
    ensures chain[0] !in Elements(chain[1..]) && Distinct(chain[1..])
  {
    assert chain == [chain[0]] + chain[1..];
  }

  lemma TailLinks<T>(chain: seq<nat>, heap: map<nat, Chunk<T>>)
    requires |chain| > 0 && Links(chain, heap)
    ensures Links(chain[1..], heap)
  {
    forall i, j | 0 <= i < j < |chain[1..]| && j == i + 1
      ensures heap[chain[1..][i]].next == At(chain[1..][j])
    {
      assert heap[chain[i + 1]].next == At(chain[j + 1]);
    }
  }

  /** Dropping a used-up first chunk keeps the values of the others in place. */
  lemma TailData<T>(chain: seq<nat>, heap: map<nat, Chunk<T>>, size: nat, start: nat, to: nat, pushed: seq<T>)
    requires |chain| > 1 && Data(chain, heap, size, start, size, to, pushed)
    ensures Data(chain[1..], heap, size, start + size, 0, to, pushed)
  {
    forall i, off | 0 <= i < |chain[1..]| && 0 <= off < size && Holds(|chain[1..]|, size, 0, to, i, off)
      ensures Slot(chain[1..], heap, size, start + size, i, off, pushed)
    {
      assert Holds(|chain|, size, size, to, i + 1, off);
      assert Slot(chain, heap, size, start, i + 1, off, pushed);
      NextBase(start, size, i);
    }
  }

  lemma ReadMemory<T>(s: State<T>)
    requires Memory(s) && Reachable(s) && s.consumer.CRead?
    ensures Memory(ConsumeStep(s))
  {
    var s' := ConsumeStep(s);
    forall i, off | 0 <= i < |s.chain| && 0 <= off < s.size
        && Holds(|s.chain|, s.size, s'.frontPtr.off, s.backLocal.off, i, off)
      ensures Slot(s.chain, s.heap, s.size, s.start, i, off, s.pushed)
    {
      assert Holds(|s.chain|, s.size, s.frontPtr.off, s.backLocal.off, i, off);
    }
  }

  // ----- every step keeps the invariant -----

  lemma ProduceControl<T>(s: State<T>)
    requires Control(s) && Reachable(s)
    requires s.producer.PTest? || s.producer.PLoadNum? || s.producer.PCount?
    ensures Control(ProduceStep(s))
  {}

  lemma StoreControl<T>(s: State<T>)
    requires Control(s) && Reachable(s) && s.producer.PStore?
    ensures Control(ProduceStep(s))
  {}

  /** At the exchange, a queue that has used up its budget is nearly full: all
      chunks but one are linked and unread. */
  lemma ExchangeControl<T>(s: State<T>)
    requires Control(s) && Reachable(s) && s.producer.PExchange?
    ensures Control(ProduceStep(s))
  {
    if s.spare.Null? && s.num >= s.capacity {
      NearlyFull(|s.chain|, s.capacity, s.size, s.frontPtr.off);
      assert |Stored(s)| == |s.pushed| - |s.popped|;
    }
  }

  /** n full chunks of which `from` slots of the first are read. */
  lemma NearlyFull(n: nat, capacity: nat, size: nat, from: nat)
    requires 0 < n && 0 < capacity && from <= size
    requires n >= capacity || (n == capacity - 1 && from == 0)
    ensures BlockMath.Start(size, n - 1) + size - from >= Room(size, capacity)
  {
    if n > capacity { BlockMath.StartMono(size, capacity - 1, n - 1); }
  }

  lemma LinkControl<T>(s: State<T>)
    requires Control(s) && Reachable(s) && s.producer.PLink?
    ensures Control(ProduceStep(s))
  {}

  lemma PublishControl<T>(s: State<T>)
    requires Control(s) && Reachable(s) && s.producer.PPublish?
    ensures Control(ProduceStep(s))
  {}

  lemma MoveControl<T>(s: State<T>)
    requires Inv(s) && Reachable(s) && s.consumer.CMove?
    ensures Control(ConsumeStep(s))
  {
    if s.frontPtr == s.frontEnd {
      MoveHasNext(s);
      MovePositions(s);
    }
  }

  lemma MovePositions<T>(s: State<T>)
    requires Control(s) && Reachable(s) && s.consumer.CMove? && s.frontPtr == s.frontEnd
    requires |s.chain| > 1 && s.heap[s.front].next == At(s.chain[1]) && s.cachedAt > 0
    ensures Control(ConsumeStep(s))
  {
    NextBase(s.start, s.size, Last(s) - 1);
    NextBase(s.start, s.size, s.backAt - 1);
    NextBase(s.start, s.size, s.cachedAt - 1);
  }

  lemma TestControl<T>(s: State<T>)
    requires Control(s) && Distinct(s.chain) && Reachable(s) && (s.consumer.CTest? || s.consumer.CLoad?)
    ensures Control(ConsumeStep(s))
  {
    EqualPointers(s, s.backCached, s.cachedAt);
    EqualPointers(s, s.backPtr, s.backAt);
  }

  lemma FreeControl<T>(s: State<T>)
    requires Inv(s) && Reachable(s) && (s.consumer.CFree? || s.consumer.CRelease? || s.consumer.CCount?)
    ensures Control(ConsumeStep(s))
  {
    BackStays(s);
    FreeFields(s);
  }

  lemma FreeFields<T>(s: State<T>)
    requires Control(s) && Reachable(s) && (s.consumer.CFree? || s.consumer.CRelease? || s.consumer.CCount?)
    requires s.back in s.heap && s.back in ConsumeStep(s).heap && ConsumeStep(s).heap[s.back] == s.heap[s.back]
    ensures Control(ConsumeStep(s))
  {}

  /** The consumer never touches the chunk the producer is writing. */
  lemma BackStays<T>(s: State<T>)
    requires Inv(s) && Reachable(s) && (s.consumer.CFree? || s.consumer.CRelease? || s.consumer.CCount?)
    ensures s.back in s.heap && s.back in ConsumeStep(s).heap
    ensures ConsumeStep(s).heap[s.back] == s.heap[s.back]
  {
    assert s.back in Elements(s.chain);
  }

  lemma ReadControl<T>(s: State<T>)
    requires Inv(s) && Reachable(s) && s.consumer.CRead?
    ensures Control(ConsumeStep(s))
  {
    ReadsNext(s);
    var s' := ConsumeStep(s);
    assert s'.popped == s.pushed[..|s.popped| + 1];
  }

  /** The value a pop reads is the next one pushed. */
  lemma ReadsNext<T>(s: State<T>)
    requires Inv(s) && Reachable(s) && s.consumer.CRead?
    ensures |s.popped| < |s.pushed|
    ensures s.heap[s.frontPtr.chunk].data[s.frontPtr.off] == s.pushed[|s.popped|]
  {
    assert Holds(|s.chain|, s.size, s.frontPtr.off, s.backLocal.off, 0, s.frontPtr.off);
    assert Slot(s.chain, s.heap, s.size, s.start, 0, s.frontPtr.off, s.pushed);
  }

  lemma ProduceKeepsMemory<T>(s: State<T>)
    requires Inv(s) && Enabled(s, Produce)
    ensures Memory(ProduceStep(s))
  {
    match s.producer
    case PExchange(_) => ExchangeMemory(s);
    case PLink(_, _) => LinkMemory(s);
    case PStore(_) => StoreMemory(s);
    case PPublish(_) => PublishMemory(s);
    case _ =>
  }

  lemma ProduceKeepsControl<T>(s: State<T>)
    requires Inv(s) && Enabled(s, Produce)
    ensures Control(ProduceStep(s))
  {
    match s.producer
    case PExchange(_) => ExchangeControl(s);
    case PLink(_, _) => LinkControl(s);
    case PStore(_) => StoreControl(s);
    case PPublish(_) => PublishControl(s);
    case _ => ProduceControl(s);
  }

  lemma ConsumeKeepsMemory<T>(s: State<T>)
    requires Inv(s) && Enabled(s, Consume)
    ensures Memory(ConsumeStep(s))
  {
    match s.consumer
    case CMove(_) => MoveMemory(s);
    case CFree(_, _) => FreeMemory(s);
    case CRelease(_, _) => ReleaseMemory(s);
    case CRead => ReadMemory(s);
    case _ =>
  }

  lemma ConsumeKeepsControl<T>(s: State<T>)
    requires Inv(s) && Enabled(s, Consume)
    ensures Control(ConsumeStep(s))
  {
    match s.consumer
    case CMove(_) => MoveControl(s);
    case CFree(_, _) => FreeControl(s);
    case CRelease(_, _) => FreeControl(s);
    case CCount(_) => FreeControl(s);
    case CRead => ReadControl(s);
    case _ => TestControl(s);
  }

  lemma StepKeepsInv<T>(s: State<T>, e: Event<T>)
    requires Inv(s) && Enabled(s, e)
    ensures Inv(Apply(s, e))
  {
    match e
    case Produce => ProduceKeepsMemory(s); ProduceKeepsControl(s);
    case Consume => ConsumeKeepsMemory(s); ConsumeKeepsControl(s);
    case Malloc(c, data) => MallocMemory(s, c, data); MallocControl(s, c, data);
    case CallPop(pop) => PopCallControl(s, pop);
    case _ => PushCallControl(s, e);
  }

  lemma PopCallControl<T>(s: State<T>, pop: PopOp)
    requires Control(s) && s.consumer.CIdle?
    ensures Control(s.(consumer := CTest(pop)))
  {}

  lemma PushCallControl<T>(s: State<T>, e: Event<T>)
    requires Control(s) && Enabled(s, e) && (e.CallPush? || e.MallocFails?)
    ensures Control(Apply(s, e))
  {}

  lemma MallocControl<T>(s: State<T>, c: nat, data: seq<T>)
    requires Control(s) && Enabled(s, Malloc(c, data))
    ensures Control(Apply(s, Malloc(c, data)))
  {}

  lemma InitInv<T>(s: State<T>, chunkSize: nat, chunkCapacity: nat)
    requires Init(s, chunkSize, chunkCapacity)
    ensures Inv(s)
  {
    assert s.front in s.heap;
  }

  lemma {:induction false} RunKeepsInv<T>(states: seq<State<T>>, events: seq<Event<T>>,
      chunkSize: nat, chunkCapacity: nat, i: nat)
    requires Run(states, events, chunkSize, chunkCapacity) && i < |states|
    ensures Inv(states[i])
  {
    if i == 0 {
      InitInv(states[0], chunkSize, chunkCapacity);
    } else {
      RunKeepsInv(states, events, chunkSize, chunkCapacity, i - 1);
      StepKeepsInv(states[i - 1], events[i - 1]);
    }
  }

  lemma {:induction false} RunKeepsSize<T>(states: seq<State<T>>, events: seq<Event<T>>,
      chunkSize: nat, chunkCapacity: nat, i: nat)
    requires Run(states, events, chunkSize, chunkCapacity) && i < |states|
    ensures states[i].size == states[0].size && states[i].capacity == states[0].capacity
  {
    if i > 0 {
      RunKeepsSize(states, events, chunkSize, chunkCapacity, i - 1);
      assert states[i] == Apply(states[i - 1], events[i - 1]);
    }
  }

  // ----- what holds over every run -----

  /** First in, first out: the values popped are at every moment a prefix of the
      values pushed, in order, whatever the interleaving. */
  lemma PopsInOrder<T>(states: seq<State<T>>, events: seq<Event<T>>, chunkSize: nat, chunkCapacity: nat, i: nat)
    requires Run(states, events, chunkSize, chunkCapacity) && i < |states|
    ensures |states[i].popped| <= |states[i].pushed|
    ensures states[i].popped == states[i].pushed[..|states[i].popped|]
  {
    RunKeepsInv(states, events, chunkSize, chunkCapacity, i);
  }

  /** A pop reports an empty queue only when it is empty at that load. */
  lemma EmptyMeansEmpty<T>(states: seq<State<T>>, events: seq<Event<T>>, chunkSize: nat, chunkCapacity: nat, i: nat)
    requires Run(states, events, chunkSize, chunkCapacity) && i < |events| && events[i].Consume?
    requires states[i].consumer.CLoad?
    ensures states[i + 1].consumer.CIdle? <==> states[i].popped == states[i].pushed
  {
    RunKeepsInv(states, events, chunkSize, chunkCapacity, i);
    EqualPointers(states[i], states[i].backPtr, states[i].backAt);
  }

  /** Both sides only ever touch allocated chunks; the consumer moves on only to
      a chunk that is linked; the spare is neither reachable from front_chunk_
      nor the producer's back_chunk_. */
  lemma ChunksAreSafe<T>(states: seq<State<T>>, events: seq<Event<T>>, chunkSize: nat, chunkCapacity: nat, i: nat)
    requires Run(states, events, chunkSize, chunkCapacity) && i < |states|
    ensures Reachable(states[i])
    ensures Links(states[i].chain, states[i].heap) && |states[i].chain| > 0
    ensures states[i].front == states[i].chain[0] && states[i].back == states[i].chain[|states[i].chain| - 1]
    ensures forall c | c in states[i].chain :: c in states[i].heap && states[i].spare != At(c)
  {
    RunKeepsInv(states, events, chunkSize, chunkCapacity, i);
    InvReachable(states[i]);
    forall c | c in states[i].chain ensures c in states[i].heap && states[i].spare != At(c) {
      assert c in Elements(states[i].chain);
    }
  }

  /** The chunk budget. */
  lemma BudgetKept<T>(states: seq<State<T>>, events: seq<Event<T>>, chunkSize: nat, chunkCapacity: nat, i: nat)
    requires Run(states, events, chunkSize, chunkCapacity) && i < |states|
    ensures Budget(states[i])
  {
    RunKeepsInv(states, events, chunkSize, chunkCapacity, i);
  }

  lemma EnterLoadNum<T>(s: State<T>, e: Event<T>)
    requires Enabled(s, e) && Apply(s, e).producer.PLoadNum?
    ensures var p := Apply(s, e).producer;
            s.producer == p || (s.producer == PExchange(p.op) && p.held == Stored(s))
  {}

  /** The elements recorded by a push that missed the spare are those that were
      stored when it looked for one. */
  lemma {:induction false} HeldWasStored<T>(states: seq<State<T>>, events: seq<Event<T>>,
      chunkSize: nat, chunkCapacity: nat, i: nat)
    returns (j: nat)
    requires Run(states, events, chunkSize, chunkCapacity) && i < |states|
    requires states[i].producer.PLoadNum?
    ensures j < i && states[j].producer == PExchange(states[i].producer.op)
    ensures states[i].producer.held == Stored(states[j])
    ensures forall k | j < k <= i :: states[k].producer == states[i].producer
  {
    EnterLoadNum(states[i - 1], events[i - 1]);
    if states[i - 1].producer == states[i].producer {
      j := HeldWasStored(states, events, chunkSize, chunkCapacity, i - 1);
    } else {
      j := i - 1;
    }
  }

  /** If allocation succeeds, a push is refused only when, at the moment the call
      found no spare chunk, at least (chunk_capacity_ - 1) * chunk_size_ elements
      were stored, even while the consumer was about to free a chunk. */
  lemma RefusedOnlyWhenFull<T>(states: seq<State<T>>, events: seq<Event<T>>, chunkSize: nat, chunkCapacity: nat, i: nat)
    returns (j: nat)
    requires Run(states, events, chunkSize, chunkCapacity) && i < |states|
    requires states[i].producer.PLoadNum? && states[i].num >= states[i].capacity
    ensures j < i && states[j].producer == PExchange(states[i].producer.op)
    ensures |states[j].pushed| - |states[j].popped| >= (states[i].capacity - 1) * states[i].size
  {
    RunKeepsInv(states, events, chunkSize, chunkCapacity, i);
    j := HeldWasStored(states, events, chunkSize, chunkCapacity, i);
    RunKeepsInv(states, events, chunkSize, chunkCapacity, j);
    BlockMath.StartIsProduct(states[i].size, states[i].capacity - 1);
  }

  /** approx_size, while the published pointer is in the last chunk. */
  function ApproxSize<T>(s: State<T>): int
    requires s.backPtr.chunk == s.backEnd.chunk
  {
    s.num * s.size - (if s.spare.At? then s.size else 0) - s.frontPtr.off - (s.backEnd.off - s.backPtr.off)
  }

  /** approx_size is exact at rest, unless a chunk was appended and not pushed to. */
  lemma ApproxSizeIsExact<T>(states: seq<State<T>>, events: seq<Event<T>>, chunkSize: nat, chunkCapacity: nat, i: nat)
    requires Run(states, events, chunkSize, chunkCapacity) && i < |states|
    requires states[i].producer.PIdle? && states[i].consumer.CIdle?
    requires states[i].backPtr.chunk == states[i].backEnd.chunk
    ensures ApproxSize(states[i]) == |states[i].pushed| - |states[i].popped|
  {
    RunKeepsInv(states, events, chunkSize, chunkCapacity, i);
    RestSize(states[i]);
  }

  lemma RestSize<T>(s: State<T>)
    requires Inv(s) && s.producer.PIdle? && s.consumer.CIdle? && s.backPtr.chunk == s.backEnd.chunk
    ensures ApproxSize(s) == |s.pushed| - |s.popped|
  {
    assert s.chain[s.backAt] == s.chain[Last(s)];
    LinkedSize(|s.chain|, s.size, s.start);
    SpareSize(|s.chain|, s.size);
  }

  lemma LinkedSize(n: nat, size: nat, start: nat)
    requires n > 0
    ensures Base(start, size, n - 1) + size == start + n * size
  {
    BlockMath.StartIsProduct(size, n);
  }

  lemma SpareSize(n: nat, size: nat)
    ensures (n + 1) * size - size == n * size
  {}

  // ----- pools -----

  /** Distinct numbers below n are at most n. */
  lemma {:induction false} Pigeonhole(xs: seq<nat>, n: nat)
    requires forall i | 0 <= i < |xs| :: xs[i] < n
    requires Distinct(xs)
    ensures |xs| <= n
    decreases n
  {
    assert |xs| > 0 ==> xs[0] < n;
    if n == 0 {
    } else if n - 1 in xs {
      var k :| 0 <= k < |xs| && xs[k] == n - 1;
      Pigeonhole(xs[..k] + xs[k + 1..], n - 1);
    } else {
      assert forall i | 0 <= i < |xs| :: xs[i] != n - 1;
      Pigeonhole(xs, n - 1);
    }
  }

  /** Recycling never fails: a queue constructed for n + 1 elements, into which n
      tasks or contexts are put back each at most once, never refuses a push. */
  lemma PoolPushSucceeds(states: seq<State<nat>>, events: seq<Event<nat>>, n: nat, i: nat)
    requires Run(states, events, (n + 1) / 2, 2) && i < |states|
    requires states[i].producer.PLoadNum? && states[i].producer.op.Push?
    requires forall j | 0 <= j < i && states[j].producer == PExchange(states[i].producer.op) ::
               var xs := Stored(states[j]) + [states[i].producer.op.x];
               Distinct(xs) && forall k | 0 <= k < |xs| :: xs[k] < n
    ensures states[i].num < states[i].capacity
  {
    if states[i].num >= states[i].capacity {
      var j := RefusedOnlyWhenFull(states, events, (n + 1) / 2, 2, i);
      RunKeepsSize(states, events, (n + 1) / 2, 2, i);
      PoolSize(n, states[i].capacity, states[i].size);
      Pigeonhole(Stored(states[j]) + [states[i].producer.op.x], n);
    }
  }

  lemma PoolSize(n: nat, capacity: nat, size: nat)
    requires capacity == 3 && size == if (n + 1) / 2 > 0 then (n + 1) / 2 else 1
    ensures (capacity - 1) * size >= n
  {}
}
