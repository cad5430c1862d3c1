/** mpmc.hpp as an object whose calls update it in place, one call at a time (the
    spin locks admit one producer and one consumer; ChunkQueue interleaves those).
    Each method is a path through the steps of ChunkQueue, whose invariant it keeps;
    the addresses the allocator hands out are parameters. */
module Mpmc {
  import BlockMath
  import opened Runs
  import opened ChunkQueue

  /** The answer of the allocator: no memory, or a chunk at a free address. */
  datatype Allocation<T> = NoMemory | Memory(c: nat, data: seq<T>)

  datatype Popped<T> = Nothing | Value(t: T)

  // ----- the invariant, unfolded only on request -----

  /** Inv(s), behind a guard: the solver looks inside only where Open asks. */
  ghost predicate Kept<T>(s: State<T>)
  {
    forall k: nat {:trigger Asked(k)} | Asked(k) :: Inv(s)
  }

  lemma Open<T>(s: State<T>)
    requires Kept(s)
    ensures Inv(s)
  {
    assert Asked(0);
  }

  lemma InitKept<T>(s: State<T>, chunkSize: nat, chunkCapacity: nat)
    requires Init(s, chunkSize, chunkCapacity)
    ensures Kept(s)
  {
    InitInv(s, chunkSize, chunkCapacity);
  }

  /** One side may go on, or start or fail as the event says. */
  predicate Moves<T>(s: State<T>, e: Event<T>)
  {
    match e
    case Produce => !s.producer.PIdle? && !s.producer.PMalloc?
    case Consume => !s.consumer.CIdle?
    case _ => Enabled(s, e)
  }

  lemma Step<T>(s: State<T>, e: Event<T>)
    requires Kept(s) && Moves(s, e)
    ensures Enabled(s, e) && Kept(Apply(s, e))
  {
    Open(s);
    InvReachable(s);
    StepKeepsInv(s, e);
  }

  /** A push that finds neither spare nor budget has a nearly full queue. */
  lemma Refused<T>(s: State<T>)
    requires Kept(s) && s.producer.PExchange? && s.spare.Null? && s.num >= s.capacity
    ensures |Stored(s)| >= (s.capacity - 1) * s.size
  {
    Step(s, Produce);
    Open(ProduceStep(s));
    BlockMath.StartIsProduct(s.size, s.capacity - 1);
  }

  lemma CachedIsAhead<T>(s: State<T>)
    requires Kept(s)
    ensures s.frontPtr != s.backCached ==> |s.popped| < |s.pushed|
    ensures s.frontPtr == s.backPtr <==> |s.popped| == |s.pushed|
    ensures s.popped <= s.pushed
  {
    Open(s);
    EqualPointers(s, s.backCached, s.cachedAt);
    EqualPointers(s, s.backPtr, s.backAt);
  }

  lemma PrefixKept<T>(s: State<T>)
    requires Kept(s)
    ensures s.popped <= s.pushed
  {
    Open(s);
  }

  lemma ExactSize<T>(s: State<T>)
    requires Kept(s) && s.producer.PIdle? && s.consumer.CIdle? && s.backPtr.chunk == s.backEnd.chunk
    ensures ApproxSize(s) == |s.pushed| - |s.popped|
  {
    Open(s);
    RestSize(s);
  }

  lemma NextValue<T>(s: State<T>)
    requires Kept(s) && s.consumer.CRead?
    ensures Reachable(s) && s.popped <= s.pushed && |s.popped| < |s.pushed|
    ensures s.heap[s.frontPtr.chunk].data[s.frontPtr.off] == s.pushed[|s.popped|]
  {
    Open(s);
    InvReachable(s);
    ReadsNext(s);
  }

  class Mpmc<T> {
    const size: nat
    const capacity: nat
    var heap: map<nat, Chunk<T>>
    var num: int
    var spare: Ptr
    var front: nat
    var frontPtr: Place
    var frontEnd: Place
    var back: nat
    var backLocal: Place
    var backEnd: Place
    var backPtr: Place
    var backCached: Place

    ghost var model: State<T>

    /** The fields are those of the model. */
    ghost predicate Ties()
      reads this
    {
      && size == model.size && capacity == model.capacity && heap == model.heap && num == model.num
      && spare == model.spare && front == model.front && frontPtr == model.frontPtr && frontEnd == model.frontEnd
      && back == model.back && backLocal == model.backLocal && backEnd == model.backEnd
      && backPtr == model.backPtr && backCached == model.backCached
    }

    /** The invariant, with both sides where given. */
    ghost predicate Within(p: Producer<T>, c: Consumer)
      reads this
    {
      Ties() && Kept(model) && model.producer == p && model.consumer == c
    }

    ghost predicate Valid()
      reads this
    {
      Within(PIdle, CIdle)
    }

    ghost function Contents(): seq<T>
      reads this`model
    {
      Stored(model)
    }

    ghost predicate Fits(a: Allocation<T>)
      reads this`heap
    {
      a.Memory? ==> a.c !in heap && |a.data| == size
    }

    constructor (chunkSize: nat, chunkCapacity: nat, c: nat, data: seq<T>)
      requires |data| == if chunkSize > 0 then chunkSize else 1
      ensures Valid() && Contents() == []
      ensures size == (if chunkSize > 0 then chunkSize else 1)
      ensures capacity == (if chunkCapacity > 2 then chunkCapacity else 2) + 1
      ensures heap.Keys == {c}
    {
      size := if chunkSize > 0 then chunkSize else 1;
      capacity := (if chunkCapacity > 2 then chunkCapacity else 2) + 1;
      heap, num, spare := map[c := Chunk(Null, data)], 1, Null;
      front, back := c, c;
      frontPtr, backLocal, backPtr, backCached := Place(c, 0), Place(c, 0), Place(c, 0), Place(c, 0);
      frontEnd, backEnd := Place(c, |data|), Place(c, |data|);
      new;
      model := State(size, capacity, heap, num, spare, front, frontPtr, frontEnd, back, backLocal, backEnd, backPtr,
                     backCached, PIdle, CIdle, [c], 0, 0, 0, [], []);
      InitKept(model, chunkSize, chunkCapacity);
    }

    // ----- the producer -----

    /** The spare chunk, or a new one within the budget. */
    method AllocChunk(a: Allocation<T>, ghost op: PushOp<T>) returns (chk: Ptr)
      requires Within(PExchange(op), CIdle) && Fits(a)
      modifies this
      ensures Within(if chk.At? then PLink(op, chk.chunk) else PIdle, CIdle)
      ensures Contents() == old(Contents())
      ensures old(spare).At? ==> chk == old(spare) && spare == Null && num == old(num)
      ensures old(spare).Null? && chk.At? ==> a.Memory? && chk.chunk == a.c && num == old(num) + 1 <= capacity
      ensures chk.Null? ==> a.NoMemory? || |Contents()| >= (capacity - 1) * size
    {
      Step(model, Produce);
      if spare.At? {
        chk := spare;
        spare := Null;
        heap := heap[chk.chunk := heap[chk.chunk].(next := Null)];
        model := ProduceStep(model);
        return;
      }
      if num >= capacity { Refused(model); }
      model := ProduceStep(model);
      Step(model, Produce);
      model := ProduceStep(model);
      if num >= capacity {
        return Null;
      }
      chk := AllocNew(a, op);
    }

    method AllocNew(a: Allocation<T>, ghost op: PushOp<T>) returns (chk: Ptr)
      requires Within(PMalloc(op), CIdle) && Fits(a)
      modifies this
      ensures Within(if chk.At? then PLink(op, chk.chunk) else PIdle, CIdle)
      ensures Contents() == old(Contents()) && (chk.Null? <==> a.NoMemory?)
      ensures chk.At? ==> chk.chunk == a.c && num == old(num) + 1
    {
      match a
      case NoMemory =>
        Step(model, MallocFails);
        model := Apply(model, MallocFails);
        chk := Null;
      case Memory(c, data) =>
        Step(model, Malloc(c, data));
        heap := heap[c := Chunk(Null, data)];
        model := Apply(model, Malloc(c, data));
        Step(model, Produce);
        num := num + 1;
        model := ProduceStep(model);
        chk := At(c);
    }

    method AppendChunk(c: nat, ghost op: PushOp<T>)
      requires Within(PLink(op, c), CIdle)
      modifies this
      ensures Within(AfterRoom(op), CIdle) && Contents() == old(Contents())
      ensures back == c && old(back) in heap && heap[old(back)].next == At(c)
    {
      Step(model, Produce);
      heap := heap[c := heap[c].(next := Null)];
      heap := heap[back := heap[back].(next := At(c))];
      back := c;
      backEnd := Place(c, size);
      backLocal := Place(c, 0);
      model := ProduceStep(model);
    }

    /** _full: false leaves room at back_local_. */
    method NoRoom(a: Allocation<T>, ghost op: PushOp<T>) returns (full: bool)
      requires Within(PTest(op), CIdle) && Fits(a)
      modifies this
      ensures Within(if full then PIdle else AfterRoom(op), CIdle) && Contents() == old(Contents())
      ensures full ==> a.NoMemory? || |Contents()| >= (capacity - 1) * size
    {
      Step(model, Produce);
      model := ProduceStep(model);
      if backLocal.off < backEnd.off {
        return false;
      }
      var chk := AllocChunk(a, op);
      if chk.Null? {
        return true;
      }
      AppendChunk(chk.chunk, op);
      full := false;
    }

    method Full(a: Allocation<T>) returns (full: bool)
      requires Valid() && Fits(a)
      modifies this
      ensures Valid() && Contents() == old(Contents())
      ensures full ==> a.NoMemory? || |Contents()| >= (capacity - 1) * size
    {
      Step(model, CallPush(AskFull));
      model := Apply(model, CallPush(AskFull));
      full := NoRoom(a, AskFull);
    }

    /** Appends at the end. With memory, a push is refused only when at least
        (chunk_capacity_ - 1) * chunk_size_ elements are stored. */
    method Push(x: T, a: Allocation<T>) returns (ok: bool)
      requires Valid() && Fits(a)
      modifies this
      ensures Valid() && Contents() == if ok then old(Contents()) + [x] else old(Contents())
      ensures !ok ==> a.NoMemory? || |Contents()| >= (capacity - 1) * size
    {
      Step(model, CallPush(PushOp.Push(x)));
      model := Apply(model, CallPush(PushOp.Push(x)));
      var full := NoRoom(a, PushOp.Push(x));
      if full {
        return false;
      }
      StoreAndPublish(x);
      ok := true;
    }

    /** *back_local_ = t; push() */
    method StoreAndPublish(x: T)
      requires Within(PStore(x), CIdle)
      modifies this
      ensures Valid() && Contents() == old(Contents()) + [x]
    {
      PrefixKept(model);
      Step(model, Produce);
      var chunk := heap[backLocal.chunk];
      heap := heap[backLocal.chunk := chunk.(data := chunk.data[backLocal.off := x])];
      model := ProduceStep(model);
      Step(model, Produce);
      backLocal := Place(backLocal.chunk, backLocal.off + 1);
      backPtr := backLocal;
      model := ProduceStep(model);
    }

    // ----- the consumer -----

    /** Keeps the chunk as the spare and gives back the one it replaces. */
    method FreeChunk(c: nat, ghost op: PopOp)
      requires Within(PIdle, CFree(op, c))
      modifies this
      ensures Within(PIdle, AfterMove(op)) && Contents() == old(Contents())
      ensures front == old(front) && frontPtr == old(frontPtr)
      ensures spare == At(c) && (old(spare).At? ==> num == old(num) - 1 && old(spare).chunk !in heap)
    {
      Step(model, Consume);
      heap := heap[c := heap[c].(next := Null)];
      var previous := spare;
      spare := At(c);
      model := ConsumeStep(model);
      if previous.At? { GiveBack(previous.chunk, op); }
    }

    method GiveBack(c: nat, ghost op: PopOp)
      requires Within(PIdle, CRelease(op, c))
      modifies this`heap, this`num, this`model
      ensures Within(PIdle, AfterMove(op)) && Contents() == old(Contents())
      ensures num == old(num) - 1 && c !in heap
    {
      Step(model, Consume);
      heap := heap - {c};
      model := ConsumeStep(model);
      Step(model, Consume);
      num := num - 1;
      model := ConsumeStep(model);
    }

    method TryMoveNextChunk(ghost op: PopOp)
      requires Within(PIdle, CMove(op))
      modifies this
      ensures Within(PIdle, AfterMove(op)) && Contents() == old(Contents())
      ensures old(frontPtr == frontEnd) ==>
                old(front) in old(heap) && old(heap)[old(front)].next == At(front) && frontPtr == Place(front, 0)
                && spare == At(old(front))
      ensures old(frontPtr != frontEnd) ==> front == old(front) && frontPtr == old(frontPtr) && spare == old(spare)
    {
      Step(model, Consume);
      if frontPtr == frontEnd {
        var chk := front;
        front := heap[front].next.chunk;
        frontPtr := Place(front, 0);
        frontEnd := Place(front, size);
        model := ConsumeStep(model);
        FreeChunk(chk, op);
      } else {
        model := ConsumeStep(model);
      }
    }

    /** _empty: false leaves front_ptr_ at an element. */
    method NoElement(ghost op: PopOp) returns (empty: bool)
      requires Within(PIdle, CTest(op))
      modifies this
      ensures Within(PIdle, if empty then CIdle else AfterMove(op)) && Contents() == old(Contents())
      ensures empty <==> Contents() == []
    {
      CachedIsAhead(model);
      Step(model, Consume);
      model := ConsumeStep(model);
      if frontPtr != backCached {
        TryMoveNextChunk(op);
        return false;
      }
      Step(model, Consume);
      backCached := backPtr;
      model := ConsumeStep(model);
      if frontPtr == backCached {
        return true;
      }
      TryMoveNextChunk(op);
      empty := false;
    }

    method Empty() returns (empty: bool)
      requires Valid()
      modifies this
      ensures Valid() && Contents() == old(Contents()) && (empty <==> Contents() == [])
    {
      Step(model, CallPop(AskEmpty));
      model := Apply(model, CallPop(AskEmpty));
      empty := NoElement(AskEmpty);
    }

    /** Takes the first element; fails exactly on an empty queue. */
    method Pop() returns (r: Popped<T>)
      requires Valid()
      modifies this
      ensures Valid()
      ensures old(Contents()) == [] ==> r.Nothing? && Contents() == []
      ensures old(Contents()) != [] ==> r == Value(old(Contents())[0]) && Contents() == old(Contents())[1..]
    {
      Step(model, CallPop(PopOp.Pop));
      model := Apply(model, CallPop(PopOp.Pop));
      var empty := NoElement(PopOp.Pop);
      if empty {
        return Nothing;
      }
      var t := TakeFront();
      r := Value(t);
    }

    /** t = *front_ptr_; pop() */
    method TakeFront() returns (t: T)
      requires Within(PIdle, CRead)
      modifies this
      ensures Valid() && old(Contents()) == [t] + Contents()
    {
      NextValue(model);
      Step(model, Consume);
      t := heap[frontPtr.chunk].data[frontPtr.off];
      frontPtr := Place(frontPtr.chunk, frontPtr.off + 1);
      model := ConsumeStep(model);
    }

    /** approx_size, unless a chunk was appended and not pushed to. */
    method ApproxSize() returns (n: int)
      requires Valid() && backPtr.chunk == backEnd.chunk
      ensures n == |Contents()|
    {
      PrefixKept(model);
      ExactSize(model);
      n := num * size;
      if spare.At? {
        n := n - size;
      }
      n := n - frontPtr.off;
      n := n - (backEnd.off - backPtr.off);
    }
  }
}
