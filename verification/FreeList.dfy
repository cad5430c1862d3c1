/** The CAS-based lock-free free list of concurrentqueue.h, as a machine of
    sequentially consistent steps: every step is one atomic access of one
    thread, and there are any number of threads and nodes.

    A node packs into one 32-bit word a reference count (low 31 bits) and the
    "should be on the free list" bit. `list` and `status` are history: they say
    where each node logically is and no step reads them. */
module FreeList {
  import opened Tally
  import opened Runs

  const SHOULD_BE_ON_FREELIST := 0x8000_0000

  datatype Ptr = Null | At(node: nat)

  /** What a thread does after the re-add: return from `add`, or go on with the
      loop of `try_get` at the head that its failed CAS reported. */
  datatype Cont = Return | Resume(cur: Ptr)

  /** Program counters inside add_knowing_refcount_is_zero. */
  datatype Phase =
    | LoadHead
    | StoreNext(hd: Ptr)
    | StoreRefs(hd: Ptr)
    | SwapHead(hd: Ptr)
    | Rearm(hd: Ptr)

  /** One thread: idle, at some point of try_get, or re-adding a node. */
  datatype Local =
    | Idle
    | Reload
    | ReadRefs(h: nat)
    | CasRefs(h: nat, r: int)
    | ReadNext(h: nat)
    | CasHead(h: nat, nx: Ptr)
    | Release2(h: nat)
    | Drop(h: nat, cur: Ptr)
    | Adding(n: nat, phase: Phase, k: Cont)

  /** Where a node is: with the client, on the list, unlinked by a getter that
      has not returned it yet, being linked by one thread, or waiting for the
      thread that drops the last temporary reference to link it. */
  datatype Status = Owned | Listed | Taken | Readding | Pending

  datatype State = State(
    head: Ptr,
    refs: seq<int>,
    next: seq<Ptr>,
    threads: seq<Local>,
    list: seq<nat>,
    status: seq<Status>)

  datatype Event =
    | Get(t: nat)              // call of try_get
    | Add(t: nat, node: nat)   // call of add, up to and including its fetch_add
    | Go(t: nat)               // next atomic access of a running call

  // ----- the steps -----

  function Continue(k: Cont): Local
  {
    match k
    case Return => Idle
    case Resume(Null) => Idle
    case Resume(At(h)) => ReadRefs(h)
  }

  function Goto(s: State, t: nat, l: Local): State
    requires t < |s.threads|
  {
    s.(threads := s.threads[t := l])
  }

  predicate InRange(s: State, p: Ptr)
  {
    p.At? ==> p.node < |s.refs|
  }

  function AddCall(s: State, t: nat, n: nat): State
    requires t < |s.threads| && n < |s.refs| == |s.status|
  {
    var zero := s.refs[n] == 0;
    Goto(s, t, if zero then Adding(n, LoadHead, Return) else Idle)
    .(refs := s.refs[n := s.refs[n] + SHOULD_BE_ON_FREELIST],
      status := s.status[n := if zero then Readding else Pending])
  }

  function GetStep(s: State, t: nat): State
    requires Shape(s) && t < |s.threads| && LocalInRange(s, s.threads[t])
    requires !s.threads[t].Idle? && !s.threads[t].Adding?
  {
    match s.threads[t]
    case Reload => Goto(s, t, Continue(Resume(s.head)))
    case ReadRefs(h) =>
      Goto(s, t, if s.refs[h] % SHOULD_BE_ON_FREELIST == 0 then Reload else CasRefs(h, s.refs[h]))
    case CasRefs(h, r) =>
      if s.refs[h] == r then Goto(s, t, ReadNext(h)).(refs := s.refs[h := r + 1])
      else Goto(s, t, Reload)
    case ReadNext(h) => Goto(s, t, CasHead(h, s.next[h]))
    case CasHead(h, nx) =>
      if s.head == At(h) then
        Goto(s, t, Release2(h)).(head := nx,
                                 list := if |s.list| > 0 then s.list[1..] else [],
                                 status := s.status[h := Taken])
      else
        Goto(s, t, Drop(h, s.head))
    case Release2(h) =>
      Goto(s, t, Idle).(refs := s.refs[h := s.refs[h] - 2], status := s.status[h := Owned])
    case Drop(h, cur) =>
      var last := s.refs[h] == SHOULD_BE_ON_FREELIST + 1;
      Goto(s, t, if last then Adding(h, LoadHead, Resume(cur)) else Continue(Resume(cur)))
      .(refs := s.refs[h := s.refs[h] - 1],
        status := if last then s.status[h := Readding] else s.status)
  }

  function AddStep(s: State, t: nat): State
    requires Shape(s) && t < |s.threads| && LocalInRange(s, s.threads[t]) && s.threads[t].Adding?
  {
    var Adding(n, phase, k) := s.threads[t];
    match phase
    case LoadHead => Goto(s, t, Adding(n, StoreNext(s.head), k))
    case StoreNext(hd) => Goto(s, t, Adding(n, StoreRefs(hd), k)).(next := s.next[n := hd])
    case StoreRefs(hd) => Goto(s, t, Adding(n, SwapHead(hd), k)).(refs := s.refs[n := 1])
    case SwapHead(hd) =>
      if s.head == hd then
        Goto(s, t, Continue(k)).(head := At(n), list := [n] + s.list, status := s.status[n := Listed])
      else
        Goto(s, t, Adding(n, Rearm(s.head), k))
    case Rearm(hd) =>
      var again := s.refs[n] == 1;
      Goto(s, t, if again then Adding(n, StoreNext(hd), k) else Continue(k))
      .(refs := s.refs[n := s.refs[n] + SHOULD_BE_ON_FREELIST - 1],
        status := if again then s.status else s.status[n := Pending])
  }

  predicate Enabled(s: State, e: Event)
    requires Shape(s)
  {
    && e.t < |s.threads|
    && match e
       case Get(t) => s.threads[t].Idle?
       case Add(t, n) => s.threads[t].Idle? && n < |s.refs| && s.status[n] == Owned
       case Go(t) => !s.threads[t].Idle? && LocalInRange(s, s.threads[t])
  }

  function Apply(s: State, e: Event): State
    requires Shape(s) && Enabled(s, e)
  {
    match e
    case Get(t) => Goto(s, t, Reload)
    case Add(t, n) => AddCall(s, t, n)
    case Go(t) => if s.threads[t].Adding? then AddStep(s, t) else GetStep(s, t)
  }

  /** All nodes start out unlinked with a zero word, as in Block's constructor. */
  predicate Init(s: State)
  {
    && Shape(s)
    && s.head == Null && s.list == []
    && (forall n | 0 <= n < |s.refs| :: s.refs[n] == 0 && s.next[n] == Null && s.status[n] == Owned)
    && (forall t | 0 <= t < |s.threads| :: s.threads[t].Idle?)
  }

  /** A run: any sequence of states in which each is a step of its predecessor. */
  ghost predicate Run(states: seq<State>, events: seq<Event>)
  {
    && |states| == |events| + 1
    && Init(states[0])
    && forall i | 0 <= i < |events| ::
         Shape(states[i]) && Enabled(states[i], events[i]) && states[i + 1] == Apply(states[i], events[i])
  }

  // ----- the invariant -----

  predicate Shape(s: State)
  {
    && |s.refs| == |s.next| == |s.status|
       // The word has 31 bits for the references of all threads and the list.
    && |s.threads| + 1 < SHOULD_BE_ON_FREELIST
  }

  predicate LocalInRange(s: State, l: Local)
  {
    match l
    case Idle => true
    case Reload => true
    case ReadRefs(h) => h < |s.refs|
    case CasRefs(h, _) => h < |s.refs|
    case ReadNext(h) => h < |s.refs|
    case CasHead(h, nx) => h < |s.refs| && InRange(s, nx)
    case Release2(h) => h < |s.refs|
    case Drop(h, cur) => h < |s.refs| && InRange(s, cur)
    case Adding(n, phase, k) =>
      && n < |s.refs|
      && (k.Resume? ==> InRange(s, k.cur))
      && (!phase.LoadHead? ==> InRange(s, phase.hd))
  }

  predicate Early(phase: Phase)
  {
    phase.LoadHead? || phase.StoreNext? || phase.StoreRefs?
  }

  /** References to n counted in its word that this thread is accountable for. */
  function Refs(n: nat, l: Local): int
  {
    match l
    case ReadNext(h) => if h == n then 1 else 0
    case CasHead(h, _) => if h == n then 1 else 0
    case Release2(h) => if h == n then 2 else 0
    case Drop(h, _) => if h == n then 1 else 0
    case Adding(m, phase, _) => if m == n && !Early(phase) then 1 else 0
    case _ => 0
  }

  ghost function RefsW(n: nat): Local -> int { (l: Local) => Refs(n, l) }
  ghost function EarlyW(n: nat): Local -> int { (l: Local) => if l.Adding? && l.n == n && Early(l.phase) then 1 else 0 }
  ghost function LateW(n: nat): Local -> int { (l: Local) => if l.Adding? && l.n == n && !Early(l.phase) then 1 else 0 }
  ghost function TakeW(n: nat): Local -> int { (l: Local) => if l.Release2? && l.h == n then 1 else 0 }

  ghost predicate NodeOk(s: State, n: nat)
    requires Shape(s) && n < |s.refs|
  {
    var refs, early, late := Sum(RefsW(n), s.threads), Sum(EarlyW(n), s.threads), Sum(LateW(n), s.threads);
    var st := s.status[n];
    && s.refs[n] == (if st.Pending? || early > 0 then SHOULD_BE_ON_FREELIST else 0)
                    + refs + (if st.Listed? then 1 else 0)
    && early + late == (if st.Readding? then 1 else 0)
    && Sum(TakeW(n), s.threads) == (if st.Taken? then 1 else 0)
    && (early > 0 ==> refs == 0)
    && (st.Pending? ==> refs > 0)
    && (st.Listed? <==> n in s.list)
  }

  predicate LocalOk(s: State, l: Local)
    requires Shape(s)
  {
    && LocalInRange(s, l)
    && (l.CasRefs? ==> l.r % SHOULD_BE_ON_FREELIST != 0)
    && (l.CasHead? ==> s.next[l.h] == l.nx)
    && (l.Adding? && (l.phase.StoreRefs? || l.phase.SwapHead?) ==> s.next[l.n] == l.phase.hd)
  }

  function FirstOf(list: seq<nat>): Ptr
  {
    if |list| == 0 then Null else At(list[0])
  }

  /** The chain of next pointers from head is exactly `list`, without repetition. */
  predicate Linked(s: State)
    requires Shape(s)
  {
    && s.head == FirstOf(s.list)
    && (forall i | 0 <= i < |s.list| :: s.list[i] < |s.refs| && s.next[s.list[i]] == FirstOf(s.list[i + 1..]))
    && (forall i, j | 0 <= i < j < |s.list| :: s.list[i] != s.list[j])
  }

  ghost predicate Inv(s: State)
  {
    && Shape(s)
    && Linked(s)
    && (forall n | 0 <= n < |s.next| :: InRange(s, s.next[n]))
    && (forall n: nat | n < |s.refs| :: NodeOk(s, n))
    && (forall t: nat | t < |s.threads| :: LocalOk(s, s.threads[t]))
  }

  // ----- sums under a step -----

  lemma Tallies(ts: seq<Local>, n: nat)
    ensures 0 <= Sum(EarlyW(n), ts) && 0 <= Sum(LateW(n), ts) && 0 <= Sum(TakeW(n), ts)
    ensures Sum(LateW(n), ts) <= Sum(RefsW(n), ts) <= |ts| + Sum(TakeW(n), ts)
  {
    SumNonNegative(EarlyW(n), ts);
    SumNonNegative(LateW(n), ts);
    SumNonNegative(TakeW(n), ts);
    SumMono(LateW(n), RefsW(n), ts);
    SumWithin(RefsW(n), TakeW(n), ts);
  }

  lemma MyTallies(ts: seq<Local>, t: nat, n: nat)
    requires t < |ts|
    ensures RefsW(n)(ts[t]) <= Sum(RefsW(n), ts)
    ensures EarlyW(n)(ts[t]) <= Sum(EarlyW(n), ts)
    ensures LateW(n)(ts[t]) <= Sum(LateW(n), ts)
    ensures TakeW(n)(ts[t]) <= Sum(TakeW(n), ts)
  {
    SumAtLeast(RefsW(n), ts, t);
    SumAtLeast(EarlyW(n), ts, t);
    SumAtLeast(LateW(n), ts, t);
    SumAtLeast(TakeW(n), ts, t);
  }

  lemma TalliesMove(ts: seq<Local>, t: nat, l: Local, n: nat)
    requires t < |ts|
    ensures Sum(RefsW(n), ts[t := l]) == Sum(RefsW(n), ts) - Refs(n, ts[t]) + Refs(n, l)
    ensures Sum(EarlyW(n), ts[t := l]) == Sum(EarlyW(n), ts) - EarlyW(n)(ts[t]) + EarlyW(n)(l)
    ensures Sum(LateW(n), ts[t := l]) == Sum(LateW(n), ts) - LateW(n)(ts[t]) + LateW(n)(l)
    ensures Sum(TakeW(n), ts[t := l]) == Sum(TakeW(n), ts) - TakeW(n)(ts[t]) + TakeW(n)(l)
  {
    SumUpdate(RefsW(n), ts, t, l);
    SumUpdate(EarlyW(n), ts, t, l);
    SumUpdate(LateW(n), ts, t, l);
    SumUpdate(TakeW(n), ts, t, l);
  }

  /** While a node is being linked and its word shows no reference, no other
      thread is between its reference increment and decrement on it. */
  lemma NoReader(s: State, n: nat, t: nat)
    requires Inv(s) && n < |s.refs| && t < |s.threads|
    requires Sum(EarlyW(n), s.threads) > 0
    ensures Refs(n, s.threads[t]) == 0
  {
    MyTallies(s.threads, t, n);
    assert NodeOk(s, n);
  }

  /** At most one thread at a time is inside the re-add of a node. */
  lemma OneAdder(s: State, n: nat, t: nat, u: nat)
    requires Inv(s) && n < |s.refs| && t < |s.threads| && u < |s.threads|
    requires s.threads[t].Adding? && s.threads[t].n == n
    requires s.threads[u].Adding? && s.threads[u].n == n
    ensures t == u
  {
    assert NodeOk(s, n);
    if t != u {
      var ts := s.threads[t := Idle];
      TalliesMove(s.threads, t, Idle, n);
      MyTallies(ts, u, n);
      Tallies(ts, n);
    }
  }

  // ----- every step keeps the invariant -----

  ghost predicate SameWeights(m: nat, l: Local, l': Local)
  {
    && Refs(m, l') == Refs(m, l)
    && EarlyW(m)(l') == EarlyW(m)(l)
    && LateW(m)(l') == LateW(m)(l)
    && TakeW(m)(l') == TakeW(m)(l)
  }

  /** Frame rule: a step of thread t that touches no word, status or list
      position of node m keeps NodeOk(m) if t's own accounting of m is unchanged. */
  lemma NodeFrame(s: State, s': State, t: nat, m: nat)
    requires Shape(s) && Shape(s') && t < |s.threads| == |s'.threads| && m < |s.refs| == |s'.refs|
    requires s'.threads == s.threads[t := s'.threads[t]]
    requires NodeOk(s, m)
    requires s'.refs[m] == s.refs[m] && s'.status[m] == s.status[m]
    requires m in s'.list <==> m in s.list
    requires SameWeights(m, s.threads[t], s'.threads[t])
    ensures NodeOk(s', m)
  {
    TalliesMove(s.threads, t, s'.threads[t], m);
  }

  /** A step of thread t that leaves the links alone and concerns one node keeps
      the invariant if that node and t's new local state are in order. */
  lemma OneNode(s: State, s': State, t: nat, n: nat)
    requires Inv(s) && Shape(s') && Linked(s') && t < |s.threads| == |s'.threads| && n < |s.refs| == |s'.refs|
    requires s'.next == s.next && s'.threads == s.threads[t := s'.threads[t]]
    requires NodeOk(s', n) && LocalOk(s', s'.threads[t])
    requires forall m: nat | m < |s.refs| && m != n ::
      s'.refs[m] == s.refs[m] && s'.status[m] == s.status[m] && (m in s'.list <==> m in s.list)
    requires forall m: nat | m < |s.refs| && m != n :: SameWeights(m, s.threads[t], s'.threads[t])
    ensures Inv(s')
  {
    forall m: nat | m < |s.refs| && m != n ensures NodeOk(s', m) {
      assert NodeOk(s, m);
      NodeFrame(s, s', t, m);
    }
    forall u: nat | u < |s'.threads| ensures LocalOk(s', s'.threads[u]) {
      if u != t { assert LocalOk(s, s.threads[u]); }
    }
  }

  lemma KeepAddCall(s: State, t: nat, n: nat)
    requires Inv(s) && Enabled(s, Add(t, n))
    ensures Inv(AddCall(s, t, n))
  {
    var s' := AddCall(s, t, n);
    assert NodeOk(s, n);
    AddCallNode(s, t, n);
    forall m: nat | m < |s.refs| && m != n ensures NodeOk(s', m) {
      NodeFrame(s, s', t, m);
    }
    forall u: nat | u < |s'.threads| ensures LocalOk(s', s'.threads[u]) {
      assert LocalOk(s, s.threads[u]);
    }
  }

  lemma AddCallNode(s: State, t: nat, n: nat)
    requires Inv(s) && Enabled(s, Add(t, n))
    ensures NodeOk(AddCall(s, t, n), n)
  {
    assert NodeOk(s, n);
    Tallies(s.threads, n);
    TalliesMove(s.threads, t, AddCall(s, t, n).threads[t], n);
  }

  /** Steps that only move a thread's program counter. */
  lemma KeepQuiet(s: State, s': State, t: nat)
    requires Inv(s) && t < |s.threads| == |s'.threads| && s' == Goto(s, t, s'.threads[t])
    requires LocalOk(s, s'.threads[t])
    requires forall m: nat :: SameWeights(m, s.threads[t], s'.threads[t])
    ensures Inv(s')
  {
    forall m: nat | m < |s.refs| ensures NodeOk(s', m) {
      assert NodeOk(s, m);
      NodeFrame(s, s', t, m);
    }
    forall u: nat | u < |s'.threads| ensures LocalOk(s', s'.threads[u]) {
      if u != t { assert LocalOk(s, s.threads[u]); }
    }
  }

  lemma HeadInRange(s: State)
    requires Inv(s)
    ensures InRange(s, s.head)
  {}

  lemma KeepCasRefs(s: State, t: nat, h: nat, r: int)
    requires Inv(s) && t < |s.threads| && s.threads[t] == CasRefs(h, r)
    ensures Inv(GetStep(s, t))
  {
    assert LocalOk(s, s.threads[t]);
    var s' := GetStep(s, t);
    if s.refs[h] != r {
      KeepQuiet(s, s', t);
    } else {
      KeepReference(s, t, h, r);
    }
  }

  /** A successful increment of the reference count of h. */
  lemma KeepReference(s: State, t: nat, h: nat, r: int)
    requires Inv(s) && t < |s.threads| && s.threads[t] == CasRefs(h, r) && h < |s.refs| && s.refs[h] == r
    ensures Inv(GetStep(s, t))
  {
    var s' := GetStep(s, t);
    assert LocalOk(s, s.threads[t]);
    ReferenceNode(s, t, h, r);
    forall m: nat | m < |s.refs| && m != h ensures NodeOk(s', m) {
      NodeFrame(s, s', t, m);
    }
  }

  lemma ReferenceNode(s: State, t: nat, h: nat, r: int)
    requires Inv(s) && t < |s.threads| && s.threads[t] == CasRefs(h, r) && h < |s.refs| && s.refs[h] == r
    ensures NodeOk(GetStep(s, t), h)
  {
    assert LocalOk(s, s.threads[t]) && NodeOk(s, h);
    Tallies(s.threads, h);
    TalliesMove(s.threads, t, GetStep(s, t).threads[t], h);
  }

  lemma PopLinked(s: State, s': State)
    requires Shape(s) && Shape(s') && Linked(s) && |s.list| > 0
    requires s'.next == s.next && s'.list == s.list[1..] && s'.head == s.next[s.list[0]]
    ensures Linked(s')
    ensures forall m :: m in s'.list <==> m in s.list && m != s.list[0]
  {
    assert s.list == [s.list[0]] + s'.list;
    assert s.next[s.list[0]] == FirstOf(s.list[1..]);
    forall i | 0 <= i < |s'.list|
      ensures s'.list[i] < |s'.refs| && s'.next[s'.list[i]] == FirstOf(s'.list[i + 1..])
    {
      assert s'.list[i] == s.list[i + 1] && s'.list[i + 1..] == s.list[i + 2..];
    }
  }

  lemma PushLinked(s: State, s': State, n: nat)
    requires Shape(s) && Shape(s') && Linked(s)
    requires n < |s.refs| == |s'.refs| && n !in s.list && s.next[n] == s.head
    requires s'.next == s.next && s'.list == [n] + s.list && s'.head == At(n)
    ensures Linked(s')
  {
    forall i | 0 <= i < |s'.list|
      ensures s'.list[i] < |s'.refs| && s'.next[s'.list[i]] == FirstOf(s'.list[i + 1..])
    {
      assert s'.list[i + 1..] == s.list[i..];
      if i > 0 {
        assert s'.list[i] == s.list[i - 1] && s.list[i..] == s.list[(i - 1) + 1..];
      }
    }
  }

  lemma KeepCasHead(s: State, t: nat, h: nat, nx: Ptr)
    requires Inv(s) && t < |s.threads| && s.threads[t] == CasHead(h, nx)
    ensures Inv(GetStep(s, t))
  {
    assert LocalOk(s, s.threads[t]);
    if s.head != At(h) {
      HeadInRange(s);
      KeepQuiet(s, GetStep(s, t), t);
    } else {
      KeepPop(s, t, h, nx);
    }
  }

  lemma KeepPop(s: State, t: nat, h: nat, nx: Ptr)
    requires Inv(s) && t < |s.threads| && s.threads[t] == CasHead(h, nx) && s.head == At(h)
    requires h < |s.refs| && InRange(s, nx)
    ensures Inv(GetStep(s, t))
  {
    var s' := GetStep(s, t);
    assert LocalOk(s, s.threads[t]);
    PopLinked(s, s');
    PopNode(s, t, h, nx);
    OneNode(s, s', t, h);
  }

  lemma PopNode(s: State, t: nat, h: nat, nx: Ptr)
    requires Inv(s) && t < |s.threads| && s.threads[t] == CasHead(h, nx) && s.head == At(h)
    requires h < |s.refs| && InRange(s, nx)
    ensures NodeOk(GetStep(s, t), h)
  {
    var s' := GetStep(s, t);
    assert NodeOk(s, h);
    Tallies(s.threads, h);
    TalliesMove(s.threads, t, s'.threads[t], h);
    assert h in s.list && h !in s'.list;
  }

  lemma KeepRelease2(s: State, t: nat, h: nat)
    requires Inv(s) && t < |s.threads| && s.threads[t] == Release2(h)
    ensures h < |s.refs| && s.status[h] == Taken && 2 <= s.refs[h] < SHOULD_BE_ON_FREELIST
    ensures Inv(GetStep(s, t))
  {
    assert LocalOk(s, s.threads[t]);
    var s' := GetStep(s, t);
    assert NodeOk(s, h);
    Tallies(s.threads, h);
    MyTallies(s.threads, t, h);
    TalliesMove(s.threads, t, s'.threads[t], h);
    assert NodeOk(s', h);
    OneNode(s, s', t, h);
  }

  lemma KeepDrop(s: State, t: nat, h: nat, cur: Ptr)
    requires Inv(s) && t < |s.threads| && s.threads[t] == Drop(h, cur)
    ensures Inv(GetStep(s, t))
  {
    assert LocalOk(s, s.threads[t]);
    DropNode(s, t, h, cur);
    OneNode(s, GetStep(s, t), t, h);
  }

  lemma DropNode(s: State, t: nat, h: nat, cur: Ptr)
    requires Inv(s) && t < |s.threads| && s.threads[t] == Drop(h, cur) && LocalInRange(s, s.threads[t])
    ensures NodeOk(GetStep(s, t), h)
  {
    assert NodeOk(s, h);
    Tallies(s.threads, h);
    MyTallies(s.threads, t, h);
    TalliesMove(s.threads, t, GetStep(s, t).threads[t], h);
  }

  lemma KeepStoreNext(s: State, t: nat)
    requires Inv(s) && t < |s.threads| && s.threads[t].Adding? && s.threads[t].phase.StoreNext?
    ensures Inv(AddStep(s, t))
  {
    var n, hd := s.threads[t].n, s.threads[t].phase.hd;
    assert LocalOk(s, s.threads[t]);
    var s' := AddStep(s, t);
    assert NodeOk(s, n);
    Tallies(s.threads, n);
    MyTallies(s.threads, t, n);
    forall m: nat | m < |s.refs| ensures NodeOk(s', m) {
      NodeFrame(s, s', t, m);
    }
    assert n !in s.list;
    forall u: nat | u < |s'.threads| ensures LocalOk(s', s'.threads[u]) {
      assert LocalOk(s, s.threads[u]);
      if u != t {
        NoReader(s, n, u);
        if s.threads[u].Adding? && s.threads[u].n == n { OneAdder(s, n, t, u); }
      }
    }
  }

  lemma KeepStoreRefs(s: State, t: nat)
    requires Inv(s) && t < |s.threads| && s.threads[t].Adding? && s.threads[t].phase.StoreRefs?
    ensures Inv(AddStep(s, t))
  {
    var n := s.threads[t].n;
    assert LocalOk(s, s.threads[t]);
    AddingNode(s, t);
    OneNode(s, AddStep(s, t), t, n);
  }

  lemma KeepSwapHead(s: State, t: nat)
    requires Inv(s) && t < |s.threads| && s.threads[t].Adding? && s.threads[t].phase.SwapHead?
    ensures Inv(AddStep(s, t))
  {
    var n, hd := s.threads[t].n, s.threads[t].phase.hd;
    assert LocalOk(s, s.threads[t]);
    var s' := AddStep(s, t);
    HeadInRange(s);
    if s.head != hd {
      KeepQuiet(s, s', t);
    } else {
      AddingNode(s, t);
      PushLinked(s, s', n);
      OneNode(s, s', t, n);
    }
  }

  lemma KeepRearm(s: State, t: nat)
    requires Inv(s) && t < |s.threads| && s.threads[t].Adding? && s.threads[t].phase.Rearm?
    ensures Inv(AddStep(s, t))
  {
    var n := s.threads[t].n;
    assert LocalOk(s, s.threads[t]);
    AddingNode(s, t);
    OneNode(s, AddStep(s, t), t, n);
  }

  /** The node of a re-add stays in order when its word is stored, when it is
      linked and when it is given up; it is off the list. */
  lemma AddingNode(s: State, t: nat)
    requires Inv(s) && t < |s.threads| && s.threads[t].Adding? && LocalInRange(s, s.threads[t])
    requires var phase := s.threads[t].phase;
             phase.StoreRefs? || phase.Rearm? || (phase.SwapHead? && s.head == phase.hd)
    ensures s.threads[t].n !in s.list
    ensures NodeOk(AddStep(s, t), s.threads[t].n)
  {
    var n, s' := s.threads[t].n, AddStep(s, t);
    assert NodeOk(s, n);
    Tallies(s.threads, n);
    MyTallies(s.threads, t, n);
    TalliesMove(s.threads, t, s'.threads[t], n);
    Tallies(s'.threads, n);
  }

  /** Every atomic step of every thread keeps the invariant. */
  lemma StepKeepsInv(s: State, e: Event)
    requires Inv(s) && Enabled(s, e)
    ensures Inv(Apply(s, e))
  {
    var t := e.t;
    assert LocalOk(s, s.threads[t]);
    match e
    case Get(_) => KeepQuiet(s, Apply(s, e), t);
    case Add(_, n) => KeepAddCall(s, t, n);
    case Go(_) =>
      match s.threads[t] {
        case Reload => HeadInRange(s); KeepQuiet(s, Apply(s, e), t);
        case ReadRefs(h) => KeepQuiet(s, Apply(s, e), t);
        case CasRefs(h, r) => KeepCasRefs(s, t, h, r);
        case ReadNext(h) =>
          KeepQuiet(s, Apply(s, e), t);
        case CasHead(h, nx) => KeepCasHead(s, t, h, nx);
        case Release2(h) => KeepRelease2(s, t, h);
        case Drop(h, cur) => KeepDrop(s, t, h, cur);
        case Adding(n, phase, k) =>
          match phase {
            case LoadHead => HeadInRange(s); KeepQuiet(s, Apply(s, e), t);
            case StoreNext(_) => KeepStoreNext(s, t);
            case StoreRefs(_) => KeepStoreRefs(s, t);
            case SwapHead(_) => KeepSwapHead(s, t);
            case Rearm(_) => KeepRearm(s, t);
          }
      }
  }

  // ----- what holds over every run -----

  lemma {:induction false} RunKeepsInv(states: seq<State>, events: seq<Event>, i: nat)
    requires Run(states, events) && i < |states|
    ensures Inv(states[i])
  {
    if i == 0 {
      var s := states[0];
      forall n: nat | n < |s.refs| ensures NodeOk(s, n) { IdleTallies(s.threads, n); }
    } else {
      RunKeepsInv(states, events, i - 1);
      StepKeepsInv(states[i - 1], events[i - 1]);
    }
  }

  lemma {:induction false} IdleTallies(ts: seq<Local>, n: nat)
    requires forall t | 0 <= t < |ts| :: ts[t].Idle?
    ensures Sum(RefsW(n), ts) == Sum(EarlyW(n), ts) == Sum(LateW(n), ts) == Sum(TakeW(n), ts) == 0
  {
    if |ts| > 0 { IdleTallies(ts[..|ts| - 1], n); }
  }

  /** The low 31 bits of a node's word count the list's reference and the live
      references of the threads; the two never run into the flag bit. */
  lemma ReferenceCount(states: seq<State>, events: seq<Event>, i: nat, n: nat)
    requires Run(states, events) && i < |states| && n < |states[i].refs| == |states[i].status|
    ensures 0 <= states[i].refs[n] < 2 * SHOULD_BE_ON_FREELIST
    ensures states[i].refs[n] % SHOULD_BE_ON_FREELIST
            == Sum(RefsW(n), states[i].threads) + (if n in states[i].list then 1 else 0)
  {
    RunKeepsInv(states, events, i);
    var s := states[i];
    assert NodeOk(s, n);
    Tallies(s.threads, n);
    SumNonNegative(RefsW(n), s.threads);
  }

  /** No ABA: a getter whose CAS on the head succeeds installs the successor
      its node has at that moment, although it read it earlier, and so exactly
      unlinks that node; the flag bit of the node is clear, as try_get asserts. */
  lemma HeadSwapIsCurrent(states: seq<State>, events: seq<Event>, i: nat, t: nat)
    requires Run(states, events) && i < |events| && events[i] == Go(t)
    requires t < |states[i].threads| && states[i].threads[t].CasHead?
    requires states[i].head == At(states[i].threads[t].h)
    ensures var h := states[i].threads[t].h;
            && h < |states[i].next| && states[i].next[h] == states[i].threads[t].nx
            && states[i].list == [h] + states[i + 1].list
            && h !in states[i + 1].list && Linked(states[i + 1])
            && states[i + 1].refs[h] < SHOULD_BE_ON_FREELIST
  {
    RunKeepsInv(states, events, i);
    RunKeepsInv(states, events, i + 1);
    var s, s' := states[i], states[i + 1];
    var h := s.threads[t].h;
    assert LocalOk(s, s.threads[t]) && NodeOk(s, h);
    PopLinked(s, s');
    Tallies(s.threads, h);
  }

  /** A thread about to return a node from try_get is alone in holding it: the
      node is not on the list, no other thread is returning or linking it. */
  lemma ExclusiveHandOut(states: seq<State>, events: seq<Event>, i: nat, t: nat, u: nat)
    requires Run(states, events) && i < |states| && t < |states[i].threads| && u < |states[i].threads| && t != u
    requires states[i].threads[t].Release2?
    ensures states[i].threads[t].h !in states[i].list
    ensures states[i].threads[u] != states[i].threads[t]
    ensures states[i].threads[u].Adding? ==> states[i].threads[u].n != states[i].threads[t].h
  {
    RunKeepsInv(states, events, i);
    var s := states[i];
    var h := s.threads[t].h;
    assert LocalOk(s, s.threads[t]) && NodeOk(s, h);
    var rest := s.threads[t := Idle];
    TalliesMove(s.threads, t, Idle, h);
    MyTallies(rest, u, h);
    MyTallies(s.threads, t, h);
    Tallies(rest, h);
  }

  /** Nothing is lost: when no call is running, every node is with the client or
      on the list, and its word is exactly the list's reference. */
  lemma NothingLost(states: seq<State>, events: seq<Event>, i: nat, n: nat)
    requires Run(states, events) && i < |states| && n < |states[i].refs| == |states[i].status|
    requires forall t | 0 <= t < |states[i].threads| :: states[i].threads[t].Idle?
    ensures states[i].status[n] == (if n in states[i].list then Listed else Owned)
    ensures states[i].refs[n] == (if n in states[i].list then 1 else 0)
  {
    RunKeepsInv(states, events, i);
    IdleTallies(states[i].threads, n);
    assert NodeOk(states[i], n);
  }

  predicate Returning(l: Local, n: nat) { l.Release2? && l.h == n }

  predicate Linking(l: Local, n: nat) { l.Adding? && l.n == n }

  /** t is the one thread in p; nobody is if t is out of range. */
  ghost predicate Only(ts: seq<Local>, p: Local -> bool, t: nat)
  {
    && (t < |ts| ==> p(ts[t]))
    && forall u | 0 <= u < |ts| :: p(ts[u]) ==> u == t
  }

  lemma AtMostOne(w: Local -> int, ts: seq<Local>, t: nat, u: nat)
    requires t < |ts| && u < |ts| && w(ts[t]) > 0 && w(ts[u]) > 0 && Sum(w, ts) <= 1 && w(Idle) == 0
    requires forall j | 0 <= j < |ts| :: 0 <= w(ts[j])
    ensures t == u
  {
    if t != u {
      var rest := ts[t := Idle];
      SumUpdate(w, ts, t, Idle);
      SumAtLeast(w, rest, u);
    }
  }

  lemma FindOnly(w: Local -> int, p: Local -> bool, ts: seq<Local>) returns (t: nat)
    requires forall l :: w(l) == if p(l) then 1 else 0
    requires 0 <= Sum(w, ts) <= 1 && !p(Idle)
    ensures Only(ts, p, t) && (t < |ts| <==> Sum(w, ts) == 1)
  {
    if Sum(w, ts) == 1 {
      t := SumWitness(w, ts);
      forall u | 0 <= u < |ts| && p(ts[u]) ensures u == t { AtMostOne(w, ts, t, u); }
    } else {
      t := |ts|;
      forall u | 0 <= u < |ts| ensures !p(ts[u]) { SumAtLeast(w, ts, u); }
    }
  }

  /** At any moment a node is in one place: with the client, on the list, with the
      one getter that is returning it, with the one thread that runs its re-add,
      or owed a re-add by the threads that still hold a reference to it. */
  lemma OnePlace(states: seq<State>, events: seq<Event>, i: nat, n: nat) returns (getter: nat, adder: nat)
    requires Run(states, events) && i < |states| && n < |states[i].refs| == |states[i].status|
    ensures var s := states[i];
            && Only(s.threads, l => Returning(l, n), getter) && (getter < |s.threads| <==> s.status[n] == Taken)
            && Only(s.threads, l => Linking(l, n), adder) && (adder < |s.threads| <==> s.status[n] == Readding)
            && (n in s.list <==> s.status[n] == Listed)
            && (s.status[n] == Pending ==> s.refs[n] > SHOULD_BE_ON_FREELIST && Sum(RefsW(n), s.threads) > 0)
            && (s.status[n] == Owned ==> s.refs[n] == Sum(RefsW(n), s.threads))
  {
    RunKeepsInv(states, events, i);
    var s := states[i];
    assert NodeOk(s, n);
    Tallies(s.threads, n);
    getter := FindOnly(TakeW(n), l => Returning(l, n), s.threads);
    var linkW := (l: Local) => if Linking(l, n) then 1 else 0;
    SumOfTwo(EarlyW(n), LateW(n), linkW, s.threads);
    adder := FindOnly(linkW, l => Linking(l, n), s.threads);
  }

  /** No two threads run the re-add of one node. */
  lemma ReAddIsAlone(states: seq<State>, events: seq<Event>, i: nat, n: nat, t: nat, u: nat)
    requires Run(states, events) && i < |states| && t < |states[i].threads| && u < |states[i].threads|
    requires Linking(states[i].threads[t], n) && Linking(states[i].threads[u], n)
    ensures t == u
  {
    RunKeepsInv(states, events, i);
    assert LocalOk(states[i], states[i].threads[t]);
    OneAdder(states[i], n, t, u);
  }

  /** The re-add that an add owes is taken over by one thread: while the node is
      owed one its word keeps a reference, and the thread that drops the last one
      becomes its only adder. */
  lemma OwedReAddIsTaken(states: seq<State>, events: seq<Event>, i: nat, t: nat)
    requires Run(states, events) && i < |events| && events[i] == Go(t)
    requires t < |states[i].threads| && states[i].threads[t].Drop?
    ensures var h := states[i].threads[t].h;
            && h < |states[i].status| == |states[i + 1].status|
            && (states[i].status[h] == Pending ==>
                  if Sum(RefsW(h), states[i].threads) == 1
                  then t < |states[i + 1].threads| && Only(states[i + 1].threads, l => Linking(l, h), t)
                  else states[i + 1].status[h] == Pending && Sum(RefsW(h), states[i + 1].threads) > 0)
  {
    RunKeepsInv(states, events, i);
    RunKeepsInv(states, events, i + 1);
    var s, s' := states[i], states[i + 1];
    var h := s.threads[t].h;
    assert LocalOk(s, s.threads[t]) && NodeOk(s, h) && NodeOk(s', h);
    MyTallies(s.threads, t, h);
    Tallies(s.threads, h);
    if Linking(s'.threads[t], h) {
      forall u: nat | u < |s'.threads| && Linking(s'.threads[u], h) ensures u == t { OneAdder(s', h, t, u); }
    }
  }

  /** The node that step e makes try_get return, if any. */
  function Returned(s: State, e: Event): Ptr
  {
    if e.Go? && e.t < |s.threads| && s.threads[e.t].Release2? then At(s.threads[e.t].h) else Null
  }

  /** A node leaves the client only by being added, and returns to it only by
      being returned. */
  lemma OwnedUntilAdd(states: seq<State>, events: seq<Event>, j: nat, n: nat)
    requires Run(states, events) && j < |events|
    requires n < |states[j + 1].status| && states[j + 1].status[n] != Owned
    ensures Returned(states[j], events[j]) != At(n)
    ensures n < |states[j].status|
    ensures (events[j].Add? && events[j].node == n) || states[j].status[n] != Owned
  {
    RunKeepsInv(states, events, j);
    var s, e := states[j], events[j];
    assert states[j + 1] == Apply(s, e);
    assert NodeOk(s, n) && LocalOk(s, s.threads[e.t]);
    Tallies(s.threads, n);
    MyTallies(s.threads, e.t, n);
  }

  lemma {:induction false} LastAdd(states: seq<State>, events: seq<Event>, j: nat, n: nat) returns (i: nat)
    requires Run(states, events) && j < |states|
    requires n < |states[j].status| && states[j].status[n] != Owned
    ensures i < j && events[i].Add? && events[i].node == n
    ensures forall k | i < k < j :: Returned(states[k], events[k]) != At(n)
    decreases j
  {
    if j == 0 {
      assert false;
    } else {
      OwnedUntilAdd(states, events, j - 1, n);
      if events[j - 1].Add? && events[j - 1].node == n {
        i := j - 1;
      } else {
        i := LastAdd(states, events, j - 1, n);
      }
    }
  }

  /** The free list hands a node out only after somebody added it, and once per
      add: between the last add and this return no other call returned it. */
  lemma HandOutNeedsAdd(states: seq<State>, events: seq<Event>, j: nat, n: nat) returns (i: nat)
    requires Run(states, events) && j < |events| && Returned(states[j], events[j]) == At(n)
    ensures i < j && events[i].Add? && events[i].node == n
    ensures forall k | i < k < j :: Returned(states[k], events[k]) != At(n)
  {
    RunKeepsInv(states, events, j);
    assert LocalOk(states[j], states[j].threads[events[j].t]);
    KeepRelease2(states[j], events[j].t, n);
    i := LastAdd(states, events, j, n);
  }

  // ----- what a call achieves -----

  ghost function Leads(): (State, Event, State) -> bool
  {
    (s: State, e: Event, s': State) => Shape(s) && Enabled(s, e) && s' == Apply(s, e)
  }

  function After(s: State, e: Event): State { if Shape(s) && Enabled(s, e) then Apply(s, e) else s }

  lemma Extend(states: seq<State>, events: seq<Event>, more: seq<State>, es: seq<Event>)
    requires Run(states, events) && Path(Leads(), more, es) && more[0] == states[|events|]
    ensures Run(states + more[1..], events + es)
  {
    var s, g := states + more[1..], events + es;
    forall i | 0 <= i < |g| ensures Shape(s[i]) && Enabled(s[i], g[i]) && s[i + 1] == Apply(s[i], g[i]) {
      if i >= |events| {
        assert Leads()(more[i - |events|], es[i - |events|], more[i - |events| + 1]);
        assert s[i] == more[i - |events|] && g[i] == es[i - |events|];
      }
    }
  }

  /** Inv(s), behind a guard that Open lifts. */
  ghost predicate Sound(s: State)
  {
    forall k: nat {:trigger Asked(k)} | Asked(k) :: Inv(s)
  }

  lemma Open(s: State)
    requires Sound(s)
    ensures Inv(s)
  {
    assert Asked(0);
  }

  ghost predicate OthersIdle(s: State, t: nat)
  {
    t < |s.threads| && forall u | 0 <= u < |s.threads| && u != t :: s.threads[u].Idle?
  }

  /** No call is running. */
  ghost predicate Quiet(s: State) { forall u | 0 <= u < |s.threads| :: s.threads[u].Idle? }

  /** Where a try_get that runs alone is, with h first on the list. */
  ghost predicate Getting(s: State, t: nat, h: nat, rest: seq<nat>)
  {
    && Sound(s) && OthersIdle(s, t)
    && match s.threads[t]
       case Reload => s.list == [h] + rest
       case ReadRefs(x) => x == h && s.list == [h] + rest
       case CasRefs(x, r) => x == h < |s.refs| && s.list == [h] + rest && r == s.refs[h]
       case ReadNext(x) => x == h && s.list == [h] + rest
       case CasHead(x, _) => x == h && s.list == [h] + rest
       case Release2(x) => x == h && s.list == rest
       case _ => false
  }

  function GetRank(l: Local): nat
  {
    match l
    case Reload => 5
    case ReadRefs(_) => 4
    case CasRefs(_, _) => 3
    case ReadNext(_) => 2
    case CasHead(_, _) => 1
    case _ => 0
  }

  /** A listed node has a reference that a getter sees. */
  lemma ListedIsSeen(s: State, h: nat)
    requires Inv(s) && h in s.list
    ensures h < |s.refs| && s.refs[h] % SHOULD_BE_ON_FREELIST != 0
  {
    assert NodeOk(s, h);
    Tallies(s.threads, h);
    SumNonNegative(RefsW(h), s.threads);
  }

  ghost predicate GotFirst(s: State, s': State, t: nat, h: nat, rest: seq<nat>)
  {
    Returned(s, Go(t)) == At(h) && Quiet(s') && s'.list == rest
  }

  lemma GettingGoesOn(s: State, t: nat, h: nat, rest: seq<nat>)
    requires Getting(s, t, h, rest)
    ensures Leads()(s, Go(t), After(s, Go(t)))
    ensures GotFirst(s, After(s, Go(t)), t, h, rest)
         || (Getting(After(s, Go(t)), t, h, rest) && GetRank(After(s, Go(t)).threads[t]) < GetRank(s.threads[t]))
  {
    Open(s);
    assert LocalOk(s, s.threads[t]);
    StepKeepsInv(s, Go(t));
    if s.threads[t].ReadRefs? { ListedIsSeen(s, h); }
  }

  lemma LoneGetting(s: State, t: nat, h: nat, rest: seq<nat>) returns (states: seq<State>, events: seq<Event>)
    requires Getting(s, t, h, rest)
    ensures Path(Leads(), states, events) && 0 < |events| <= 6 && states[0] == s
    ensures forall i | 0 <= i < |events| :: events[i] == Go(t)
    ensures GotFirst(states[|events| - 1], states[|events|], t, h, rest)
  {
    forall a: State | Getting(a, t, h, rest)
      ensures Leads()(a, Go(t), After(a, Go(t)))
      ensures GotFirst(a, After(a, Go(t)), t, h, rest)
           || (Getting(After(a, Go(t)), t, h, rest) && GetRank(After(a, Go(t)).threads[t]) < GetRank(a.threads[t]))
    {
      GettingGoesOn(a, t, h, rest);
    }
    states, events := RunsOut(Leads(), a => Go(t), a => After(a, Go(t)), a => Getting(a, t, h, rest),
      (a: State) => if t < |a.threads| then GetRank(a.threads[t]) else 0,
      (a, b) => GotFirst(a, b, t, h, rest), s);
  }

  /** A try_get that runs alone returns the first node of the list and leaves the
      others; on an empty list it returns nothing. */
  lemma LoneGet(states: seq<State>, events: seq<Event>, t: nat) returns (states': seq<State>, events': seq<Event>)
    requires Run(states, events) && Quiet(states[|events|]) && t < |states[|events|].threads|
    ensures Run(states', events') && Continues(states, events, states', events', Get(t), e => e == Go(t))
    ensures var s, s', end := states[|events|], states'[|events'|], |events'| - 1;
            && Quiet(s')
            && if s.list == [] then s'.list == [] && Returned(states'[end], events'[end]) == Null
               else Returned(states'[end], events'[end]) == At(s.list[0]) && s'.list == s.list[1..]
  {
    var s := states[|events|];
    RunKeepsInv(states, events, |events|);
    var s1 := Apply(s, Get(t));
    StepKeepsInv(s, Get(t));
    if s.list == [] {
      var s2 := Apply(s1, Go(t));
      var more, es := [s, s1, s2], [Get(t), Go(t)];
      Extend(states, events, more, es);
      states', events' := states + more[1..], events + es;
    } else {
      var ss, es := LoneGetting(s1, t, s.list[0], s.list[1..]);
      var call := [s, s1];
      assert Path(Leads(), call, [Get(t)]);
      Join(Leads(), call, [Get(t)], ss, es);
      Extend(states, events, call + ss[1..], [Get(t)] + es);
      states', events' := states + (call + ss[1..])[1..], events + ([Get(t)] + es);
      assert states'[|events'|] == ss[|es|] && states'[|events'| - 1] == ss[|es| - 1];
      assert events'[|events'| - 1] == es[|es| - 1];
    }
  }

  /** Where an add of n that runs alone is. */
  ghost predicate AddingAlone(s: State, t: nat, n: nat, rest: seq<nat>)
  {
    && Sound(s) && OthersIdle(s, t) && s.list == rest
    && s.threads[t].Adding? && s.threads[t].n == n && s.threads[t].k == Return && !s.threads[t].phase.Rearm?
    && (s.threads[t].phase.LoadHead? || s.threads[t].phase.hd == s.head)
  }

  function AddRank(l: Local): nat
  {
    if !l.Adding? then 0
    else match l.phase
         case LoadHead => 3
         case StoreNext(_) => 2
         case StoreRefs(_) => 1
         case _ => 0
  }

  ghost predicate AddedFirst(s: State, n: nat, rest: seq<nat>) { Quiet(s) && s.list == [n] + rest }

  lemma AddingGoesOn(s: State, t: nat, n: nat, rest: seq<nat>)
    requires AddingAlone(s, t, n, rest)
    ensures Leads()(s, Go(t), After(s, Go(t)))
    ensures AddedFirst(After(s, Go(t)), n, rest)
         || (AddingAlone(After(s, Go(t)), t, n, rest) && AddRank(After(s, Go(t)).threads[t]) < AddRank(s.threads[t]))
  {
    Open(s);
    assert LocalOk(s, s.threads[t]);
    StepKeepsInv(s, Go(t));
  }

  lemma LoneAdding(s: State, t: nat, n: nat, rest: seq<nat>) returns (states: seq<State>, events: seq<Event>)
    requires AddingAlone(s, t, n, rest)
    ensures Path(Leads(), states, events) && 0 < |events| <= 4 && states[0] == s
    ensures forall i | 0 <= i < |events| :: events[i] == Go(t)
    ensures AddedFirst(states[|events|], n, rest)
  {
    forall a: State | AddingAlone(a, t, n, rest)
      ensures Leads()(a, Go(t), After(a, Go(t)))
      ensures AddedFirst(After(a, Go(t)), n, rest)
           || (AddingAlone(After(a, Go(t)), t, n, rest) && AddRank(After(a, Go(t)).threads[t]) < AddRank(a.threads[t]))
    {
      AddingGoesOn(a, t, n, rest);
    }
    states, events := RunsOut(Leads(), a => Go(t), a => After(a, Go(t)), a => AddingAlone(a, t, n, rest),
      (a: State) => if t < |a.threads| then AddRank(a.threads[t]) else 0,
      (a, b) => AddedFirst(b, n, rest), s);
  }

  /** An add that runs alone puts its node in front of the list. */
  lemma LoneAdd(states: seq<State>, events: seq<Event>, t: nat, n: nat)
    returns (states': seq<State>, events': seq<Event>)
    requires Run(states, events) && Quiet(states[|events|]) && t < |states[|events|].threads|
    requires n < |states[|events|].refs| && n < |states[|events|].status| && states[|events|].status[n] == Owned
    ensures Run(states', events') && Continues(states, events, states', events', Add(t, n), e => e == Go(t))
    ensures Quiet(states'[|events'|]) && states'[|events'|].list == [n] + states[|events|].list
  {
    var s := states[|events|];
    RunKeepsInv(states, events, |events|);
    NothingLost(states, events, |events|, n);
    var s1 := Apply(s, Add(t, n));
    StepKeepsInv(s, Add(t, n));
    var ss, es := LoneAdding(s1, t, n, s.list);
    var call := [s, s1];
    assert Path(Leads(), call, [Add(t, n)]);
    Join(Leads(), call, [Add(t, n)], ss, es);
    Extend(states, events, call + ss[1..], [Add(t, n)] + es);
    states', events' := states + (call + ss[1..])[1..], events + ([Add(t, n)] + es);
    assert states'[|events'|] == ss[|es|];
  }

  // ----- a call that comes back empty-handed -----

  /** Thread t is in one call of try_get from event k up to state j. */
  ghost predicate Calling(states: seq<State>, events: seq<Event>, t: nat, k: nat, j: nat)
  {
    && k < j < |states| == |events| + 1 && events[k] == Get(t) && t < |states[k].threads|
    && forall m | k < m < j :: t < |states[m].threads| && !states[m].threads[t].Idle?
  }

  /** The thread is on its way out of try_get without a node. */
  predicate Leaving(l: Local)
  {
    l.Idle? || (l.Drop? && l.cur == Null) || (l.Adding? && l.k == Resume(Null))
  }

  ghost predicate SawEmpty(states: seq<State>, k: nat, j: nat)
  {
    exists m: nat :: k < m < j < |states| && states[m].list == []
  }

  /** A thread does not move by itself, and inside try_get no add ends it. */
  predicate InGet(l: Local) { !l.Idle? && (l.Adding? ==> l.k.Resume?) }

  lemma StepInGet(s: State, e: Event, t: nat)
    requires Shape(s) && Enabled(s, e) && t < |s.threads| && InGet(s.threads[t])
    ensures |Apply(s, e).threads| == |s.threads|
    ensures InGet(Apply(s, e).threads[t]) || Apply(s, e).threads[t].Idle?
    ensures Leaving(Apply(s, e).threads[t]) ==>
      Leaving(s.threads[t]) || s.head == Null || (e == Go(t) && s.threads[t].Release2?)
  {}

  lemma {:induction false} LeavesOnEmpty(states: seq<State>, events: seq<Event>, t: nat, k: nat, j: nat)
    requires Run(states, events) && Calling(states, events, t, k, j)
    requires forall m | k < m < j :: !(events[m] == Go(t) && states[m].threads[t].Release2?)
    ensures t < |states[j].threads| && (InGet(states[j].threads[t]) || states[j].threads[t].Idle?)
    ensures Leaving(states[j].threads[t]) ==> SawEmpty(states, k, j)
    decreases j
  {
    RunKeepsInv(states, events, j - 1);
    if j > k + 1 {
      assert !states[j - 1].threads[t].Idle?;
      LeavesOnEmpty(states, events, t, k, j - 1);
      StepInGet(states[j - 1], events[j - 1], t);
      if Leaving(states[j].threads[t]) && !Leaving(states[j - 1].threads[t]) {
        assert states[j - 1].list == [];
      }
    }
  }

  /** A try_get that returns without a node saw an empty list at some moment of the
      call. */
  lemma EmptyHandedSawEmpty(states: seq<State>, events: seq<Event>, t: nat, k: nat, j: nat)
    requires Run(states, events) && Calling(states, events, t, k, j)
    requires t < |states[j].threads| && states[j].threads[t].Idle?
    requires forall m | k < m < j && events[m].t == t :: Returned(states[m], events[m]) == Null
    ensures SawEmpty(states, k, j)
  {
    forall m | k < m < j ensures !(events[m] == Go(t) && states[m].threads[t].Release2?) {
      if events[m].t == t { assert Returned(states[m], events[m]) == Null; }
    }
    LeavesOnEmpty(states, events, t, k, j);
  }
}
