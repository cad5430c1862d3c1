/** The context pool of requester (request_reply.cpp): contexts taken from a free
    queue, driven through send and receive by completions, and recycled after the
    reply callback.

    NNG completes every started operation exactly once, with any result. Queue
    operations are atomic here; the module ChunkQueue justifies that, and RecycleFits
    shows that recycling meets what its PoolPushSucceeds asks for.

    History: requests are numbered as they are accepted; `asked` holds their hints,
    `replies` the hints that on_reply got for each, `holder` the context of each. */
module Requester {
  import ChunkQueue
  import opened Runs

  datatype Result = Ok | Stopped | Closed | Canceled | Failed(code: nat)

  datatype Io = Initial | Send | Recv

  datatype Phase =
    | Free
    | Popped(h: nat)             // request() took it and will set the hint
    | Hinted                     // about to send
    | Sending
    | Receiving
    | Completed(result: Result)  // in on_event
    | Replied                    // on_reply returned, about to be pushed back
    | Retired

  datatype Context = Context(phase: Phase, io: Io, hint: nat, req: nat)

  datatype State = State(
    ctxs: seq<Context>,
    queue: seq<nat>,
    closed: bool,
    asked: seq<nat>,
    replies: seq<seq<nat>>,
    holder: seq<nat>)

  datatype Event =
    | Request(h: nat)
    | Advance(c: nat)                     // the thread that owns context c goes on
    | Complete(c: nat, result: Result)    // the operation of c completes
    | Close                               // stop() after all operations ended

  // ----- the steps -----

  predicate Ends(r: Result) { r.Stopped? || r.Closed? || r.Canceled? }

  predicate Busy(p: Phase) { !p.Free? && !p.Retired? }

  function SetContext(s: State, c: nat, x: Context): State
    requires c < |s.ctxs|
  {
    s.(ctxs := s.ctxs[c := x])
  }

  /** on_reply with the context's own hint. */
  function Reply(s: State, c: nat, p: Phase): State
    requires c < |s.ctxs| && s.ctxs[c].req < |s.replies|
  {
    var x := s.ctxs[c];
    SetContext(s, c, x.(phase := p)).(replies := s.replies[x.req := s.replies[x.req] + [x.hint]])
  }

  predicate CanAdvance(s: State, c: nat)
  {
    && c < |s.ctxs| && s.ctxs[c].req < |s.replies|
    && match s.ctxs[c].phase
       case Popped(_) => true
       case Hinted => true
       case Completed(_) => s.ctxs[c].io != Initial
       case Replied => true
       case _ => false
  }

  function AdvanceStep(s: State, c: nat): State
    requires CanAdvance(s, c)
  {
    var x := s.ctxs[c];
    match x.phase
    case Popped(h) => SetContext(s, c, x.(phase := Hinted, hint := h))
    case Hinted => SetContext(s, c, x.(phase := Sending, io := Send))
    case Completed(result) =>
      if Ends(result) then Reply(s, c, Retired)
      else if x.io == Send && result == Ok then SetContext(s, c, x.(phase := Receiving, io := Recv))
      else Reply(s, c, Replied)
    case Replied => SetContext(s, c, x.(phase := Free)).(queue := s.queue + [c])
  }

  predicate Enabled(s: State, e: Event)
  {
    match e
    case Request(_) => !s.closed && (|s.queue| > 0 ==> s.queue[0] < |s.ctxs|)
    case Advance(c) => CanAdvance(s, c)
    case Complete(c, _) => c < |s.ctxs| && (s.ctxs[c].phase.Sending? || s.ctxs[c].phase.Receiving?)
    case Close => forall c | 0 <= c < |s.ctxs| :: !Busy(s.ctxs[c].phase)
  }

  /** request() returns NNG_EAGAIN on an empty queue and changes nothing. */
  function Apply(s: State, e: Event): State
    requires Enabled(s, e)
  {
    match e
    case Request(h) =>
      if |s.queue| == 0 then s
      else
        var c := s.queue[0];
        SetContext(s, c, s.ctxs[c].(phase := Popped(h), req := |s.asked|))
        .(queue := s.queue[1..], asked := s.asked + [h], replies := s.replies + [[]], holder := s.holder + [c])
    case Advance(c) => AdvanceStep(s, c)
    case Complete(c, result) => SetContext(s, c, s.ctxs[c].(phase := Completed(result)))
    case Close =>
      s.(ctxs := seq(|s.ctxs|, c requires 0 <= c < |s.ctxs| => s.ctxs[c].(phase := Retired)),
          queue := [], closed := true)
  }

  /** What start() leaves: every context open and in the queue. */
  predicate Init(s: State, n: nat)
  {
    && |s.ctxs| == n == |s.queue| && !s.closed
    && (forall c | 0 <= c < n :: s.ctxs[c].phase.Free? && s.queue[c] == c)
    && |s.asked| == |s.replies| == |s.holder| == 0
  }

  ghost predicate Run(states: seq<State>, events: seq<Event>, n: nat)
  {
    && |states| == |events| + 1
    && Init(states[0], n)
    && forall i | 0 <= i < |events| ::
         Enabled(states[i], events[i]) && states[i + 1] == Apply(states[i], events[i])
  }

  // ----- the invariant -----

  /** The context carries a request that was not answered yet. */
  predicate Holding(x: Context) { Busy(x.phase) && !x.phase.Replied? }

  /** The queue holds the free contexts, each once. */
  ghost predicate QueueOk(ctxs: seq<Context>, queue: seq<nat>)
  {
    && ChunkQueue.Distinct(queue)
    && (forall k | 0 <= k < |queue| :: queue[k] < |ctxs| && ctxs[queue[k]].phase.Free?)
    && (forall c: nat | c < |ctxs| && ctxs[c].phase.Free? :: c in queue)
  }

  ghost predicate ContextOk(s: State, c: nat)
    requires c < |s.ctxs| && |s.asked| == |s.replies| == |s.holder|
  {
    var x := s.ctxs[c];
    && (Busy(x.phase) ==> x.req < |s.asked|)
    && (Holding(x) ==> s.replies[x.req] == [] && s.holder[x.req] == c
                       && s.asked[x.req] == if x.phase.Popped? then x.phase.h else x.hint)
    && (x.phase.Sending? ==> x.io == Send)
    && (x.phase.Receiving? ==> x.io == Recv)
    && (x.phase.Completed? ==> x.io != Initial)
  }

  /** A request is held by its context, or was answered once with its own hint. */
  ghost predicate RequestOk(s: State, r: nat)
    requires r < |s.asked| == |s.replies| == |s.holder|
  {
    && s.holder[r] < |s.ctxs|
    && if s.replies[r] == [] then s.ctxs[s.holder[r]].req == r && Holding(s.ctxs[s.holder[r]])
       else s.replies[r] == [s.asked[r]]
  }

  ghost predicate Inv(s: State)
  {
    && |s.asked| == |s.replies| == |s.holder|
    && QueueOk(s.ctxs, s.queue)
    && (forall c: nat | c < |s.ctxs| :: ContextOk(s, c))
    && (forall r: nat | r < |s.asked| :: RequestOk(s, r))
  }

  // ----- every step keeps it -----

  lemma RequestKeepsInv(s: State, h: nat)
    requires Inv(s) && Enabled(s, Request(h))
    ensures Inv(Apply(s, Request(h)))
  {
    if |s.queue| > 0 {
      var s' := Apply(s, Request(h));
      var c := s.queue[0];
      assert s.queue == [c] + s'.queue;
      forall d: nat | d < |s.ctxs| ensures ContextOk(s', d) { assert ContextOk(s, d); }
      forall r: nat | r < |s'.asked| ensures RequestOk(s', r) {
        if r < |s.asked| { assert RequestOk(s, r); }
      }
    }
  }

  lemma AdvanceKeepsInv(s: State, c: nat)
    requires Inv(s) && CanAdvance(s, c)
    ensures Inv(AdvanceStep(s, c))
  {
    AdvanceQueue(s, c);
    forall d: nat | d < |s.ctxs| ensures ContextOk(AdvanceStep(s, c), d) { AdvanceContext(s, c, d); }
    forall r: nat | r < |s.asked| ensures RequestOk(AdvanceStep(s, c), r) { AdvanceRequest(s, c, r); }
  }

  lemma AdvanceContext(s: State, c: nat, d: nat)
    requires Inv(s) && CanAdvance(s, c) && d < |s.ctxs|
    ensures ContextOk(AdvanceStep(s, c), d)
  {
    assert ContextOk(s, c) && ContextOk(s, d);
  }

  lemma AdvanceRequest(s: State, c: nat, r: nat)
    requires Inv(s) && CanAdvance(s, c) && r < |s.asked|
    ensures RequestOk(AdvanceStep(s, c), r)
  {
    assert ContextOk(s, c) && RequestOk(s, r);
  }

  lemma AdvanceQueue(s: State, c: nat)
    requires QueueOk(s.ctxs, s.queue) && CanAdvance(s, c)
    ensures QueueOk(AdvanceStep(s, c).ctxs, AdvanceStep(s, c).queue)
  {
    assert c !in s.queue;
    if s.ctxs[c].phase.Replied? {
      QueueGains(s.ctxs, s.queue, c, s.ctxs[c].(phase := Free));
    } else {
      QueueSame(s.ctxs, s.queue, c, AdvanceStep(s, c).ctxs[c]);
    }
  }

  lemma QueueSame(ctxs: seq<Context>, queue: seq<nat>, c: nat, x: Context)
    requires QueueOk(ctxs, queue) && c < |ctxs| && c !in queue && !x.phase.Free?
    ensures QueueOk(ctxs[c := x], queue)
  {}

  lemma QueueGains(ctxs: seq<Context>, queue: seq<nat>, c: nat, x: Context)
    requires QueueOk(ctxs, queue) && c < |ctxs| && c !in queue && x.phase.Free?
    ensures QueueOk(ctxs[c := x], queue + [c])
  {}

  lemma CompleteKeepsInv(s: State, c: nat, result: Result)
    requires Inv(s) && Enabled(s, Complete(c, result))
    ensures Inv(Apply(s, Complete(c, result)))
  {
    var s' := Apply(s, Complete(c, result));
    assert ContextOk(s, c);
    forall d: nat | d < |s.ctxs| ensures ContextOk(s', d) { assert ContextOk(s, d); }
    forall r: nat | r < |s.asked| ensures RequestOk(s', r) { assert RequestOk(s, r); }
  }

  lemma CloseKeepsInv(s: State)
    requires Inv(s) && Enabled(s, Close)
    ensures Inv(Apply(s, Close))
  {
    var s' := Apply(s, Close);
    forall d: nat | d < |s.ctxs| ensures ContextOk(s', d) { assert ContextOk(s, d); }
    forall r: nat | r < |s.asked| ensures RequestOk(s', r) { assert RequestOk(s, r); }
  }

  lemma StepKeepsInv(s: State, e: Event)
    requires Inv(s) && Enabled(s, e)
    ensures Inv(Apply(s, e)) && |Apply(s, e).ctxs| == |s.ctxs|
  {
    match e
    case Request(h) => RequestKeepsInv(s, h);
    case Advance(c) => AdvanceKeepsInv(s, c);
    case Complete(c, result) => CompleteKeepsInv(s, c, result);
    case Close => CloseKeepsInv(s);
  }

  lemma {:induction false} RunKeepsInv(states: seq<State>, events: seq<Event>, n: nat, i: nat)
    requires Run(states, events, n) && i < |states|
    ensures Inv(states[i]) && |states[i].ctxs| == n
  {
    if i == 0 {
      forall c: nat | c < n ensures c in states[0].queue { assert states[0].queue[c] == c; }
    } else {
      RunKeepsInv(states, events, n, i - 1);
      StepKeepsInv(states[i - 1], events[i - 1]);
    }
  }

  // ----- what holds over every run -----

  /** An accepted request is answered at most once, with its own hint; until then
      exactly one context carries it. */
  lemma AnsweredOnce(states: seq<State>, events: seq<Event>, n: nat, i: nat, r: nat)
    requires Run(states, events, n) && i < |states| && r < |states[i].asked|
    ensures var s := states[i];
            && |s.replies| == |s.asked| && (s.replies[r] == [] || s.replies[r] == [s.asked[r]])
            && (s.replies[r] == [] ==> exists c: nat ::
                  && c < n == |s.ctxs| && Holding(s.ctxs[c]) && s.ctxs[c].req == r
                  && forall d: nat | d < n && Holding(s.ctxs[d]) && s.ctxs[d].req == r :: d == c)
            && (s.replies[r] != [] ==> forall d: nat | d < |s.ctxs| && Holding(s.ctxs[d]) :: s.ctxs[d].req != r)
  {
    RunKeepsInv(states, events, n, i);
    var s := states[i];
    assert RequestOk(s, r);
    forall d: nat | d < |s.ctxs| && Holding(s.ctxs[d]) && s.ctxs[d].req == r
      ensures s.holder[r] == d && s.replies[r] == [] {
      assert ContextOk(s, d);
    }
    if s.replies[r] == [] {
      var c := s.holder[r];
      assert c < n && Holding(s.ctxs[c]) && s.ctxs[c].req == r;
    }
  }

  /** When no context is busy, every accepted request has had exactly one on_reply
      carrying its own hint. */
  lemma AllAnswered(states: seq<State>, events: seq<Event>, n: nat, i: nat, r: nat)
    requires Run(states, events, n) && i < |states| && r < |states[i].asked|
    requires forall c | 0 <= c < |states[i].ctxs| :: !Busy(states[i].ctxs[c].phase)
    ensures |states[i].replies| == |states[i].asked| && states[i].replies[r] == [states[i].asked[r]]
  {
    RunKeepsInv(states, events, n, i);
    assert RequestOk(states[i], r);
  }

  /** A context is in the queue exactly when it is free, and only once. */
  lemma QueueHoldsTheFree(states: seq<State>, events: seq<Event>, n: nat, i: nat, c: nat)
    requires Run(states, events, n) && i < |states| && c < n
    ensures var s := states[i];
            && c < |s.ctxs| && (c in s.queue <==> s.ctxs[c].phase.Free?)
            && ChunkQueue.Distinct(s.queue)
  {
    RunKeepsInv(states, events, n, i);
  }

  /** Step e of state s is the callback of context c for a result that ends it. */
  ghost predicate Retires(s: State, e: Event, c: nat)
  {
    && e == Advance(c) && c < |s.ctxs| && s.ctxs[c].phase.Completed? && Ends(s.ctxs[c].phase.result)
  }

  lemma StepRetires(s: State, e: Event, c: nat)
    requires Inv(s) && Enabled(s, e) && c < |s.ctxs|
    ensures |Apply(s, e).ctxs| == |s.ctxs|
    ensures Apply(s, e).ctxs[c].phase.Retired? <==> s.ctxs[c].phase.Retired? || e.Close? || Retires(s, e, c)
  {}

  ghost predicate Reason(states: seq<State>, events: seq<Event>, k: nat, c: nat)
    requires k < |events| < |states|
  {
    events[k].Close? || Retires(states[k], events[k], c)
  }

  /** A context is retired exactly if stop() was called or an operation of it has
      ended with one of the three results, stop() or not. */
  lemma {:induction false} RetiredForAReason(states: seq<State>, events: seq<Event>, n: nat, i: nat, c: nat)
    requires Run(states, events, n) && i < |states| && c < n
    ensures c < |states[i].ctxs|
    ensures states[i].ctxs[c].phase.Retired? <==> exists k: nat :: k < i && Reason(states, events, k, c)
  {
    RunKeepsInv(states, events, n, i);
    if i > 0 {
      RunKeepsInv(states, events, n, i - 1);
      RetiredForAReason(states, events, n, i - 1, c);
      StepRetires(states[i - 1], events[i - 1], c);
      if Reason(states, events, i - 1, c) { assert states[i].ctxs[c].phase.Retired?; }
    }
  }

  /** Such a context never comes back into the pool. */
  lemma RetiredIsLost(states: seq<State>, events: seq<Event>, n: nat, k: nat, i: nat, c: nat)
    requires Run(states, events, n) && k < i < |states| && c < n && Retires(states[k], events[k], c)
    ensures c !in states[i].queue
  {
    assert Reason(states, events, k, c);
    RetiredForAReason(states, events, n, i, c);
    QueueHoldsTheFree(states, events, n, i, c);
  }

  /** A run without stop() that ends with an empty pool for good: the only context
      had its send canceled. */
  lemma CanceledWithoutStop(s0: State, h: nat) returns (states: seq<State>, events: seq<Event>)
    requires Init(s0, 1)
    ensures Run(states, events, 1) && states[0] == s0 && |events| == 5
    ensures forall k | 0 <= k < 5 :: !events[k].Close?
    ensures |states[5].ctxs| == 1 && states[5].ctxs[0].phase.Retired?
    ensures states[5].queue == [] && states[5].replies == [[h]]
  {
    var s1 := Apply(s0, Request(h));
    assert s1.queue == [] && s1.replies == [[]] && s1.ctxs[0].phase == Popped(h) && s1.ctxs[0].req == 0;
    var s2 := AdvanceStep(s1, 0);
    var s3 := AdvanceStep(s2, 0);
    var s4 := Apply(s3, Complete(0, Canceled));
    assert s4.ctxs[0] == Context(Completed(Canceled), Send, h, 0);
    var s5 := AdvanceStep(s4, 0);
    assert s5.replies[0] == [h];
    states := [s0, s1, s2, s3, s4, s5];
    events := [Request(h), Advance(0), Advance(0), Complete(0, Canceled), Advance(0)];
  }

  /** Recycling always fits: with the context about to be pushed, the queue still
      holds distinct contexts, as ChunkQueue.PoolPushSucceeds requires. */
  lemma RecycleFits(states: seq<State>, events: seq<Event>, n: nat, i: nat, c: nat)
    requires Run(states, events, n) && i < |states| && c < n
    requires c < |states[i].ctxs| && states[i].ctxs[c].phase.Replied?
    ensures var xs := states[i].queue + [c];
            && ChunkQueue.Distinct(xs) && (forall k | 0 <= k < |xs| :: xs[k] < n)
            && |states[i].queue| <= n - 1
  {
    RunKeepsInv(states, events, n, i);
    var xs := states[i].queue + [c];
    forall k, m | 0 <= k < m < |xs| ensures xs[k] != xs[m] {
      if m == |states[i].queue| { assert states[i].ctxs[xs[k]].phase.Free?; }
    }
    ChunkQueue.Pigeonhole(xs, n);
  }

  /** on_event never sees a context that started no operation: the branches for
      state::init and for unknown states are dead, so a busy context can always go
      on, by itself or by the completion of its operation. */
  lemma BusyGoesOn(states: seq<State>, events: seq<Event>, n: nat, i: nat, c: nat)
    requires Run(states, events, n) && i < |states| && c < n
    ensures var s := states[i];
            c < |s.ctxs| && (Busy(s.ctxs[c].phase) ==> CanAdvance(s, c) || Enabled(s, Complete(c, Ok)))
  {
    RunKeepsInv(states, events, n, i);
    assert ContextOk(states[i], c);
  }

  /** How many of its own steps a context is away from rest. */
  function Rank(x: Context): nat
  {
    match x.phase
    case Popped(_) => 7
    case Hinted => 6
    case Sending => 5
    case Completed(_) => if x.io == Recv then 2 else 4
    case Receiving => 3
    case Replied => 1
    case _ => 0
  }

  /** Every step and completion of a context brings it closer to rest and leaves the
      others alone: a request takes at most seven of them. */
  lemma StepsDescend(s: State, e: Event, c: nat)
    requires Inv(s) && Enabled(s, e) && (e.Advance? || e.Complete?) && c < |s.ctxs|
    ensures |Apply(s, e).ctxs| == |s.ctxs|
    ensures if e.c == c then Rank(Apply(s, e).ctxs[c]) < Rank(s.ctxs[c]) <= 7 else Apply(s, e).ctxs[c] == s.ctxs[c]
  {
    assert ContextOk(s, c);
  }

  // ----- when a reply comes -----

  /** The hints of the requests that found a context, in order. */
  ghost function Accepted(states: seq<State>, events: seq<Event>, i: nat): seq<nat>
    requires i < |states| == |events| + 1
  {
    if i == 0 then []
    else if events[i - 1].Request? && states[i - 1].queue != [] then Accepted(states, events, i - 1) + [events[i - 1].h]
    else Accepted(states, events, i - 1)
  }

  /** A request is accepted exactly if a context is free; it gets the one that has
      been free longest. */
  lemma {:induction false} AskedIsAccepted(states: seq<State>, events: seq<Event>, n: nat, i: nat)
    requires Run(states, events, n) && i < |states|
    ensures states[i].asked == Accepted(states, events, i)
  {
    if i > 0 {
      AskedIsAccepted(states, events, n, i - 1);
      StepAsks(states[i - 1], events[i - 1]);
    }
  }

  lemma StepAsks(s: State, e: Event)
    requires Enabled(s, e)
    ensures Apply(s, e).asked == if e.Request? && s.queue != [] then s.asked + [e.h] else s.asked
    ensures e.Request? && s.queue != [] ==>
      Apply(s, e).queue == s.queue[1..] && Apply(s, e).ctxs[s.queue[0]].phase == Popped(e.h)
  {}

  /** The contexts put back, in order. */
  ghost function PutBack(states: seq<State>, events: seq<Event>, i: nat): seq<nat>
    requires i < |states| == |events| + 1
  {
    if i == 0 then [] else PutBack(states, events, i - 1) + PutBackBy(states[i - 1], events[i - 1])
  }

  function PutBackBy(s: State, e: Event): seq<nat>
  {
    if e.Advance? && e.c < |s.ctxs| && s.ctxs[e.c].phase.Replied? then [e.c] else []
  }

  lemma StepPool(s: State, e: Event)
    requires Enabled(s, e) && !e.Close?
    ensures Apply(s, e).holder + Apply(s, e).queue == s.holder + s.queue + PutBackBy(s, e)
    ensures Apply(s, e).closed == s.closed
  {
    if e.Request? && s.queue != [] { assert s.queue == [s.queue[0]] + s.queue[1..]; }
  }

  /** The pool is first in, first out: until stop() the contexts that requests got and
      those still free are, in this order, the initial ones and those put back. */
  lemma {:induction false} PoolInOrder(states: seq<State>, events: seq<Event>, n: nat, i: nat)
    requires Run(states, events, n) && i < |states| && !states[i].closed
    ensures states[i].holder + states[i].queue == states[0].queue + PutBack(states, events, i)
  {
    if i == 0 {
      assert states[0].holder == [];
    } else {
      NotClosedBefore(states[i - 1], events[i - 1]);
      PoolInOrder(states, events, n, i - 1);
      StepPool(states[i - 1], events[i - 1]);
    }
  }

  lemma NotClosedBefore(s: State, e: Event)
    requires Enabled(s, e) && !Apply(s, e).closed
    ensures !s.closed && !e.Close?
  {}

  predicate Moves(e: Event, c: nat) { e == Advance(c) || (e.Complete? && e.c == c) }

  /** A busy context changes only by its own steps and completions. */
  lemma BusyFrame(s: State, e: Event, c: nat)
    requires Inv(s) && Enabled(s, e) && c < |s.ctxs| && Busy(s.ctxs[c].phase) && !Moves(e, c)
    ensures |Apply(s, e).ctxs| == |s.ctxs| && Apply(s, e).ctxs[c] == s.ctxs[c]
  {}

  lemma BusyFrameAt(states: seq<State>, events: seq<Event>, n: nat, c: nat, m: nat)
    requires Run(states, events, n) && m < |events| && c < n && !Moves(events[m], c)
    ensures c < |states[m].ctxs| == |states[m + 1].ctxs|
    ensures Busy(states[m].ctxs[c].phase) ==> states[m + 1].ctxs[c] == states[m].ctxs[c]
  {
    RunKeepsInv(states, events, n, m);
    RunKeepsInv(states, events, n, m + 1);
    if Busy(states[m].ctxs[c].phase) { BusyFrame(states[m], events[m], c); }
  }

  /** The completion of an operation of context c for request r at event m. */
  ghost predicate Completes(states: seq<State>, events: seq<Event>, m: nat, c: nat, r: nat)
  {
    m < |events| < |states| && events[m].Complete? && events[m].c == c < |states[m].ctxs| && states[m].ctxs[c].req == r
  }

  /** It is one that calls for a reply: a receive that ended, or a send that failed;
      the ending results are among these. */
  ghost predicate CallsForReply(states: seq<State>, events: seq<Event>, m: nat, c: nat)
    requires m < |events| < |states| && events[m].Complete? && c < |states[m].ctxs|
  {
    states[m].ctxs[c].phase.Receiving? || (states[m].ctxs[c].phase.Sending? && events[m].result != Ok)
  }

  /** How a context in on_event came there. */
  lemma BecomesCompleted(s: State, e: Event, c: nat)
    requires Inv(s) && Enabled(s, e) && c < |s.ctxs| == |Apply(s, e).ctxs| && Apply(s, e).ctxs[c].phase.Completed?
    ensures var x, y := s.ctxs[c], Apply(s, e).ctxs[c];
            y == x || (e == Complete(c, y.phase.result) && x.req == y.req && x.io == y.io
                       && (if y.io == Recv then x.phase.Receiving? else x.phase.Sending?))
  {
    assert ContextOk(s, c);
  }

  lemma BecomesCompletedAt(states: seq<State>, events: seq<Event>, n: nat, i: nat, c: nat)
    requires Run(states, events, n) && i < |events| && c < n
    requires c < |states[i + 1].ctxs| && states[i + 1].ctxs[c].phase.Completed?
    ensures c < |states[i].ctxs|
    ensures var x, y := states[i].ctxs[c], states[i + 1].ctxs[c];
            if x == y then !Moves(events[i], c)
            else Completes(states, events, i, c, y.req) && y.phase.result == events[i].result
                 && (if y.io == Recv then x.phase.Receiving? else x.phase.Sending?)
  {
    RunKeepsInv(states, events, n, i);
    BecomesCompleted(states[i], events[i], c);
    if states[i].ctxs[c] == states[i + 1].ctxs[c] && Moves(events[i], c) {
      CompletedMoves(states[i], events[i], c);
    }
  }

  /** The last completion of a context in on_event. */
  lemma {:induction false} LastCompletion(states: seq<State>, events: seq<Event>, n: nat, i: nat, c: nat)
    returns (m: nat)
    requires Run(states, events, n) && i < |states| && c < n
    requires c < |states[i].ctxs| && states[i].ctxs[c].phase.Completed?
    ensures m < i && Completes(states, events, m, c, states[i].ctxs[c].req)
    ensures states[i].ctxs[c].phase == Completed(events[m].result)
    ensures if states[i].ctxs[c].io == Recv then states[m].ctxs[c].phase.Receiving?
            else states[m].ctxs[c].phase.Sending?
    ensures forall q | m < q < i :: !Moves(events[q], c)
  {
    BecomesCompletedAt(states, events, n, i - 1, c);
    if states[i].ctxs[c] == states[i - 1].ctxs[c] {
      m := LastCompletion(states, events, n, i - 1, c);
    } else {
      m := i - 1;
    }
  }

  lemma CompletedMoves(s: State, e: Event, c: nat)
    requires Enabled(s, e) && c < |s.ctxs| && s.ctxs[c].phase.Completed? && Moves(e, c)
    ensures Apply(s, e).ctxs[c] != s.ctxs[c]
  {}

  /** A step that replies to request r. */
  ghost predicate Replies(states: seq<State>, i: nat, r: nat)
  {
    i + 1 < |states| && r < |states[i].replies| && r < |states[i + 1].replies|
    && states[i + 1].replies[r] != states[i].replies[r]
  }

  lemma StepReplies(s: State, e: Event, r: nat)
    requires Inv(s) && Enabled(s, e) && r < |s.replies|
    ensures r < |Apply(s, e).replies|
    ensures Apply(s, e).replies[r] != s.replies[r] ==>
      e.Advance? && s.ctxs[e.c].req == r && s.ctxs[e.c].phase.Completed?
      && (s.ctxs[e.c].io == Recv || s.ctxs[e.c].phase.result != Ok)
  {
    if e.Advance? { assert ContextOk(s, e.c); }
  }

  /** A reply to request r comes only after a completion that calls for it: of an
      operation for r of the context that replies, its last one. */
  lemma ReplyFollowsCompletion(states: seq<State>, events: seq<Event>, n: nat, i: nat, r: nat)
    returns (m: nat, c: nat)
    requires Run(states, events, n) && i < |events| && Replies(states, i, r)
    ensures events[i] == Advance(c) && m < i && Completes(states, events, m, c, r)
    ensures CallsForReply(states, events, m, c) && forall q | m < q < i :: !Moves(events[q], c)
  {
    RunKeepsInv(states, events, n, i);
    StepReplies(states[i], events[i], r);
    c := events[i].c;
    m := LastCompletion(states, events, n, i, c);
  }

  lemma CompletionStep(s: State, c: nat)
    requires Inv(s) && CanAdvance(s, c) && s.ctxs[c].phase.Completed?
    ensures var x, s' := s.ctxs[c], AdvanceStep(s, c);
            && x.req < |s.replies| == |s'.replies| == |s.asked| && s.replies[x.req] == [] && |s'.ctxs| == |s.ctxs|
            && if x.io == Recv || x.phase.result != Ok
               then s'.replies[x.req] == [s.asked[x.req]]
               else s'.replies[x.req] == [] && s'.ctxs[c].phase.Receiving? && s'.ctxs[c].req == x.req
  {
    assert ContextOk(s, c);
  }

  /** ... and always after one: the next step of the context replies, with the hint
      of the request, exactly if the completion calls for it. Otherwise it starts
      the receive. */
  lemma CompletionDecides(states: seq<State>, events: seq<Event>, n: nat, m: nat, i: nat, c: nat, r: nat)
    requires Run(states, events, n) && m < i < |events| && c < n && Completes(states, events, m, c, r)
    requires events[i] == Advance(c) && forall q | m < q < i :: !Moves(events[q], c)
    ensures r < |states[i].replies| == |states[i + 1].replies| == |states[i].asked| && states[i].replies[r] == []
    ensures c < |states[i + 1].ctxs|
    ensures if CallsForReply(states, events, m, c) then states[i + 1].replies[r] == [states[i].asked[r]]
            else states[i + 1].replies[r] == [] && states[i + 1].ctxs[c].phase.Receiving?
                 && states[i + 1].ctxs[c].req == r
  {
    RunKeepsInv(states, events, n, m);
    RunKeepsInv(states, events, n, i);
    assert ContextOk(states[m], c);
    CompletedUntil(states, events, n, m, i, c);
    CompletionStep(states[i], c);
  }

  lemma {:induction false} CompletedUntil(states: seq<State>, events: seq<Event>, n: nat, m: nat, i: nat, c: nat)
    requires Run(states, events, n) && m < i < |states| && c < n && events[m].Complete? && events[m].c == c
    requires forall q | m < q < i :: !Moves(events[q], c)
    ensures c < |states[m].ctxs| && c < |states[i].ctxs|
    ensures states[i].ctxs[c] == states[m].ctxs[c].(phase := Completed(events[m].result))
    decreases i
  {
    assert Enabled(states[m], events[m]);
    if i > m + 1 {
      CompletedUntil(states, events, n, m, i - 1, c);
      BusyFrameAt(states, events, n, c, i - 1);
    }
  }

  // ----- a send that completed -----

  /** After its send, before its receive has completed. */
  predicate AwaitsReceive(s: State, c: nat, r: nat)
  {
    && c < |s.ctxs| && r < |s.replies| && s.replies[r] == [] && s.ctxs[c].req == r
    && (s.ctxs[c].phase.Receiving? || (s.ctxs[c].phase == Completed(Ok) && s.ctxs[c].io == Send))
  }

  predicate Received(s: State, c: nat, r: nat)
  {
    c < |s.ctxs| && s.ctxs[c].req == r && s.ctxs[c].phase.Completed? && s.ctxs[c].io == Recv
  }

  lemma AwaitsStep(s: State, e: Event, c: nat, r: nat)
    requires Inv(s) && Enabled(s, e) && AwaitsReceive(s, c, r)
    ensures AwaitsReceive(Apply(s, e), c, r) || Received(Apply(s, e), c, r)
  {
    assert ContextOk(s, c);
    StepReplies(s, e, r);
    if !Moves(e, c) {
      BusyFrame(s, e, c);
      if e.Advance? { assert ContextOk(s, e.c); }
    }
  }

  /** After a send that completed well its request stays unanswered until the receive
      of the same context has completed. */
  lemma NoReplyBeforeReceive(states: seq<State>, events: seq<Event>, n: nat, m: nat, j: nat, c: nat, r: nat)
    returns (q: nat)
    requires Run(states, events, n) && m < j < |states| && c < n && Completes(states, events, m, c, r)
    requires states[m].ctxs[c].phase.Sending? && events[m].result == Ok
    requires r < |states[j].replies| && states[j].replies[r] != []
    ensures m < q < j && Completes(states, events, q, c, r) && states[q].ctxs[c].phase.Receiving?
  {
    RunKeepsInv(states, events, n, m);
    assert ContextOk(states[m], c);
    forall x | m < x < j && AwaitsReceive(states[x], c, r)
      ensures AwaitsReceive(states[x + 1], c, r) || Received(states[x + 1], c, r)
    {
      RunKeepsInv(states, events, n, x);
      AwaitsStep(states[x], events[x], c, r);
    }
    UntilSaw(states, m, j, s => AwaitsReceive(s, c, r), s => Received(s, c, r));
    var x: nat :| m < x <= j && ((s: State) => Received(s, c, r))(states[x]);
    q := FirstReceived(states, events, n, m, x, c, r);
  }

  lemma FirstReceived(states: seq<State>, events: seq<Event>, n: nat, m: nat, x: nat, c: nat, r: nat) returns (q: nat)
    requires Run(states, events, n) && m < x < |states| && c < n && Completes(states, events, m, c, r)
    requires states[m].ctxs[c].phase.Sending? && Received(states[x], c, r)
    ensures m < q < x && Completes(states, events, q, c, r) && states[q].ctxs[c].phase.Receiving?
  {
    assert Moves(events[m], c);
    q := LastCompletion(states, events, n, x, c);
  }

  lemma BecomesReceivingAt(states: seq<State>, events: seq<Event>, n: nat, i: nat, c: nat)
    requires Run(states, events, n) && i < |events| && c < n
    requires c < |states[i + 1].ctxs| && states[i + 1].ctxs[c].phase.Receiving?
    ensures c < |states[i].ctxs|
    ensures var x, y := states[i].ctxs[c], states[i + 1].ctxs[c];
            y == x || (x.req == y.req && x.phase == Completed(Ok) && x.io == Send)
  {
    RunKeepsInv(states, events, n, i);
    BecomesReceiving(states[i], events[i], c);
  }

  /** A context receives for r only after its send for r completed well. */
  lemma {:induction false} ReceiveFollowsSend(states: seq<State>, events: seq<Event>, n: nat, i: nat, c: nat)
    returns (m: nat)
    requires Run(states, events, n) && i < |states| && c < n
    requires c < |states[i].ctxs| && states[i].ctxs[c].phase.Receiving?
    ensures m < i && Completes(states, events, m, c, states[i].ctxs[c].req)
    ensures states[m].ctxs[c].phase.Sending? && events[m].result == Ok
  {
    BecomesReceivingAt(states, events, n, i - 1, c);
    if states[i - 1].ctxs[c] == states[i].ctxs[c] {
      m := ReceiveFollowsSend(states, events, n, i - 1, c);
    } else {
      m := LastCompletion(states, events, n, i - 1, c);
    }
  }

  lemma BecomesReceiving(s: State, e: Event, c: nat)
    requires Inv(s) && Enabled(s, e) && c < |s.ctxs| == |Apply(s, e).ctxs| && Apply(s, e).ctxs[c].phase.Receiving?
    ensures var x, y := s.ctxs[c], Apply(s, e).ctxs[c];
            y == x || (x.req == y.req && x.phase == Completed(Ok) && x.io == Send)
  {
    assert ContextOk(s, c);
  }
}
