/** ExplicitProducer of concurrentqueue.h as a whole: the ticket protocol of Tickets
    and the block ring of BlockRing in one run. The two share headIndex and
    tailIndex: publishing an element is the ticket protocol's Enqueue, and the
    claim a consumer makes in the ring is the one its tickets entitle it to. No
    step assumes that a claim is covered; ClaimIsCovered proves it. */
module ExplicitProducer {
  import Tickets
  import BlockRing
  import BlockRingRuns
  import BlockRingCalls
  import opened Tally
  import opened Runs

  datatype State<T> = State(tickets: Tickets.State, ring: BlockRing.State<T>)

  datatype Event<T> =
    | Produce(e: BlockRing.Event<T>)   // a step of the producer
    | Dequeue(t: nat, max: nat)        // call of dequeue or dequeue_bulk
    | Draw(t: nat)                     // a step of its ticket protocol, the claim included
    | Take(t: nat)                     // a step of its lookup, reads and marks, or its return

  predicate Publishes<T>(s: State<T>, e: BlockRing.Event<T>) { e.Produce? && s.ring.producer.EPublish? }

  predicate Enabled<T>(s: State<T>, e: Event<T>)
  {
    match e
    case Produce(p) => !p.TakeClaim? && !p.Consume? && BlockRing.Enabled(s.ring, p)
    case Dequeue(t, max) => Tickets.Enabled(s.tickets, Tickets.Dequeue(t, max))
    case Draw(t) =>
      Tickets.Enabled(s.tickets, Tickets.Go(t)) && t < |s.ring.consumers| && !s.tickets.threads[t].Claimed?
    case Take(t) =>
      && Tickets.Enabled(s.tickets, Tickets.Go(t)) && t < |s.ring.consumers| && s.tickets.threads[t].Claimed?
      && (s.ring.consumers[t].CIdle? || BlockRing.ConsumerReady(s.ring, s.ring.consumers[t]))
  }

  /** headIndex.fetch_add(n), whether or not n elements are there; a claim of none
      ends the call. */
  function TakeHead<T>(r: BlockRing.State<T>, t: nat, n: nat): BlockRing.State<T>
    requires t < |r.consumers|
  {
    if n == 0 then r
    else BlockRing.SetConsumer(r, t, BlockRing.CHeader(BlockRing.Claim(r.head, r.head + n))).(head := r.head + n)
  }

  function Apply<T>(s: State<T>, e: Event<T>): State<T>
    requires Enabled(s, e)
  {
    match e
    case Produce(p) =>
      State(if Publishes(s, p) then Tickets.Apply(s.tickets, Tickets.Enqueue(1)) else s.tickets,
            BlockRing.Apply(s.ring, p))
    case Dequeue(t, max) => s.(tickets := Tickets.Apply(s.tickets, Tickets.Dequeue(t, max)))
    case Draw(t) =>
      var l := s.tickets.threads[t];
      State(Tickets.Step(s.tickets, t), if l.Claiming? then TakeHead(s.ring, t, l.actual) else s.ring)
    case Take(t) =>
      var c := s.ring.consumers[t];
      State(if c.CIdle? || c.CDone? then Tickets.Step(s.tickets, t) else s.tickets,
            if c.CIdle? then s.ring else BlockRing.ConsumeStep(s.ring, t))
  }

  ghost predicate Init<T>(s: State<T>)
  {
    Tickets.Init(s.tickets) && BlockRing.Init(s.ring) && |s.tickets.threads| == |s.ring.consumers|
  }

  ghost predicate Run<T>(states: seq<State<T>>, events: seq<Event<T>>)
  {
    && |states| == |events| + 1
    && Init(states[0])
    && forall i | 0 <= i < |events| ::
         Enabled(states[i], events[i]) && states[i + 1] == Apply(states[i], events[i])
  }

  // ----- the invariant -----

  /** A consumer is at work in the ring exactly for the claim its thread made. */
  predicate Tied<T>(l: Tickets.Local, c: BlockRing.Consumer<T>)
  {
    if l.Claimed? && l.count > 0 then !c.CIdle? && c.c == BlockRing.Claim(l.first, l.first + l.count)
    else c.CIdle?
  }

  predicate Linked<T>(s: State<T>)
  {
    && s.tickets.head == s.ring.head && s.tickets.tail == s.ring.tail
    && |s.tickets.threads| == |s.ring.consumers|
    && forall t | 0 <= t < |s.ring.consumers| :: Tied(s.tickets.threads[t], s.ring.consumers[t])
  }

  ghost predicate Inv<T>(s: State<T>)
  {
    Tickets.Inv(s.tickets) && BlockRing.Inv(s.ring) && Linked(s)
  }

  /** What the producer does to the counters and to the consumers. */
  lemma ProducerFrame<T>(r: BlockRing.State<T>, p: BlockRing.Event<T>)
    requires BlockRing.Enabled(r, p) && !p.TakeClaim? && !p.Consume?
    ensures var r' := BlockRing.Apply(r, p);
            && r'.head == r.head && r'.consumers == r.consumers
            && r'.tail == r.tail + (if p.Produce? && r.producer.EPublish? then 1 else 0)
  {}

  /** A consumer's step leaves the counters and the other consumers alone, and its
      claim until it is done. */
  lemma ConsumerFrame<T>(r: BlockRing.State<T>, t: nat)
    requires t < |r.consumers| && BlockRing.ConsumerReady(r, r.consumers[t]) && !r.consumers[t].CIdle?
    ensures var r' := BlockRing.ConsumeStep(r, t);
            && r'.head == r.head && r'.tail == r.tail && r'.consumers == r.consumers[t := r'.consumers[t]]
            && (r'.consumers[t].CIdle? <==> r.consumers[t].CDone?)
            && (!r.consumers[t].CDone? ==> r'.consumers[t].c == r.consumers[t].c)
  {}

  /** A step of the ticket protocol. */
  lemma TicketFrame(k: Tickets.State, t: nat)
    requires t < |k.threads| && Tickets.Own(k, k.threads[t]) && !k.threads[t].Idle?
    ensures var k', l := Tickets.Step(k, t), k.threads[t];
            && k'.tail == k.tail && k'.threads == k.threads[t := k'.threads[t]]
            && k'.head == k.head + (if l.Claiming? then l.actual else 0)
            && (k'.threads[t].Claimed? <==> l.Claiming?)
            && (l.Claiming? ==> k'.threads[t] == Tickets.Claimed(k.head, l.actual))
  {}

  /** The claim is one the ring allows: the elements are there. */
  lemma ClaimIsAllowed<T>(s: State<T>, t: nat)
    requires Inv(s) && t < |s.tickets.threads| && s.tickets.threads[t].Claiming? && s.tickets.threads[t].actual > 0
    ensures BlockRing.CanClaim(s.ring, t, s.tickets.threads[t].actual)
    ensures TakeHead(s.ring, t, s.tickets.threads[t].actual)
            == BlockRing.Apply(s.ring, BlockRing.TakeClaim(t, s.tickets.threads[t].actual))
  {
    Tickets.Covered(s.tickets, t);
    assert Tied(s.tickets.threads[t], s.ring.consumers[t]);
  }

  lemma StepLinked<T>(s: State<T>, e: Event<T>)
    requires Linked(s) && Enabled(s, e)
    ensures Linked(Apply(s, e))
  {
    if !e.Produce? { assert Tied(s.tickets.threads[e.t], s.ring.consumers[e.t]); }
    match e
    case Produce(p) => ProducerFrame(s.ring, p);
    case Dequeue(t, max) =>
    case Draw(t) => TicketFrame(s.tickets, t);
    case Take(t) =>
      TicketFrame(s.tickets, t);
      if !s.ring.consumers[t].CIdle? { ConsumerFrame(s.ring, t); }
  }

  lemma StepTickets<T>(s: State<T>, e: Event<T>)
    requires Tickets.Inv(s.tickets) && Enabled(s, e)
    ensures Tickets.Inv(Apply(s, e).tickets)
  {
    match e
    case Produce(p) => if Publishes(s, p) { Tickets.StepKeepsInv(s.tickets, Tickets.Enqueue(1)); }
    case Dequeue(t, max) => Tickets.StepKeepsInv(s.tickets, Tickets.Dequeue(t, max));
    case Draw(t) => Tickets.StepKeepsInv(s.tickets, Tickets.Go(t));
    case Take(t) => Tickets.StepKeepsInv(s.tickets, Tickets.Go(t));
  }

  lemma StepRing<T>(s: State<T>, e: Event<T>)
    requires Inv(s) && Enabled(s, e)
    ensures BlockRing.Inv(Apply(s, e).ring)
  {
    match e
    case Produce(p) => BlockRingRuns.StepKeepsInv(s.ring, p);
    case Dequeue(t, max) =>
    case Draw(t) =>
      if s.tickets.threads[t].Claiming? && s.tickets.threads[t].actual > 0 {
        ClaimIsAllowed(s, t);
        BlockRingRuns.StepKeepsInv(s.ring, BlockRing.TakeClaim(t, s.tickets.threads[t].actual));
      }
    case Take(t) =>
      if !s.ring.consumers[t].CIdle? { BlockRingRuns.StepKeepsInv(s.ring, BlockRing.Consume(t)); }
  }

  lemma StepKeepsInv<T>(s: State<T>, e: Event<T>)
    requires Inv(s) && Enabled(s, e)
    ensures Inv(Apply(s, e))
  {
    StepTickets(s, e);
    StepRing(s, e);
    StepLinked(s, e);
  }

  lemma {:induction false} RunKeepsInv<T>(states: seq<State<T>>, events: seq<Event<T>>, i: nat)
    requires Run(states, events) && i < |states|
    ensures Inv(states[i])
  {
    if i == 0 {
      Tickets.IdleSums(states[0].tickets.threads);
      BlockRingRuns.InitInv(states[0].ring);
    } else {
      RunKeepsInv(states, events, i - 1);
      StepKeepsInv(states[i - 1], events[i - 1]);
    }
  }

  // ----- what holds over every run -----

  /** Whoever passes the second check finds its elements: the claim that tickets
      lead to is always one that the ring allows. */
  lemma ClaimIsCovered<T>(states: seq<State<T>>, events: seq<Event<T>>, i: nat, t: nat)
    requires Run(states, events) && i < |states| && t < |states[i].tickets.threads|
    requires states[i].tickets.threads[t].Claiming? && states[i].tickets.threads[t].actual > 0
    ensures BlockRing.CanClaim(states[i].ring, t, states[i].tickets.threads[t].actual)
  {
    RunKeepsInv(states, events, i);
    ClaimIsAllowed(states[i], t);
  }

  /** A dequeue that has begun can always go on: what its next access addresses is
      there. */
  lemma DequeuesGoOn<T>(states: seq<State<T>>, events: seq<Event<T>>, i: nat, t: nat)
    requires Run(states, events) && i < |states| && t < |states[i].tickets.threads|
    ensures states[i].tickets.threads[t].Idle? || Enabled(states[i], Draw(t)) || Enabled(states[i], Take(t))
  {
    RunKeepsInv(states, events, i);
    if !states[i].tickets.threads[t].Idle? { GoesOn(states[i], t); }
  }

  /** The next step of a dequeue: of its ticket protocol, then of its consumer. */
  function Own<T>(s: State<T>, t: nat): Event<T>
    requires t < |s.tickets.threads|
  {
    if s.tickets.threads[t].Claimed? then Take(t) else Draw(t)
  }

  lemma GoesOn<T>(s: State<T>, t: nat)
    requires Inv(s) && t < |s.tickets.threads| && !s.tickets.threads[t].Idle?
    ensures Enabled(s, Own(s, t))
  {
    assert Tickets.LocalOk(s.tickets, t, s.tickets.threads[t]);
    assert BlockRing.LocalOk(s.ring, s.ring.consumers[t]);
    if !s.ring.consumers[t].CIdle? { BlockRingRuns.ConsumerIsReady(s.ring, s.ring.consumers[t]); }
  }

  /** A finished dequeue, single or bulk, has the values enqueued at the indices that
      its tickets won, in order. */
  lemma DequeueReturnsItsClaim<T>(states: seq<State<T>>, events: seq<Event<T>>, i: nat, t: nat)
    requires Run(states, events) && i < |states| && t < |states[i].ring.consumers|
    requires states[i].ring.consumers[t].CDone?
    ensures var s := states[i];
            && |s.tickets.threads| == |s.ring.consumers| && s.tickets.threads[t].Claimed?
            && var l := s.tickets.threads[t];
               l.first + l.count <= |s.ring.log| && s.ring.consumers[t].got == s.ring.log[l.first..l.first + l.count]
  {
    RunKeepsInv(states, events, i);
    var s := states[i];
    assert Tied(s.tickets.threads[t], s.ring.consumers[t]);
    assert BlockRing.LocalOk(s.ring, s.ring.consumers[t]);
  }

  /** Step e is the claim that wins index x. */
  predicate Claims<T>(s: State<T>, e: Event<T>, x: nat)
  {
    && e.Draw? && e.t < |s.tickets.threads| && s.tickets.threads[e.t].Claiming?
    && s.tickets.head <= x < s.tickets.head + s.tickets.threads[e.t].actual
  }

  lemma StepHead<T>(s: State<T>, e: Event<T>)
    requires Linked(s) && Enabled(s, e)
    ensures s.tickets.head <= Apply(s, e).tickets.head
    ensures forall x: nat :: Claims(s, e, x) <==> s.tickets.head <= x < Apply(s, e).tickets.head
  {
    match e
    case Produce(_) =>
    case Dequeue(_, _) =>
    case Draw(t) => TicketFrame(s.tickets, t);
    case Take(t) => TicketFrame(s.tickets, t);
  }

  lemma StepHeadAt<T>(states: seq<State<T>>, events: seq<Event<T>>, k: nat)
    requires Run(states, events) && k < |events|
    ensures states[k].tickets.head <= states[k + 1].tickets.head
  {
    RunKeepsInv(states, events, k);
    StepHead(states[k], events[k]);
  }

  lemma {:induction false} HeadGrows<T>(states: seq<State<T>>, events: seq<Event<T>>, i: nat, j: nat)
    requires Run(states, events) && i <= j < |states|
    ensures states[i].tickets.head <= states[j].tickets.head
  {
    if i < j {
      HeadGrows(states, events, i, j - 1);
      StepHeadAt(states, events, j - 1);
    }
  }

  /** Every value below the head is won by one dequeue and by no other. */
  lemma {:induction false} EachIndexHasOneClaim<T>(states: seq<State<T>>, events: seq<Event<T>>, i: nat, x: nat)
    returns (k: nat)
    requires Run(states, events) && i < |states| && x < states[i].tickets.head
    ensures k < i && Claims(states[k], events[k], x)
    ensures forall j: nat | j < |events| && Claims(states[j], events[j], x) :: j == k
  {
    RunKeepsInv(states, events, i - 1);
    StepHead(states[i - 1], events[i - 1]);
    if x < states[i - 1].tickets.head {
      k := EachIndexHasOneClaim(states, events, i - 1, x);
    } else {
      k := i - 1;
      forall j: nat | j < |events| && Claims(states[j], events[j], x) ensures j == k {
        RunKeepsInv(states, events, j);
        StepHead(states[j], events[j]);
        if j < k { HeadGrows(states, events, j + 1, k); } else if k < j { HeadGrows(states, events, k + 1, j); }
      }
    }
  }

  // ----- a dequeue that runs alone -----

  ghost function Leads<T>(): (State<T>, Event<T>, State<T>) -> bool
  {
    (s: State<T>, e: Event<T>, s': State<T>) => Enabled(s, e) && s' == Apply(s, e)
  }

  lemma Extend<T>(states: seq<State<T>>, events: seq<Event<T>>, more: seq<State<T>>, es: seq<Event<T>>)
    requires Run(states, events) && Path(Leads(), more, es) && more[0] == states[|events|]
    ensures Run(states + more[1..], events + es)
  {
    var s, g := states + more[1..], events + es;
    forall i | 0 <= i < |g| ensures Enabled(s[i], g[i]) && s[i + 1] == Apply(s[i], g[i]) {
      if i >= |events| {
        assert Leads()(more[i - |events|], es[i - |events|], more[i - |events| + 1]);
        assert s[i] == more[i - |events|] && g[i] == es[i - |events|];
      }
    }
  }

  /** Inv(s), behind a guard that Open lifts. */
  ghost predicate Sound<T>(s: State<T>)
  {
    forall k: nat {:trigger Asked(k)} | Asked(k) :: Inv(s)
  }

  lemma Open<T>(s: State<T>)
    requires Sound(s)
    ensures Inv(s)
  {
    assert Asked(0);
  }

  /** No dequeue is running. */
  ghost predicate Quiet<T>(s: State<T>)
  {
    forall u | 0 <= u < |s.tickets.threads| :: s.tickets.threads[u].Idle?
  }

  /** How far a dequeue of n elements is that runs alone and found the given counters. */
  predicate Drawing(k: Tickets.State, l: Tickets.Local, max: nat, head: nat, n: nat)
  {
    && n == Tickets.Min(max, k.tail - head) && k.tail - head >= 0
    && match l
       case GotTail(m, tail) => m == max && tail == k.tail && k.head == head && k.optimistic - k.overcommit == head
       case GotOver(m, tail, over) =>
         && m == max && tail == k.tail && over == k.overcommit && k.head == head
         && k.optimistic - k.overcommit == head
       case Wants(over, desired) =>
         && desired == n && k.tail > head && over == k.overcommit && k.head == head
         && k.optimistic - k.overcommit == head
       case Ticketed(over, desired, my) =>
         desired == n && k.tail > head && over == k.overcommit && k.head == head && my - over == head
       case Claiming(actual) => actual == n && k.head == head
       case Claimed(first, count) => first == head && count == n && k.head == head + n
       case _ => false
  }

  ghost predicate Dequeuing<T>(s: State<T>, s0: State<T>, t: nat, max: nat, n: nat)
  {
    && Sound(s) && t < |s.tickets.threads| == |s.ring.consumers|
    && (forall u | 0 <= u < |s.tickets.threads| && u != t :: s.tickets.threads[u].Idle?)
    && s.ring.log == s0.ring.log && s.tickets.tail == s0.tickets.tail
    && Drawing(s.tickets, s.tickets.threads[t], max, s0.tickets.head, n)
  }

  /** s is the last state of the dequeue, s' the one after it. */
  ghost predicate Dequeued<T>(s: State<T>, s': State<T>, s0: State<T>, t: nat, n: nat)
  {
    && Quiet(s') && s'.tickets.head == s0.tickets.head + n && s'.ring.log == s0.ring.log
    && s0.tickets.head + n <= |s0.ring.log|
    && (n > 0 ==> t < |s.ring.consumers| && s.ring.consumers[t].CDone?
                  && s.ring.consumers[t].got == s0.ring.log[s0.tickets.head..s0.tickets.head + n])
  }

  function DequeueRank<T>(s: State<T>, t: nat, n: nat): int
    requires t < |s.tickets.threads| == |s.ring.consumers|
  {
    match s.tickets.threads[t]
    case GotTail(_, _) => BlockRingCalls.Fivefold(n) + 10
    case GotOver(_, _, _) => BlockRingCalls.Fivefold(n) + 9
    case Wants(_, _) => BlockRingCalls.Fivefold(n) + 8
    case Ticketed(_, _, _) => BlockRingCalls.Fivefold(n) + 7
    case Claiming(_) => BlockRingCalls.Fivefold(n) + 6
    case _ => BlockRingCalls.ConsumerRank(s.ring.consumers[t])
  }

  lemma DrawGoesOn(k: Tickets.State, t: nat, max: nat, head: nat, n: nat)
    requires t < |k.threads| && Tickets.Own(k, k.threads[t]) && !k.threads[t].Claimed?
    requires Drawing(k, k.threads[t], max, head, n)
    ensures var k' := Tickets.Step(k, t);
            && k'.tail == k.tail && k'.threads == k.threads[t := k'.threads[t]]
            && (Drawing(k', k'.threads[t], max, head, n) || (k'.threads[t].Idle? && n == 0 && k'.head == head))
            && (k.threads[t].Claiming? <==> k'.threads[t].Claimed?)
  {
    if k.threads[t].Ticketed? {
      assert Tickets.Actual(k.tail, k.threads[t].my, k.threads[t].over, n) == n;
    }
  }

  lemma TakeGoesOn<T>(s: State<T>, t: nat)
    requires Inv(s) && t < |s.tickets.threads| && s.tickets.threads[t].Claimed? && Enabled(s, Take(t))
    ensures var s', c := Apply(s, Take(t)), s.ring.consumers[t];
            && s'.ring.log == s.ring.log && s'.tickets.head == s.tickets.head && s'.tickets.tail == s.tickets.tail
            && (c.CIdle? <==> s.tickets.threads[t].count == 0)
            && (if c.CIdle? || c.CDone? then s'.tickets.threads == s.tickets.threads[t := Tickets.Idle]
                else s'.tickets == s.tickets && |s'.ring.consumers| == |s.ring.consumers|
                     && 0 <= BlockRingCalls.ConsumerRank(s'.ring.consumers[t]) < BlockRingCalls.ConsumerRank(c))
  {
    assert Tied(s.tickets.threads[t], s.ring.consumers[t]);
    assert BlockRing.LocalOk(s.ring, s.ring.consumers[t]);
    if !s.ring.consumers[t].CIdle? {
      ConsumeLogs(s.ring, t);
      BlockRingCalls.ConsumerDescends(s.ring, s.ring.consumers[t]);
    }
  }

  lemma ConsumeLogs<T>(r: BlockRing.State<T>, t: nat)
    requires t < |r.consumers| && BlockRing.ConsumerReady(r, r.consumers[t])
    ensures var r' := BlockRing.ConsumeStep(r, t);
            r'.log == r.log && r'.consumers == r.consumers[t := BlockRing.NextLocal(r, r.consumers[t])]
  {}

  ghost predicate GoneOn<T>(s: State<T>, s': State<T>, s0: State<T>, t: nat, max: nat, n: nat)
    requires t < |s.tickets.threads| == |s.ring.consumers|
  {
    || Dequeued(s, s', s0, t, n)
    || (Dequeuing(s', s0, t, max, n) && 0 <= DequeueRank(s', t, n) < DequeueRank(s, t, n))
  }

  lemma DrawnOn<T>(s: State<T>, s0: State<T>, t: nat, max: nat, n: nat)
    requires Dequeuing(s, s0, t, max, n) && !s.tickets.threads[t].Claimed? && Enabled(s, Draw(t))
    requires Sound(Apply(s, Draw(t))) && s0.tickets.head <= |s0.ring.log|
    requires s.ring.consumers[t].CIdle?
    ensures GoneOn(s, Apply(s, Draw(t)), s0, t, max, n)
  {
    DrawGoesOn(s.tickets, t, max, s0.tickets.head, n);
  }

  lemma TakenOn<T>(s: State<T>, s0: State<T>, t: nat, max: nat, n: nat)
    requires Dequeuing(s, s0, t, max, n) && s.tickets.threads[t].Claimed? && Enabled(s, Take(t))
    requires Sound(Apply(s, Take(t)))
    ensures GoneOn(s, Apply(s, Take(t)), s0, t, max, n)
  {
    Open(s);
    TakeGoesOn(s, t);
    DoneHasItsClaim(s, t);
  }

  lemma DequeuingGoesOn<T>(s: State<T>, s0: State<T>, t: nat, max: nat, n: nat)
    requires Dequeuing(s, s0, t, max, n) && s0.tickets.head <= |s0.ring.log|
    ensures Enabled(s, Own(s, t)) && GoneOn(s, Apply(s, Own(s, t)), s0, t, max, n)
  {
    Open(s);
    GoesOn(s, t);
    StepKeepsInv(s, Own(s, t));
    if s.tickets.threads[t].Claimed? {
      TakenOn(s, s0, t, max, n);
    } else {
      assert Tied(s.tickets.threads[t], s.ring.consumers[t]);
      DrawnOn(s, s0, t, max, n);
    }
  }

  lemma DoneHasItsClaim<T>(s: State<T>, t: nat)
    requires Inv(s) && t < |s.ring.consumers|
    ensures s.tickets.head <= |s.ring.log|
    ensures s.ring.consumers[t].CDone? ==>
              s.tickets.threads[t].Claimed?
              && var l := s.tickets.threads[t];
                 l.first + l.count <= |s.ring.log| && s.ring.consumers[t].got == s.ring.log[l.first..l.first + l.count]
  {
    assert Tied(s.tickets.threads[t], s.ring.consumers[t]);
    assert BlockRing.LocalOk(s.ring, s.ring.consumers[t]);
  }

  lemma {:induction false} LoneDequeuing<T>(s: State<T>, s0: State<T>, t: nat, max: nat, n: nat)
    returns (states: seq<State<T>>, events: seq<Event<T>>)
    requires Dequeuing(s, s0, t, max, n) && s0.tickets.head <= |s0.ring.log|
    ensures Path(Leads(), states, events) && 0 < |events| && states[0] == s
    ensures forall i | 0 <= i < |events| :: events[i] == Draw(t) || events[i] == Take(t)
    ensures Dequeued(states[|events| - 1], states[|events|], s0, t, n)
    decreases DequeueRank(s, t, n)
  {
    DequeuingGoesOn(s, s0, t, max, n);
    var s' := Apply(s, Own(s, t));
    if Dequeued(s, s', s0, t, n) {
      states, events := [s, s'], [Own(s, t)];
    } else {
      var ss, es := LoneDequeuing(s', s0, t, max, n);
      states, events := [s] + ss, [Own(s, t)] + es;
    }
  }

  lemma DequeueStarts<T>(s: State<T>, t: nat, max: nat)
    requires Inv(s) && Quiet(s) && t < |s.tickets.threads|
    ensures s.tickets.head <= s.tickets.tail == |s.ring.log|
    ensures Enabled(s, Dequeue(t, max))
    ensures Dequeuing(Apply(s, Dequeue(t, max)), s, t, max, Tickets.Min(max, s.tickets.tail - s.tickets.head))
  {
    StepKeepsInv(s, Dequeue(t, max));
    Tickets.IdleSums(s.tickets.threads);
    Tickets.GrantedFit(s.tickets);
  }

  lemma ExtendCall<T>(states: seq<State<T>>, events: seq<Event<T>>, call: Event<T>,
      ss: seq<State<T>>, es: seq<Event<T>>)
    requires Run(states, events) && Enabled(states[|events|], call)
    requires Path(Leads(), ss, es) && ss[0] == Apply(states[|events|], call)
    ensures Run(states + ss, events + ([call] + es))
  {
    var more := [states[|events|], ss[0]];
    assert Path(Leads(), more, [call]);
    Join(Leads(), more, [call], ss, es);
    assert (more + ss[1..])[1..] == ss;
    Extend(states, events, more + ss[1..], [call] + es);
  }

  /** A dequeue that runs alone returns the oldest elements, in order: as many as it
      asks for, or as there are. */
  lemma LoneDequeue<T>(states: seq<State<T>>, events: seq<Event<T>>, t: nat, max: nat)
    returns (states': seq<State<T>>, events': seq<Event<T>>)
    requires Run(states, events) && Quiet(states[|events|]) && t < |states[|events|].tickets.threads|
    ensures Run(states', events')
    ensures Continues(states, events, states', events', Dequeue(t, max), e => e == Draw(t) || e == Take(t))
    ensures var s := states[|events|];
            s.tickets.head <= s.tickets.tail
            && Dequeued(states'[|events'| - 1], states'[|events'|], s, t,
                        Tickets.Min(max, s.tickets.tail - s.tickets.head))
  {
    var s := states[|events|];
    RunKeepsInv(states, events, |events|);
    DequeueStarts(s, t, max);
    var n := Tickets.Min(max, s.tickets.tail - s.tickets.head);
    var ss, es := LoneDequeuing(Apply(s, Dequeue(t, max)), s, t, max, n);
    ExtendCall(states, events, Dequeue(t, max), ss, es);
    Appended(states, events, Dequeue(t, max), ss, es, e => e == Draw(t) || e == Take(t));
    states', events' := states + ss, events + ([Dequeue(t, max)] + es);
  }
}
