/** What the calls of BlockRing achieve: an enqueue stores its value, and a dequeue
    comes to an end with all its slots marked. */
module BlockRingCalls {
  import opened BlockMath
  import opened BlockRing
  import opened BlockRingConsumer
  import opened BlockRingRuns
  import opened Runs

  ghost function Leads<T>(): (State<T>, Event<T>, State<T>) -> bool
  {
    (s: State<T>, e: Event<T>, s': State<T>) => Enabled(s, e) && s' == Apply(s, e)
  }

  function After<T>(s: State<T>, e: Event<T>): State<T> { if Enabled(s, e) then Apply(s, e) else s }

  lemma Extend<T>(states: seq<State<T>>, events: seq<Event<T>>, more: seq<State<T>>, es: seq<Event<T>>)
    requires Run(states, events) && Path(Leads(), more, es) && more[0] == states[|events|]
    ensures Run(states + more[1..], events + es)
  {
    var s, g := states + more[1..], events + es;
    forall i | 0 <= i < |g| ensures Enabled(s[i], g[i]) && s[i + 1] == Apply(s[i], g[i]) {
      if i >= |events| {
        assert Leads()(more[i - |events|], es[i - |events|], more[i - |events| + 1]);
        assert s[i] == more[i - |events|] && g[i] == es[i - |events|];
      }
    }
  }

  /** Inv(s), behind a guard that Open lifts. */
  ghost predicate Sound<T>(s: State<T>)
  {
    forall k: nat {:trigger Asked(k)} | Asked(k) :: Inv(s)
  }

  lemma Open<T>(s: State<T>)
    requires Sound(s)
    ensures Inv(s)
  {
    assert Asked(0);
  }

  // ----- an enqueue that runs alone -----

  /** The producer's next step, every allocation succeeding. */
  function Own<T>(s: State<T>): Event<T>
  {
    match s.producer
    case EIndex(_) => NewIndex(seq(s.indexSize + s.indexSize, i => Entry(0, 0)))
    case ENew(x) => NewBlock(Block(0, seq(s.size, i => x), []))
    case _ => Produce
  }

  function ProducerRank<T>(s: State<T>): nat
  {
    match s.producer
    case EIdle => 0
    case EPublish(_) => 0
    case EWrite(_) => 1
    case EFront(_) => 2
    case EEntry(_) => 3
    case EReset(_) => 4
    case ENew(_) => 4
    case EIndex(_) => 5
    case EGrow(_) => 6
    case ECheck(_, i) => if i <= s.size then 7 + (s.size - i) else 0
  }

  lemma OwnIsEnabled<T>(s: State<T>)
    requires Inv(s) && !s.producer.EIdle?
    ensures Enabled(s, Own(s))
  {
    if |s.headers| > 0 { IndexIsReady(s); }
    if !s.producer.EIndex? && !s.producer.ENew? {
      ProducerIsReady(s);
    } else if s.tailBlock.At? {
      assert s.ring[|s.ring| - 1] < |s.blocks|;
    }
  }

  /** What an own step of the producer changes. */
  lemma OwnStep<T>(s: State<T>)
    requires Enabled(s, Own(s)) && s.head <= s.tail && s.size > 0 && !s.producer.EIdle?
    requires s.producer.ECheck? ==> s.producer.i <= s.size
    ensures var s' := Apply(s, Own(s));
            && s'.head == s.head && s'.consumers == s.consumers && s'.size == s.size && s'.done == s.done
            && if s.producer.EPublish?
               then s'.producer == EIdle && s'.tail == s.tail + 1 && s'.log == s.log + [s.producer.x]
               else !s'.producer.EIdle? && s'.producer.x == s.producer.x && s'.tail == s.tail && s'.log == s.log
                    && ProducerRank(s') < ProducerRank(s)
  {}

  /** Every index of the oldest block, and of those before, is marked. */
  ghost predicate OldestDrained<T>(s: State<T>)
  {
    s.lo < |s.blocksOf| && forall i: nat | i < Start(s.size, s.lo + 1) :: i in s.done
  }

  lemma CheckFindsDrained<T>(s: State<T>)
    requires Inv(s) && s.producer.ECheck? && s.producer.i < s.size && OldestDrained(s) && ProducerReady(s)
    ensures s.blocks[Next(s)].empty[s.producer.i]
  {
    NextIsOldest(s);
    var o: nat := s.size - 1 - s.producer.i;
    assert FlagOk(s.blocks, s.size, s.blocksOf, s.done, s.lo, o);
  }

  /** On the way to reusing the oldest block. */
  ghost predicate Reusing<T>(s: State<T>, blocks: nat)
  {
    && |s.blocks| == blocks && !s.producer.EGrow? && !s.producer.EIndex? && !s.producer.ENew?
    && (s.producer.ECheck? ==> OldestDrained(s))
  }

  lemma ReusingStep<T>(s: State<T>, blocks: nat)
    requires Inv(s) && Enabled(s, Own(s)) && !s.producer.EIdle? && Reusing(s, blocks)
    ensures Reusing(Apply(s, Own(s)), blocks)
  {
    if s.producer.ECheck? && s.producer.i < s.size { CheckFindsDrained(s); }
  }

  /** In the middle of an enqueue of x that started with the given log. */
  ghost predicate Enqueuing<T>(s: State<T>, s0: State<T>, x: T, reuse: bool)
  {
    && Sound(s) && !s.producer.EIdle? && s.producer.x == x && s.tail == s0.tail && s.log == s0.log
    && s.head == s0.head && s.consumers == s0.consumers && s.done == s0.done
    && (reuse ==> Reusing(s, |s0.blocks|))
  }

  ghost predicate Enqueued<T>(s: State<T>, s0: State<T>, x: T, reuse: bool)
  {
    && s.producer.EIdle? && s.tail == s0.tail + 1 && s.log == s0.log + [x]
    && s.head == s0.head && s.consumers == s0.consumers && (reuse ==> |s.blocks| == |s0.blocks|)
  }

  lemma EnqueuingGoesOn<T>(s: State<T>, s0: State<T>, x: T, reuse: bool)
    requires Enqueuing(s, s0, x, reuse)
    ensures Enabled(s, Own(s))
    ensures var s' := Apply(s, Own(s));
            Enqueued(s', s0, x, reuse) || (Enqueuing(s', s0, x, reuse) && ProducerRank(s') < ProducerRank(s))
  {
    Open(s);
    OwnIsEnabled(s);
    StepKeepsInv(s, Own(s));
    OwnStep(s);
    if reuse { ReusingStep(s, |s0.blocks|); }
  }

  lemma {:induction false} LoneEnqueuing<T>(s: State<T>, s0: State<T>, x: T, reuse: bool)
    returns (states: seq<State<T>>, events: seq<Event<T>>)
    requires Enqueuing(s, s0, x, reuse)
    ensures Path(Leads(), states, events) && 0 < |events| && states[0] == s
    ensures forall i | 0 <= i < |events| :: events[i] == Own(states[i])
    ensures Enqueued(states[|events|], s0, x, reuse)
    decreases ProducerRank(s)
  {
    EnqueuingGoesOn(s, s0, x, reuse);
    var s' := Apply(s, Own(s));
    if Enqueued(s', s0, x, reuse) {
      states, events := [s, s'], [Own(s)];
    } else {
      var ss, es := LoneEnqueuing(s', s0, x, reuse);
      states, events := [s] + ss, [Own(s)] + es;
    }
  }

  lemma EnqueueStarts<T>(s: State<T>, x: T)
    requires Inv(s) && s.producer.EIdle?
    ensures Enabled(s, Enqueue(x)) && Enqueuing(Apply(s, Enqueue(x)), s, x, OldestDrained(s))
  {
    StepKeepsInv(s, Enqueue(x));
    if OldestDrained(s) { OldestIsThere(s); }
  }

  /** A step of the producer's own, memory being there. */
  predicate Produces<T>(e: Event<T>) { e.Produce? || e.NewIndex? || e.NewBlock? }

  /** An enqueue with memory, whatever the consumers are at, stores its value behind
      the others and publishes it; it takes no new block if the oldest one is
      drained. */
  lemma LoneEnqueue<T>(states: seq<State<T>>, events: seq<Event<T>>, x: T)
    returns (states': seq<State<T>>, events': seq<Event<T>>)
    requires Run(states, events) && states[|events|].producer.EIdle?
    ensures Run(states', events') && Continues(states, events, states', events', Enqueue(x), e => Produces(e))
    ensures var s, s' := states[|events|], states'[|events'|];
            && s'.producer.EIdle? && s'.tail == s.tail + 1 && s'.log == s.log + [x]
            && s'.head == s.head && s'.consumers == s.consumers
            && (OldestDrained(s) ==> |s'.blocks| == |s.blocks|)
  {
    var s := states[|events|];
    RunKeepsInv(states, events, |events|);
    EnqueueStarts(s, x);
    var s1 := Apply(s, Enqueue(x));
    var ss, es := LoneEnqueuing(s1, s, x, OldestDrained(s));
    var more, fs := [s, s1], [Enqueue(x)];
    assert Path(Leads(), more, fs);
    Join(Leads(), more, fs, ss, es);
    Extend(states, events, more + ss[1..], fs + es);
    states', events' := states + (more + ss[1..])[1..], events + (fs + es);
    assert states'[|events'|] == ss[|es|];
  }

  lemma OldestIsThere<T>(s: State<T>)
    requires Inv(s) && s.lo < |s.blocksOf|
    ensures s.tailBlock.At?
  {
    assert s.blocksOf[s.lo] == s.ring[0];
  }

  // ----- how a call ends -----

  /** An enqueue comes back without having published only when memory runs out. */
  lemma EndsByPublishing<T>(states: seq<State<T>>, events: seq<Event<T>>, j: nat)
    requires Run(states, events) && j < |events|
    requires !states[j].producer.EIdle? && states[j + 1].producer.EIdle?
    ensures events[j].OutOfMemory? || states[j + 1].tail == states[j].tail + 1
  {
    RunKeepsInv(states, events, j);
  }

  /** The argument of the latest call of enqueue before event i, if any. */
  ghost function LatestCall<T>(events: seq<Event<T>>, i: nat): seq<T>
    requires i <= |events|
  {
    if i == 0 then [] else if events[i - 1].Enqueue? then [events[i - 1].x] else LatestCall(events, i - 1)
  }

  /** The arguments of the calls that published, in order. */
  ghost function Published<T>(states: seq<State<T>>, events: seq<Event<T>>, i: nat): seq<T>
    requires i < |states| == |events| + 1
  {
    if i == 0 then []
    else if states[i].tail > states[i - 1].tail then Published(states, events, i - 1) + LatestCall(events, i - 1)
    else Published(states, events, i - 1)
  }

  lemma StepLogs<T>(s: State<T>, e: Event<T>)
    requires Enabled(s, e)
    ensures var s' := Apply(s, e);
            && (if s'.tail > s.tail then !s.producer.EIdle? && s'.log == s.log + [s.producer.x] else s'.log == s.log)
            && (!s'.producer.EIdle? ==> if e.Enqueue? then s'.producer.x == e.x
                                        else !s.producer.EIdle? && s'.producer.x == s.producer.x)
            && (e.Enqueue? ==> s'.tail == s.tail)
  {}

  /** The log is what these calls were given. */
  lemma {:induction false} LogIsPublished<T>(states: seq<State<T>>, events: seq<Event<T>>, i: nat)
    requires Run(states, events) && i < |states|
    ensures states[i].log == Published(states, events, i)
    ensures !states[i].producer.EIdle? ==> LatestCall(events, i) == [states[i].producer.x]
  {
    if i > 0 {
      LogIsPublished(states, events, i - 1);
      StepLogs(states[i - 1], events[i - 1]);
    }
  }

  /** A block is added to the ring only while some index of the oldest one is not
      marked, or there is none. */
  lemma GrowsOnlyUndrained<T>(states: seq<State<T>>, events: seq<Event<T>>, j: nat)
    requires Run(states, events) && j < |events| && states[j].producer.ECheck? && states[j + 1].producer.EGrow?
    ensures !OldestDrained(states[j])
  {
    RunKeepsInv(states, events, j);
    var s := states[j];
    if OldestDrained(s) && s.producer.i < s.size && ProducerReady(s) { CheckFindsDrained(s); }
  }

  // ----- a dequeue comes to an end -----

  function Fivefold(d: int): int { d + d + d + d + d }

  /** How many steps a consumer is away from its end, at most. */
  function ConsumerRank<T>(l: Consumer<T>): int
  {
    match l
    case CIdle => 0
    case CHeader(c) => Fivefold(c.end - c.first) + 5
    case CFront(c, _) => Fivefold(c.end - c.first) + 4
    case CBase(c, _) => Fivefold(c.end - c.first) + 3
    case CBlock(c, _, _, cur, _) => Fivefold(c.end - cur) + 2
    case CRead(c, _, _, _, from, cur, stop, _) =>
      Fivefold(c.end - stop) + 4 + (stop - from) + (stop - cur)
    case CMark(c, _, _, _, from, j, stop, _) => Fivefold(c.end - stop) + 3 + (j - from)
    case CDone(_, _) => 1
  }

  /** Every step of a consumer brings it closer to its end; a claim of n takes at most
      five steps for each index and five more. */
  lemma ConsumerDescends<T>(s: State<T>, l: Consumer<T>)
    requires Inv(s) && LocalOk(s, l) && !l.CIdle?
    ensures ConsumerReady(s, l) && 0 <= ConsumerRank(NextLocal(s, l)) < ConsumerRank(l)
    ensures ConsumerRank(l) <= Fivefold(l.c.end - l.c.first) + 5
  {
    ConsumerIsReady(s, l);
    RankDescends(s, l);
  }

  lemma RankDescends<T>(s: State<T>, l: Consumer<T>)
    requires s.size > 0 && LocalOk(s, l) && ConsumerReady(s, l) && !l.CIdle?
    ensures 0 <= ConsumerRank(NextLocal(s, l)) < ConsumerRank(l) <= Fivefold(l.c.end - l.c.first) + 5
  {
    if l.CBlock? { BlockEndInside(s.size, l.cur, l.c.end); }
    if l.CRead? || l.CMark? { BlockEndInside(s.size, l.from, l.c.end); }
  }

  // ----- every claimed index is marked -----

  /** The claimed indices that a consumer is done with are marked. */
  ghost predicate MarksMade<T>(done: set<nat>, l: Consumer<T>)
  {
    !l.CIdle? ==> forall i: nat | l.c.first <= i < l.c.end && (i < From(l) || Marked(l, i)) :: i in done
  }

  /** A claimed index is marked, or some consumer still needs it. */
  ghost predicate NeededBy<T>(s: State<T>, i: nat, t: nat)
  {
    t < |s.consumers| && From(s.consumers[t]) <= i < To(s.consumers[t]) && !Marked(s.consumers[t], i)
  }

  ghost predicate AllMade<T>(s: State<T>)
  {
    && (forall t: nat | t < |s.consumers| :: MarksMade(s.done, s.consumers[t]))
    && (forall i: nat | i < s.head && i !in s.done :: exists t: nat :: NeededBy(s, i, t))
  }

  /** One consumer's step: what it no longer needs is marked. */
  lemma LocalMade<T>(s: State<T>, t: nat)
    requires s.size > 0 && t < |s.consumers| && LocalOk(s, s.consumers[t]) && ConsumerReady(s, s.consumers[t])
    requires MarksMade(s.done, s.consumers[t]) && !s.consumers[t].CIdle?
    ensures var s', l := ConsumeStep(s, t), s.consumers[t];
            && s.done <= s'.done && s'.head == s.head && s'.consumers == s.consumers[t := s'.consumers[t]]
            && MarksMade(s'.done, s'.consumers[t])
            && forall i: nat | From(l) <= i < To(l) && !Marked(l, i) && i !in s'.done :: NeededBy(s', i, t)
  {
    var l := s.consumers[t];
    if l.CBlock? { BlockEndInside(s.size, l.cur, l.c.end); }
    if l.CRead? || l.CMark? { BlockEndInside(s.size, l.from, l.c.end); }
  }

  lemma ConsumeMade<T>(s: State<T>, t: nat)
    requires s.size > 0 && t < |s.consumers| && LocalOk(s, s.consumers[t]) && ConsumerReady(s, s.consumers[t])
    requires AllMade(s) && !s.consumers[t].CIdle?
    ensures AllMade(ConsumeStep(s, t))
  {
    var s' := ConsumeStep(s, t);
    LocalMade(s, t);
    forall i: nat | i < s'.head && i !in s'.done ensures exists u: nat :: NeededBy(s', i, u) {
      var u: nat :| NeededBy(s, i, u);
      assert NeededBy(s', i, u);
    }
  }

  lemma ClaimMade<T>(s: State<T>, t: nat, n: nat)
    requires AllMade(s) && CanClaim(s, t, n)
    ensures AllMade(Apply(s, TakeClaim(t, n)))
  {
    var s' := Apply(s, TakeClaim(t, n));
    forall i: nat | i < s'.head && i !in s'.done ensures exists u: nat :: NeededBy(s', i, u) {
      if i < s.head {
        var u: nat :| NeededBy(s, i, u);
        assert NeededBy(s', i, u);
      } else {
        assert NeededBy(s', i, t);
      }
    }
  }

  lemma ProducerMade<T>(s: State<T>, e: Event<T>)
    requires AllMade(s) && Enabled(s, e) && !e.TakeClaim? && !e.Consume?
    ensures AllMade(Apply(s, e))
  {
    var s' := Apply(s, e);
    assert s'.consumers == s.consumers && s'.head == s.head && s'.done == s.done;
    forall i: nat | i < s'.head && i !in s'.done ensures exists u: nat :: NeededBy(s', i, u) {
      var u: nat :| NeededBy(s, i, u);
      assert NeededBy(s', i, u);
    }
  }

  lemma {:induction false} RunMade<T>(states: seq<State<T>>, events: seq<Event<T>>, i: nat)
    requires Run(states, events) && i < |states|
    ensures AllMade(states[i])
  {
    if i > 0 {
      RunMade(states, events, i - 1);
      RunKeepsInv(states, events, i - 1);
      StepMade(states[i - 1], events[i - 1]);
    }
  }

  lemma StepMade<T>(s: State<T>, e: Event<T>)
    requires AllMade(s) && Inv(s) && Enabled(s, e)
    ensures AllMade(Apply(s, e))
  {
    match e
    case TakeClaim(t, n) => ClaimMade(s, t, n);
    case Consume(t) =>
      assert LocalOk(s, s.consumers[t]);
      ConsumeMade(s, t);
    case _ => ProducerMade(s, e);
  }

  /** A finished dequeue has marked every index it claimed. */
  lemma FinishedHasMarked<T>(states: seq<State<T>>, events: seq<Event<T>>, i: nat, t: nat, x: nat)
    requires Run(states, events) && i < |states| && t < |states[i].consumers| && states[i].consumers[t].CDone?
    requires states[i].consumers[t].c.first <= x < states[i].consumers[t].c.end
    ensures x in states[i].done
  {
    RunMade(states, events, i);
    assert MarksMade(states[i].done, states[i].consumers[t]);
  }

  /** With no dequeue running every claimed index is marked; so once the oldest block
      was claimed whole, the next enqueue that needs a block reuses it. */
  lemma QuietIsMarked<T>(states: seq<State<T>>, events: seq<Event<T>>, i: nat)
    requires Run(states, events) && i < |states|
    requires forall t | 0 <= t < |states[i].consumers| :: states[i].consumers[t].CIdle?
    ensures forall x: nat :: x in states[i].done <==> x < states[i].head
    ensures var s := states[i]; s.lo < |s.blocksOf| && Start(s.size, s.lo + 1) <= s.head ==> OldestDrained(s)
  {
    RunMade(states, events, i);
    RunKeepsInv(states, events, i);
    var s := states[i];
    forall x: nat | x < s.head ensures x in s.done {
      assert forall t: nat :: !NeededBy(s, x, t);
    }
  }
}
