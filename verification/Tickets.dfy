/** Optimistic dequeue of ExplicitProducer in concurrentqueue.h: consumers take
    speculative tickets from dequeueOptimisticCount, return bad ones through
    dequeueOvercommit, and only then claim indices from headIndex. The single
    dequeue is the bulk one with max == 1. Counters are unbounded here; the
    module Words relates them to 64-bit arithmetic.

    `tickets`, `top` and `claims` are history: what became of each ticket, an
    upper bound of the passed ones, and which thread claimed each index. */
module Tickets {
  import opened Tally

  datatype Ticket = Undecided(t: nat) | Passed | Returned

  datatype Local =
    | Idle
    | GotTail(max: nat, tail: int)
    | GotOver(max: nat, tail: int, over: int)
    | Wants(over: int, desired: nat)
    | Ticketed(over: int, desired: nat, my: nat)
    | Surplus(actual: nat, back: nat, from: nat)
    | Claiming(actual: nat)
    | Failing(back: nat, from: nat)
    | Claimed(first: nat, count: nat)

  datatype State = State(
    tail: nat,
    head: nat,
    optimistic: nat,
    overcommit: nat,
    threads: seq<Local>,
    tickets: seq<Ticket>,
    top: nat,
    claims: seq<nat>)

  datatype Event =
    | Enqueue(count: nat)          // the producer publishes count more elements
    | Dequeue(t: nat, max: nat)    // call of dequeue (max == 1) or dequeue_bulk
    | Go(t: nat)

  function Min(a: int, b: int): int { if a < b then a else b }

  function Goto(s: State, t: nat, l: Local): State
    requires t < |s.threads|
  {
    s.(threads := s.threads[t := l])
  }

  /** Second check: how many of the tickets my .. my + desired are good, given
      the reloaded tail and the overcommit value read before they were drawn. */
  function Actual(tail: int, my: int, over: int, desired: nat): (r: nat)
    ensures r <= desired
    ensures r > 0 ==> my - over + r <= tail
  {
    var available := tail - (my - over);
    if available <= 0 then 0 else Min(desired, available)
  }

  function Decide(s: State, t: nat, over: int, desired: nat, my: nat): State
    requires t < |s.threads| && my + desired <= |s.tickets|
  {
    if s.tail - (my - over) <= 0 then
      Goto(s, t, Failing(desired, my))
    else
      var actual := Actual(s.tail, my, over, desired);
      Goto(s, t, if actual < desired then Surplus(actual, desired - actual, my + actual) else Claiming(actual))
      .(tickets := Overwrite(s.tickets, my, actual, Passed),
        top := if s.top < my + actual then my + actual else s.top)
  }

  function Step(s: State, t: nat): State
    requires t < |s.threads| && Own(s, s.threads[t])
  {
    match s.threads[t]
    case Idle => s
    case GotTail(max, tail) => Goto(s, t, GotOver(max, tail, s.overcommit))
    case GotOver(max, tail, over) =>
      var desired := tail - (s.optimistic - over);
      Goto(s, t, if desired > 0 then Wants(over, Min(desired, max)) else Idle)
    case Wants(over, desired) =>
      Goto(s, t, Ticketed(over, desired, s.optimistic))
      .(optimistic := s.optimistic + desired, tickets := s.tickets + Copies(desired, Undecided(t)))
    case Ticketed(over, desired, my) => Decide(s, t, over, desired, my)
    case Surplus(actual, back, from) =>
      Goto(s, t, Claiming(actual))
      .(overcommit := s.overcommit + back, tickets := Overwrite(s.tickets, from, back, Returned))
    case Claiming(actual) =>
      Goto(s, t, Claimed(s.head, actual))
      .(head := s.head + actual, claims := s.claims + Copies(actual, t))
    case Failing(back, from) =>
      Goto(s, t, Idle)
      .(overcommit := s.overcommit + back, tickets := Overwrite(s.tickets, from, back, Returned))
    case Claimed(_, _) => Goto(s, t, Idle)
  }

  /** The tickets a thread's local state speaks of exist. */
  predicate Own(s: State, l: Local)
  {
    match l
    case Ticketed(_, desired, my) => my + desired <= |s.tickets|
    case Surplus(_, back, from) => from + back <= |s.tickets|
    case Failing(back, from) => from + back <= |s.tickets|
    case _ => true
  }

  predicate Enabled(s: State, e: Event)
  {
    match e
    case Enqueue(_) => true
    case Dequeue(t, _) => t < |s.threads| && s.threads[t].Idle?
    case Go(t) => t < |s.threads| && !s.threads[t].Idle? && Own(s, s.threads[t])
  }

  function Apply(s: State, e: Event): State
    requires Enabled(s, e)
  {
    match e
    case Enqueue(count) => s.(tail := s.tail + count)
    case Dequeue(t, max) => Goto(s, t, GotTail(max, s.tail))
    case Go(t) => Step(s, t)
  }

  predicate Init(s: State)
  {
    && s.tail == s.head == s.optimistic == s.overcommit == s.top == 0
    && s.tickets == [] && s.claims == []
    && (forall t | 0 <= t < |s.threads| :: s.threads[t].Idle?)
  }

  ghost predicate Run(states: seq<State>, events: seq<Event>)
  {
    && |states| == |events| + 1
    && Init(states[0])
    && forall i | 0 <= i < |events| ::
         Enabled(states[i], events[i]) && states[i + 1] == Apply(states[i], events[i])
  }

  // ----- the invariant -----

  ghost function IsPassed(): Ticket -> int { (k: Ticket) => if k.Passed? then 1 else 0 }
  ghost function IsReturned(): Ticket -> int { (k: Ticket) => if k.Returned? then 1 else 0 }

  /** Indices a thread may still claim because its tickets passed. */
  ghost function Granted(): Local -> int
  {
    (l: Local) => if l.Surplus? then l.actual else if l.Claiming? then l.actual else 0
  }

  /** Tickets a thread has drawn and not yet turned into a claim or a return. */
  ghost function Outstanding(): Local -> int
  {
    (l: Local) => match l
      case Ticketed(_, desired, _) => desired
      case Surplus(actual, back, _) => actual + back
      case Claiming(actual) => actual
      case Failing(back, _) => back
      case _ => 0
  }

  ghost function ReturnedBelow(s: State, k: nat): int
    requires k <= |s.tickets|
  {
    Sum(IsReturned(), s.tickets[..k])
  }

  predicate Mine(s: State, t: nat, from: nat, n: nat)
  {
    from + n <= |s.tickets| && forall i | from <= i < from + n :: s.tickets[i] == Undecided(t)
  }

  ghost predicate LocalOk(s: State, t: nat, l: Local)
  {
    match l
    case Idle => true
    case GotTail(_, _) => true
    case GotOver(_, _, over) => over <= s.overcommit
    case Wants(over, _) => over <= s.overcommit
    case Ticketed(over, desired, my) =>
      my <= |s.tickets| && Mine(s, t, my, desired) && over <= ReturnedBelow(s, my)
    case Surplus(_, back, from) => Mine(s, t, from, back)
    case Claiming(_) => true
    case Failing(back, from) => Mine(s, t, from, back)
    case Claimed(first, count) =>
      first + count <= |s.claims| && forall i | first <= i < first + count :: s.claims[i] == t
  }

  ghost predicate Counted(s: State)
  {
    && |s.tickets| == s.optimistic
    && |s.claims| == s.head
    && Sum(IsReturned(), s.tickets) == s.overcommit
    && Sum(IsPassed(), s.tickets) == s.head + Sum(Granted(), s.threads)
    && s.optimistic == s.overcommit + s.head + Sum(Outstanding(), s.threads)
  }

  /** No ticket from `top` on has passed, and the tickets below it that were not
      returned are no more than the tail. */
  ghost predicate Bounded(s: State)
  {
    && s.top <= |s.tickets|
    && (forall i | s.top <= i < |s.tickets| :: !s.tickets[i].Passed?)
    && s.top - ReturnedBelow(s, s.top) <= s.tail
  }

  ghost predicate Inv(s: State)
  {
    && Counted(s)
    && Bounded(s)
    && (forall t: nat | t < |s.threads| :: LocalOk(s, t, s.threads[t]))
  }

  lemma MoveSums(ts: seq<Local>, t: nat, l: Local)
    requires t < |ts|
    ensures Sum(Granted(), ts[t := l]) == Sum(Granted(), ts) - Granted()(ts[t]) + Granted()(l)
    ensures Sum(Outstanding(), ts[t := l]) == Sum(Outstanding(), ts) - Outstanding()(ts[t]) + Outstanding()(l)
  {
    SumUpdate(Granted(), ts, t, l);
    SumUpdate(Outstanding(), ts, t, l);
  }

  /** Marking tickets never lowers the number of returned ones below a point. */
  lemma ReturnsGrow(s: State, s': State, k: nat)
    requires k <= |s.tickets| <= |s'.tickets|
    requires forall i | 0 <= i < |s.tickets| :: s.tickets[i].Returned? ==> s'.tickets[i].Returned?
    ensures ReturnedBelow(s, k) <= ReturnedBelow(s', k)
  {
    SumPointwise(IsReturned(), s.tickets[..k], s'.tickets[..k]);
  }

  /** Threads other than t keep what they know when only t's tickets change. */
  lemma OthersOk(s: State, s': State, t: nat)
    requires t < |s.threads| && |s'.threads| == |s.threads| && s'.threads == s.threads[t := s'.threads[t]]
    requires forall u: nat | u < |s.threads| :: LocalOk(s, u, s.threads[u])
    requires LocalOk(s', t, s'.threads[t])
    requires s.overcommit <= s'.overcommit && s.claims <= s'.claims && |s.tickets| <= |s'.tickets|
    requires forall i | 0 <= i < |s.tickets| :: s.tickets[i] == Undecided(t) || s'.tickets[i] == s.tickets[i]
    ensures forall u: nat | u < |s'.threads| :: LocalOk(s', u, s'.threads[u])
  {
    forall u: nat | u < |s'.threads| ensures LocalOk(s', u, s'.threads[u]) {
      if u != t {
        assert LocalOk(s, u, s.threads[u]);
        if s.threads[u].Ticketed? { ReturnsGrow(s, s', s.threads[u].my); }
      }
    }
  }

  lemma KeepWants(s: State, t: nat)
    requires Inv(s) && t < |s.threads| && s.threads[t].Wants?
    ensures Inv(Step(s, t))
  {
    var s' := Step(s, t);
    var desired := s.threads[t].desired;
    assert LocalOk(s, t, s.threads[t]);
    MoveSums(s.threads, t, s'.threads[t]);
    var more := Copies(desired, Undecided(t));
    SumConcat(IsReturned(), s.tickets, more);
    SumConcat(IsPassed(), s.tickets, more);
    SumZero(IsReturned(), more);
    SumZero(IsPassed(), more);
    assert s'.tickets[..s.optimistic] == s.tickets;
    assert s'.tickets[..s.top] == s.tickets[..s.top];
    OthersOk(s, s', t);
  }

  /** The effect of marking a thread's own tickets on the two ticket counts. */
  lemma MarkSums(s: State, t: nat, from: nat, n: nat, k: Ticket)
    requires Mine(s, t, from, n)
    requires k.Passed? || k.Returned?
    ensures var marked := Overwrite(s.tickets, from, n, k);
            && Sum(IsReturned(), marked) == Sum(IsReturned(), s.tickets) + (if k.Returned? then n else 0)
            && Sum(IsPassed(), marked) == Sum(IsPassed(), s.tickets) + (if k.Passed? then n else 0)
  {
    var marked := Overwrite(s.tickets, from, n, k);
    if k.Passed? {
      SumOverwrite(IsPassed(), s.tickets, from, n, k);
      SumPointwise(IsReturned(), s.tickets, marked);
      SumPointwise(IsReturned(), marked, s.tickets);
    } else {
      SumOverwrite(IsReturned(), s.tickets, from, n, k);
      SumPointwise(IsPassed(), s.tickets, marked);
      SumPointwise(IsPassed(), marked, s.tickets);
    }
  }

  lemma KeepDecide(s: State, t: nat)
    requires Inv(s) && t < |s.threads| && s.threads[t].Ticketed?
    ensures Own(s, s.threads[t]) && Inv(Step(s, t))
  {
    assert LocalOk(s, t, s.threads[t]);
    var s' := Step(s, t);
    if s.tail - (s.threads[t].my - s.threads[t].over) > 0 {
      DecideCounted(s, t);
      DecideBounded(s, t);
    } else {
      MoveSums(s.threads, t, s'.threads[t]);
    }
    OthersOk(s, s', t);
  }

  lemma DecideCounted(s: State, t: nat)
    requires Inv(s) && t < |s.threads| && s.threads[t].Ticketed? && Own(s, s.threads[t])
    requires s.tail - (s.threads[t].my - s.threads[t].over) > 0
    ensures Counted(Step(s, t))
  {
    var Ticketed(over, desired, my) := s.threads[t];
    assert LocalOk(s, t, s.threads[t]);
    MoveSums(s.threads, t, Step(s, t).threads[t]);
    MarkSums(s, t, my, Actual(s.tail, my, over, desired), Passed);
  }

  /** The crux: if the passing tickets are the highest so far, then all earlier
      passed tickets lie below them, at least `over` of those below were
      returned, and the second check bounds the rest by the tail. */
  lemma DecideBounded(s: State, t: nat)
    requires Inv(s) && t < |s.threads| && s.threads[t].Ticketed? && Own(s, s.threads[t])
    requires s.tail - (s.threads[t].my - s.threads[t].over) > 0
    ensures Bounded(Step(s, t))
  {
    var Ticketed(over, desired, my) := s.threads[t];
    assert LocalOk(s, t, s.threads[t]);
    var s' := Step(s, t);
    ReturnsGrow(s, s', s'.top);
    if s'.top != s.top { PrefixGrows(s, my, s'.top); }
  }

  lemma PrefixGrows(s: State, j: nat, k: nat)
    requires j <= k <= |s.tickets|
    ensures ReturnedBelow(s, j) <= ReturnedBelow(s, k)
  {
    assert s.tickets[..k] == s.tickets[..j] + s.tickets[j..k];
    SumConcat(IsReturned(), s.tickets[..j], s.tickets[j..k]);
    SumNonNegative(IsReturned(), s.tickets[j..k]);
  }

  lemma KeepReturn(s: State, t: nat)
    requires Inv(s) && t < |s.threads| && (s.threads[t].Surplus? || s.threads[t].Failing?)
    ensures Own(s, s.threads[t]) && Inv(Step(s, t))
  {
    var l := s.threads[t];
    assert LocalOk(s, t, l);
    var s' := Step(s, t);
    MoveSums(s.threads, t, s'.threads[t]);
    MarkSums(s, t, l.from, l.back, Returned);
    ReturnsGrow(s, s', s.top);
    assert Counted(s');
    OthersOk(s, s', t);
  }

  lemma StepKeepsInv(s: State, e: Event)
    requires Inv(s) && Enabled(s, e)
    ensures Inv(Apply(s, e))
  {
    var s' := Apply(s, e);
    match e
    case Enqueue(_) =>
      forall u: nat | u < |s'.threads| ensures LocalOk(s', u, s'.threads[u]) {
        assert LocalOk(s, u, s.threads[u]);
      }
    case Dequeue(t, _) =>
      MoveSums(s.threads, t, s'.threads[t]);
      OthersOk(s, s', t);
    case Go(t) =>
      assert LocalOk(s, t, s.threads[t]);
      if s.threads[t].Wants? {
        KeepWants(s, t);
      } else if s.threads[t].Ticketed? {
        KeepDecide(s, t);
      } else if s.threads[t].Surplus? || s.threads[t].Failing? {
        KeepReturn(s, t);
      } else {
        MoveSums(s.threads, t, s'.threads[t]);
        OthersOk(s, s', t);
      }
  }

  lemma {:induction false} IdleSums(ts: seq<Local>)
    requires forall t | 0 <= t < |ts| :: ts[t].Idle?
    ensures Sum(Granted(), ts) == Sum(Outstanding(), ts) == 0
  {
    SumZero(Granted(), ts);
    SumZero(Outstanding(), ts);
  }

  lemma {:induction false} RunKeepsInv(states: seq<State>, events: seq<Event>, i: nat)
    requires Run(states, events) && i < |states|
    ensures Inv(states[i])
  {
    if i == 0 {
      IdleSums(states[0].threads);
    } else {
      RunKeepsInv(states, events, i - 1);
      StepKeepsInv(states[i - 1], events[i - 1]);
    }
  }

  // ----- what holds over every run -----

  lemma GrantedFit(s: State)
    requires Inv(s)
    ensures s.head + Sum(Granted(), s.threads) <= s.tail && s.head <= s.tail
  {
    var low, high := s.tickets[..s.top], s.tickets[s.top..];
    assert s.tickets == low + high;
    SumConcat(IsPassed(), low, high);
    SumZero(IsPassed(), high);
    PassedOrReturned(low);
    SumNonNegative(Granted(), s.threads);
  }

  /** The indices already claimed together with those that passed tickets still
      entitle to never exceed the tail. */
  lemma ClaimsFit(states: seq<State>, events: seq<Event>, i: nat)
    requires Run(states, events) && i < |states|
    ensures states[i].head + Sum(Granted(), states[i].threads) <= states[i].tail
    ensures states[i].head <= states[i].tail
  {
    RunKeepsInv(states, events, i);
    GrantedFit(states[i]);
  }

  lemma {:induction false} PassedOrReturned(ks: seq<Ticket>)
    ensures Sum(IsPassed(), ks) + Sum(IsReturned(), ks) <= |ks|
  {
    if |ks| > 0 { PassedOrReturned(ks[..|ks| - 1]); }
  }

  lemma Covered(s: State, t: nat)
    requires Inv(s) && t < |s.threads| && s.threads[t].Claiming?
    ensures s.head + s.threads[t].actual <= s.tail
  {
    GrantedFit(s);
    SumAtLeast(Granted(), s.threads, t);
  }

  /** A thread at its claim finds that many elements from the head on. */
  lemma ClaimIsCovered(states: seq<State>, events: seq<Event>, i: nat, t: nat)
    requires Run(states, events) && i < |states| && t < |states[i].threads|
    requires states[i].threads[t].Claiming?
    ensures states[i].head + states[i].threads[t].actual <= states[i].tail
  {
    RunKeepsInv(states, events, i);
    Covered(states[i], t);
  }

  /** Step e of state s is the one that claims index x from the head. */
  predicate Claims(s: State, e: Event, x: nat)
  {
    && e.Go? && e.t < |s.threads| && s.threads[e.t].Claiming?
    && s.head <= x < s.head + s.threads[e.t].actual
  }

  /** Every index below the head has a claimer ... */
  lemma {:induction false} EveryIndexIsClaimed(states: seq<State>, events: seq<Event>, i: nat, x: nat) returns (k: nat)
    requires Run(states, events) && i < |states| && x < states[i].head
    ensures k < i && Claims(states[k], events[k], x)
  {
    if x < states[i - 1].head {
      k := EveryIndexIsClaimed(states, events, i - 1, x);
    } else {
      k := i - 1;
    }
  }

  lemma {:induction false} HeadGrows(states: seq<State>, events: seq<Event>, i: nat, j: nat)
    requires Run(states, events) && i <= j < |states|
    ensures states[i].head <= states[j].head
  {
    if i < j { HeadGrows(states, events, i, j - 1); }
  }

  /** ... and only one: two claims of an index are the same step of the run. The
      claimed index was enqueued before. */
  lemma ClaimedOnce(states: seq<State>, events: seq<Event>, j: nat, k: nat, x: nat)
    requires Run(states, events) && j < |events| && k < |events|
    requires Claims(states[j], events[j], x) && Claims(states[k], events[k], x)
    ensures j == k && x < states[j].tail
  {
    if j < k {
      HeadGrows(states, events, j + 1, k);
    } else if k < j {
      HeadGrows(states, events, k + 1, j);
    }
    ClaimIsCovered(states, events, j, events[j].t);
  }

  /** The range a thread holds after its claim is still its own. */
  lemma HoldersAreApart(states: seq<State>, events: seq<Event>, i: nat, t: nat, u: nat, x: nat)
    requires Run(states, events) && i < |states|
    requires t < |states[i].threads| && u < |states[i].threads|
    requires states[i].threads[t].Claimed? && states[i].threads[u].Claimed?
    requires states[i].threads[t].first <= x < states[i].threads[t].first + states[i].threads[t].count
    requires states[i].threads[u].first <= x < states[i].threads[u].first + states[i].threads[u].count
    ensures t == u && x < states[i].head == |states[i].claims| && states[i].claims[x] == t
  {
    RunKeepsInv(states, events, i);
    assert LocalOk(states[i], t, states[i].threads[t]);
    assert LocalOk(states[i], u, states[i].threads[u]);
    assert states[i].claims[x] == t;
  }

  /** The overcommit a thread uses never exceeds its ticket number. */
  lemma OvercommitBehindTicket(states: seq<State>, events: seq<Event>, i: nat, t: nat)
    requires Run(states, events) && i < |states| && t < |states[i].threads|
    requires states[i].threads[t].Ticketed?
    ensures states[i].threads[t].over <= states[i].threads[t].my
  {
    RunKeepsInv(states, events, i);
    var s := states[i];
    assert LocalOk(s, t, s.threads[t]);
    var below := s.tickets[..s.threads[t].my];
    PassedOrReturned(below);
    SumNonNegative(IsPassed(), below);
  }

  /** With no dequeue in flight the two counters differ by exactly the head. */
  lemma QuietCounters(states: seq<State>, events: seq<Event>, i: nat)
    requires Run(states, events) && i < |states|
    requires forall t | 0 <= t < |states[i].threads| :: states[i].threads[t].Idle?
    ensures states[i].optimistic - states[i].overcommit == states[i].head
  {
    RunKeepsInv(states, events, i);
    IdleSums(states[i].threads);
  }

  /** A dequeue that runs alone takes as many elements as there are, up to max:
      it fails only on an empty queue. */
  lemma AloneTakesAll(states: seq<State>, events: seq<Event>, i: nat, t: nat, max: nat)
    requires Run(states, events) && i < |states| && t < |states[i].threads|
    requires forall u | 0 <= u < |states[i].threads| :: states[i].threads[u].Idle?
    ensures var s := states[i];
            var s3 := Step(Step(Apply(s, Dequeue(t, max)), t), t);
            s.head <= s.tail &&
            if s.tail == s.head then s3 == s
            else
              var s4 := Step(s3, t);
              Own(s4, s4.threads[t]) &&
              var s6 := Step(Step(s4, t), t);
              s6.threads[t] == Claimed(s.head, Min(max, s.tail - s.head))
              && s6.optimistic - s6.overcommit == s6.head == s.head + Min(max, s.tail - s.head)
  {
    QuietCounters(states, events, i);
    ClaimsFit(states, events, i);
    var s := states[i];
    RunKeepsInv(states, events, i);
    var s3 := Step(Step(Apply(s, Dequeue(t, max)), t), t);
    if s.tail == s.head {
      assert s3.threads == s.threads;
    } else {
      var s4 := Step(s3, t);
      assert s4.threads[t] == Ticketed(s.overcommit, Min(max, s.tail - s.head), s.optimistic);
    }
  }
}
