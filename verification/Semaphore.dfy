/** LightweightSemaphore of lightweightsemaphore.h: a signed count changed by
    atomic operations in front of a kernel semaphore that sleepers wait on.
    Every step is one atomic access or one kernel operation of one thread.

    `initial`, `signalled` and `granted` are history. The single-permit calls
    wait and tryWait are the many-permit ones with max == 1. */
module Semaphore {
  import opened Tally
  import opened Runs

  datatype Local =
    | Idle
    | Try(max: nat, spinAfter: bool)                  // tryWaitMany, about to load
    | TryCas(seen: int, max: nat, spinAfter: bool)     // tryWaitMany, about to swap
    | Spin(left: nat, max: nat)                       // waitMany..., about to load
    | SpinCas(left: nat, seen: int, max: nat)
    | Sub(max: nat)                                   // about to fetch_sub
    | Kernel(max: nat)                                // waiting on the kernel semaphore
    | Adjust(max: nat)                                // timed out, about to load
    | AdjustTry(max: nat)                             // saw a count >= 0
    | AdjustCas(seen: int, max: nat)                   // saw a count < 0
    | Post(owed: nat)                                 // signal, posts still to make

  datatype State = State(
    count: int,
    permits: nat,
    threads: seq<Local>,
    initial: nat,
    signalled: nat,
    granted: nat)

  datatype Event =
    | TryWait(t: nat, max: nat)
    | Wait(t: nat, max: nat)
    | Signal(t: nat, n: nat)
    | Go(t: nat)
    | Fail(t: nat)     // a weak swap fails spuriously, or a kernel wait gives up

  function Goto(s: State, t: nat, l: Local): State
    requires t < |s.threads|
  {
    s.(threads := s.threads[t := l])
  }

  function Grant(s: State, n: nat): State { s.(granted := s.granted + n) }

  function Left(seen: int, max: nat): int { if seen > max then seen - max else 0 }

  /** tryWaitMany after it saw `seen`, with nothing acquired yet. */
  function Saw(seen: int, max: nat, spinAfter: bool, spins: nat): Local
  {
    if seen > 0 then TryCas(seen, max, spinAfter)
    else if spinAfter && max > 0 then Spin(spins, max)
    else Idle
  }

  /** One permit in hand: waitMany goes on greedily with tryWaitMany(max - 1). */
  function GotOne(s: State, t: nat, max: nat): State
    requires t < |s.threads|
  {
    Grant(Goto(s, t, if max > 1 then Try(max - 1, false) else Idle), 1)
  }

  /** spins is the constructor's maxSpins; the loop `while (--spin >= 0)` makes
      exactly that many attempts. */
  function Step(s: State, t: nat, spins: nat): State
    requires t < |s.threads| && LocalOk(s.threads[t])
  {
    match s.threads[t]
    case Idle => s
    case Try(max, after) => Goto(s, t, Saw(s.count, max, after, spins))
    case TryCas(seen, max, after) =>
      if s.count == seen then
        // A zero-permit request swaps the count for itself and acquires nothing.
        Grant(Goto(s, t, Idle).(count := Left(seen, max)), seen - Left(seen, max))
      else Goto(s, t, Saw(s.count, max, after, spins))
    case Spin(left, max) =>
      if left == 0 then Goto(s, t, Sub(max))
      else if s.count > 0 then Goto(s, t, SpinCas(left - 1, s.count, max))
      else Goto(s, t, Spin(left - 1, max))
    case SpinCas(left, seen, max) =>
      if s.count == seen then Grant(Goto(s, t, Idle).(count := Left(seen, max)), seen - Left(seen, max))
      else Goto(s, t, Spin(left, max))
    case Sub(max) =>
      var s1 := s.(count := s.count - 1);
      if s.count > 0 then GotOne(s1, t, max) else Goto(s1, t, Kernel(max))
    case Kernel(max) => if s.permits > 0 then GotOne(s.(permits := s.permits - 1), t, max) else s
    case Adjust(max) => Goto(s, t, if s.count >= 0 then AdjustTry(max) else AdjustCas(s.count, max))
    case AdjustTry(max) =>
      if s.permits > 0 then GotOne(s.(permits := s.permits - 1), t, max) else Goto(s, t, Adjust(max))
    case AdjustCas(seen, max) =>
      if s.count == seen then Goto(s, t, Idle).(count := seen + 1) else Goto(s, t, Adjust(max))
    case Post(owed) =>
      Goto(s, t, if owed > 1 then Post(owed - 1) else Idle).(permits := s.permits + 1)
  }

  function SignalStep(s: State, t: nat, n: nat): State
    requires t < |s.threads|
  {
    var toRelease := if -s.count < n then -s.count else n;
    Goto(s, t, if toRelease > 0 then Post(toRelease) else Idle)
    .(count := s.count + n, signalled := s.signalled + n)
  }

  function FailStep(s: State, t: nat, spins: nat): State
    requires t < |s.threads|
  {
    match s.threads[t]
    case TryCas(seen, max, after) => Goto(s, t, Saw(s.count, max, after, spins))
    case Kernel(max) => Goto(s, t, Adjust(max))
    case _ => s
  }

  predicate Enabled(s: State, e: Event)
  {
    && e.t < |s.threads|
    && match e
       case TryWait(t, _) => s.threads[t].Idle?
       case Wait(t, _) => s.threads[t].Idle?
       case Signal(t, _) => s.threads[t].Idle?
       case Go(t) => LocalOk(s.threads[t])
       case Fail(t) => true
  }

  function Apply(s: State, e: Event, spins: nat): State
    requires Enabled(s, e)
  {
    match e
    case TryWait(t, max) => Goto(s, t, Try(max, false))
    case Wait(t, max) => Goto(s, t, Try(max, true))
    case Signal(t, n) => SignalStep(s, t, n)
    case Go(t) => Step(s, t, spins)
    case Fail(t) => FailStep(s, t, spins)
  }

  predicate Init(s: State)
  {
    && s.count == s.initial && s.permits == 0 && s.signalled == 0 && s.granted == 0
    && forall t | 0 <= t < |s.threads| :: s.threads[t].Idle?
  }

  ghost predicate Run(states: seq<State>, events: seq<Event>, spins: nat)
  {
    && |states| == |events| + 1
    && Init(states[0])
    && forall i | 0 <= i < |events| ::
         Enabled(states[i], events[i]) && states[i + 1] == Apply(states[i], events[i], spins)
  }

  // ----- the invariant -----

  predicate LocalOk(l: Local)
  {
    match l
    case TryCas(seen, _, _) => seen > 0
    case SpinCas(_, seen, max) => max > 0 && seen > 0
    case Sub(max) => max > 0
    case Kernel(max) => max > 0
    case Adjust(max) => max > 0
    case AdjustTry(max) => max > 0
    case AdjustCas(seen, max) => max > 0 && seen < 0
    case Spin(_, max) => max > 0
    case Post(owed) => owed > 0
    case _ => true
  }

  /** A thread whose decrement of the count is not resolved yet. */
  ghost function Waiting(): Local -> int
  {
    (l: Local) => if l.Kernel? || l.Adjust? || l.AdjustTry? || l.AdjustCas? then 1 else 0
  }

  ghost function Owed(): Local -> int { (l: Local) => if l.Post? then l.owed else 0 }

  function Positive(x: int): nat { if x > 0 then x else 0 }

  ghost predicate Inv(s: State)
  {
    && Sum(Waiting(), s.threads) == Positive(-s.count) + s.permits + Sum(Owed(), s.threads)
    && s.initial + s.signalled == s.granted + Positive(s.count) + s.permits + Sum(Owed(), s.threads)
    && (forall t: nat | t < |s.threads| :: LocalOk(s.threads[t]))
  }

  lemma MoveSums(ts: seq<Local>, t: nat, l: Local)
    requires t < |ts|
    ensures Sum(Waiting(), ts[t := l]) == Sum(Waiting(), ts) - Waiting()(ts[t]) + Waiting()(l)
    ensures Sum(Owed(), ts[t := l]) == Sum(Owed(), ts) - Owed()(ts[t]) + Owed()(l)
  {
    SumUpdate(Waiting(), ts, t, l);
    SumUpdate(Owed(), ts, t, l);
  }

  /** The two equations of the invariant, as changes made by one thread's step. */
  ghost predicate Balanced(s: State, s': State, t: nat)
    requires t < |s.threads| == |s'.threads|
  {
    var l, l' := s.threads[t], s'.threads[t];
    && s'.threads == s.threads[t := l']
    && LocalOk(l')
    && s'.initial == s.initial
    && Waiting()(l') - Waiting()(l)
       == Positive(-s'.count) - Positive(-s.count) + s'.permits - s.permits + Owed()(l') - Owed()(l)
    && s'.signalled - s.signalled
       == s'.granted - s.granted + Positive(s'.count) - Positive(s.count)
          + s'.permits - s.permits + Owed()(l') - Owed()(l)
  }

  lemma BalancedKeepsInv(s: State, s': State, t: nat)
    requires Inv(s) && t < |s.threads| == |s'.threads| && Balanced(s, s', t)
    ensures Inv(s')
  {
    MoveSums(s.threads, t, s'.threads[t]);
  }

  lemma StepBalanced(s: State, t: nat, spins: nat)
    requires t < |s.threads| && LocalOk(s.threads[t])
    ensures |Step(s, t, spins).threads| == |s.threads|
    ensures Balanced(s, Step(s, t, spins), t)
  {}

  lemma StepKeepsInv(s: State, e: Event, spins: nat)
    requires Inv(s) && Enabled(s, e)
    ensures Inv(Apply(s, e, spins))
  {
    if e.Go? { StepBalanced(s, e.t, spins); }
    BalancedKeepsInv(s, Apply(s, e, spins), e.t);
  }

  lemma SumAtLeastOwed(s: State, t: nat)
    requires t < |s.threads|
    ensures 0 <= Sum(Owed(), s.threads) && Owed()(s.threads[t]) <= Sum(Owed(), s.threads)
  {
    SumAtLeast(Owed(), s.threads, t);
  }

  lemma {:induction false} RunKeepsInv(states: seq<State>, events: seq<Event>, spins: nat, i: nat)
    requires Run(states, events, spins) && i < |states|
    ensures Inv(states[i])
  {
    if i == 0 {
      SumZero(Waiting(), states[0].threads);
      SumZero(Owed(), states[0].threads);
    } else {
      RunKeepsInv(states, events, spins, i - 1);
      StepKeepsInv(states[i - 1], events[i - 1], spins);
    }
  }

  // ----- what holds over every run -----

  /** No permit is lost or granted twice, timeouts and partial grants included. */
  lemma PermitsConserved(states: seq<State>, events: seq<Event>, spins: nat, i: nat)
    requires Run(states, events, spins) && i < |states|
    ensures var s := states[i];
            s.initial + s.signalled
            == s.granted + Positive(s.count) + s.permits + Sum(Owed(), s.threads)
    ensures states[i].granted <= states[i].initial + states[i].signalled
  {
    RunKeepsInv(states, events, spins, i);
    SumNonNegative(Owed(), states[i].threads);
  }

  /** The waiters are accounted for: as many as the count is below zero, plus the
      wakeups already posted or owed. */
  lemma WaitersAccounted(states: seq<State>, events: seq<Event>, spins: nat, i: nat)
    requires Run(states, events, spins) && i < |states|
    ensures var s := states[i];
            Sum(Waiting(), s.threads) == Positive(-s.count) + s.permits + Sum(Owed(), s.threads)
  {
    RunKeepsInv(states, events, spins, i);
  }

  /** No lost wakeup: while permits are free for the taking, every thread asleep
      in the kernel has its wakeup posted or owed by a running signaller. */
  lemma NoStrandedSleeper(states: seq<State>, events: seq<Event>, spins: nat, i: nat, t: nat)
    requires Run(states, events, spins) && i < |states| && t < |states[i].threads|
    requires states[i].threads[t].Kernel? || states[i].threads[t].Adjust?
    requires states[i].count >= 0
    ensures 1 <= Sum(Waiting(), states[i].threads) == states[i].permits + Sum(Owed(), states[i].threads)
    ensures states[i].permits == 0 ==> exists u: nat :: u < |states[i].threads| && states[i].threads[u].Post?
  {
    RunKeepsInv(states, events, spins, i);
    var s := states[i];
    SumAtLeast(Waiting(), s.threads, t);
    if s.permits == 0 {
      var u := SumWitness(Owed(), s.threads);
      assert s.threads[u].Post?;
    }
  }

  /** A signaller never owes more posts than there are threads, so the narrowing
      cast of toRelease to int is exact for fewer than 2^31 threads. */
  lemma PostsFitThreads(states: seq<State>, events: seq<Event>, spins: nat, i: nat, t: nat)
    requires Run(states, events, spins) && i < |states| && t < |states[i].threads|
    requires states[i].threads[t].Post?
    ensures states[i].threads[t].owed <= |states[i].threads|
  {
    RunKeepsInv(states, events, spins, i);
    var ts := states[i].threads;
    SumAtLeastOwed(states[i], t);
    WaitersBounded(ts);
  }

  lemma {:induction false} WaitersBounded(ts: seq<Local>)
    ensures Sum(Waiting(), ts) <= |ts|
  {
    if |ts| > 0 { WaitersBounded(ts[..|ts| - 1]); }
  }

  /** At rest the count alone is what was signalled and not granted. */
  lemma QuietCount(states: seq<State>, events: seq<Event>, spins: nat, i: nat)
    requires Run(states, events, spins) && i < |states|
    requires forall t | 0 <= t < |states[i].threads| :: states[i].threads[t].Idle?
    ensures states[i].permits == 0
    ensures 0 <= states[i].count == states[i].initial + states[i].signalled - states[i].granted
  {
    RunKeepsInv(states, events, spins, i);
    SumZero(Waiting(), states[i].threads);
    SumZero(Owed(), states[i].threads);
  }

  /** What was signalled is the sum of what the signals said. */
  function Signalled(events: seq<Event>, i: nat): nat
    requires i <= |events|
  {
    if i == 0 then 0 else Signalled(events, i - 1) + (if events[i - 1].Signal? then events[i - 1].n else 0)
  }

  lemma {:induction false} SignalsAddUp(states: seq<State>, events: seq<Event>, spins: nat, i: nat)
    requires Run(states, events, spins) && i < |states|
    ensures states[i].signalled == Signalled(events, i) && states[i].initial == states[0].initial
  {
    if i > 0 {
      SignalsAddUp(states, events, spins, i - 1);
      StepSignalled(states[i - 1], events[i - 1], spins);
    }
  }

  lemma StepSignalled(s: State, e: Event, spins: nat)
    requires Enabled(s, e)
    ensures Apply(s, e, spins).signalled == s.signalled + (if e.Signal? then e.n else 0)
    ensures Apply(s, e, spins).initial == s.initial
  {
    if e.Go? { StepBalanced(s, e.t, spins); }
  }

  // ----- what one call is granted -----

  /** What the steps of thread t from event k up to state j were granted. */
  ghost function GrantedTo(states: seq<State>, events: seq<Event>, t: nat, k: nat, j: nat): int
    requires k <= j < |states| == |events| + 1
  {
    if j == k then 0
    else GrantedTo(states, events, t, k, j - 1)
         + (if events[j - 1].t == t then states[j].granted - states[j - 1].granted else 0)
  }

  predicate IsWait(e: Event, t: nat, max: nat) { e == TryWait(t, max) || e == Wait(t, max) }

  /** Event k starts a call for up to max permits that is not over before state j. */
  ghost predicate Calling(states: seq<State>, events: seq<Event>, t: nat, max: nat, k: nat, j: nat)
  {
    && k < j < |states| == |events| + 1 && IsWait(events[k], t, max)
    && forall m | k < m < j :: t < |states[m].threads| && !states[m].threads[t].Idle?
  }

  /** The permits that a call in this state may still be granted. */
  function Room(l: Local): nat
  {
    match l
    case Try(max, _) => max
    case TryCas(_, max, _) => max
    case Spin(_, max) => max
    case SpinCas(_, _, max) => max
    case Sub(max) => max
    case Kernel(max) => max
    case Adjust(max) => max
    case AdjustTry(max) => max
    case AdjustCas(_, max) => max
    case _ => 0
  }

  lemma StepRoom(s: State, e: Event, spins: nat)
    requires Enabled(s, e) && !s.threads[e.t].Idle?
    ensures var s' := Apply(s, e, spins);
            && s'.threads == s.threads[e.t := s'.threads[e.t]]
            && 0 <= s'.granted - s.granted && s'.granted - s.granted + Room(s'.threads[e.t]) <= Room(s.threads[e.t])
  {
    if e.Go? { StepBalanced(s, e.t, spins); }
  }

  lemma OtherThread(s: State, e: Event, spins: nat, t: nat)
    requires Enabled(s, e) && t < |s.threads| && t != e.t
    ensures |Apply(s, e, spins).threads| == |s.threads| && Apply(s, e, spins).threads[t] == s.threads[t]
  {
    if e.Go? { StepBalanced(s, e.t, spins); }
  }

  lemma CallStarts(s: State, e: Event, spins: nat, t: nat, max: nat)
    requires Enabled(s, e) && IsWait(e, t, max)
    ensures var s' := Apply(s, e, spins);
            && |s'.threads| == |s.threads| && s'.threads[t] == Try(max, e.Wait?)
            && s'.count == s.count && s'.granted == s.granted
  {}

  /** A call never gets more than it asked for. */
  lemma {:induction false} AtMostMax(states: seq<State>, events: seq<Event>, spins: nat, t: nat, max: nat,
      k: nat, j: nat)
    requires Run(states, events, spins) && Calling(states, events, t, max, k, j)
    ensures t < |states[j].threads|
    ensures 0 <= GrantedTo(states, events, t, k, j) <= max - Room(states[j].threads[t])
    decreases j
  {
    if j == k + 1 {
      CallStarts(states[k], events[k], spins, t, max);
      assert GrantedTo(states, events, t, k, k) == 0;
    } else {
      AtMostMax(states, events, spins, t, max, k, j - 1);
      if events[j - 1].t == t {
        StepRoom(states[j - 1], events[j - 1], spins);
      } else {
        OtherThread(states[j - 1], events[j - 1], spins, t);
      }
    }
  }

  /** Some state of the call had no permit to take. */
  ghost predicate SawNone(states: seq<State>, k: nat, j: nat)
  {
    exists m: nat :: k < m <= j < |states| && states[m].count <= 0
  }

  predicate Trying(l: Local, max: nat)
  {
    (l.Try? && l.max == max && !l.spinAfter) || (l.TryCas? && l.max == max && !l.spinAfter)
  }

  lemma TryStep(s: State, e: Event, spins: nat, max: nat)
    requires Enabled(s, e) && Trying(s.threads[e.t], max)
    ensures var s' := Apply(s, e, spins);
            && |s'.threads| == |s.threads|
            && if Trying(s'.threads[e.t], max) then s'.granted == s.granted
               else s'.threads[e.t].Idle?
                    && (s'.granted == s.granted + max || s.count <= 0 || s'.count <= 0)
  {}

  /** tryWait and tryWaitMany get all they asked for, unless there was no permit to
      take at some moment of the call, or none left after it. */
  lemma {:induction false} ShortTryFoundNone(states: seq<State>, events: seq<Event>, spins: nat, t: nat, max: nat,
      k: nat, j: nat)
    requires Run(states, events, spins) && Calling(states, events, t, max, k, j) && events[k].TryWait?
    ensures t < |states[j].threads|
    ensures if states[j].threads[t].Idle?
            then GrantedTo(states, events, t, k, j) == max || SawNone(states, k, j)
            else Trying(states[j].threads[t], max) && GrantedTo(states, events, t, k, j) == 0
    decreases j
  {
    if j == k + 1 {
      CallStarts(states[k], events[k], spins, t, max);
      assert GrantedTo(states, events, t, k, k) == 0;
    } else {
      ShortTryFoundNone(states, events, spins, t, max, k, j - 1);
      assert !states[j - 1].threads[t].Idle?;
      if events[j - 1].t == t {
        TryStep(states[j - 1], events[j - 1], spins, max);
      } else {
        OtherThread(states[j - 1], events[j - 1], spins, t);
      }
    }
  }

  /** The kernel wait of thread t gives up at event m. */
  ghost predicate GivesUp(states: seq<State>, events: seq<Event>, t: nat, m: nat)
  {
    m < |events| < |states| && events[m] == Fail(t) && t < |states[m].threads| && states[m].threads[t].Kernel?
  }

  /** A wait that has got nothing and was not told to give up. */
  predicate Hoping(l: Local)
  {
    && Room(l) > 0
    && ((l.Try? && l.spinAfter) || (l.TryCas? && l.spinAfter) || l.Spin? || l.SpinCas? || l.Sub? || l.Kernel?)
  }

  lemma HopingStep(s: State, e: Event, spins: nat, t: nat)
    requires Enabled(s, e) && t < |s.threads| && !s.threads[t].Idle?
    ensures var s' := Apply(s, e, spins);
            && |s'.threads| == |s.threads| && (e.t == t ==> s'.granted >= s.granted)
            && (Hoping(s.threads[t]) && !(e == Fail(t) && s.threads[t].Kernel?) ==>
                  Hoping(s'.threads[t]) || (e.t == t && s'.granted > s.granted))
  {
    if e.t == t { StepRoom(s, e, spins); } else { OtherThread(s, e, spins, t); }
  }

  /** A wait for at least one permit ends with at least one, unless its kernel wait
      gave up. */
  lemma {:induction false} WaitEndsWithPermit(states: seq<State>, events: seq<Event>, spins: nat, t: nat, max: nat,
      k: nat, j: nat)
    requires Run(states, events, spins) && Calling(states, events, t, max, k, j) && events[k].Wait? && max > 0
    requires forall m | k < m < j :: !GivesUp(states, events, t, m)
    ensures t < |states[j].threads|
    ensures GrantedTo(states, events, t, k, j) >= (if Hoping(states[j].threads[t]) then 0 else 1)
    ensures states[j].threads[t].Idle? ==> GrantedTo(states, events, t, k, j) >= 1
    decreases j
  {
    if j == k + 1 {
      CallStarts(states[k], events[k], spins, t, max);
      assert GrantedTo(states, events, t, k, k) == 0;
    } else {
      WaitEndsWithPermit(states, events, spins, t, max, k, j - 1);
      assert !GivesUp(states, events, t, j - 1);
      HopingStep(states[j - 1], events[j - 1], spins, t);
    }
  }

  // ----- what a call achieves alone -----

  ghost function Leads(spins: nat): (State, Event, State) -> bool
  {
    (s: State, e: Event, s': State) => Enabled(s, e) && s' == Apply(s, e, spins)
  }

  function After(s: State, e: Event, spins: nat): State { if Enabled(s, e) then Apply(s, e, spins) else s }

  lemma Extend(states: seq<State>, events: seq<Event>, spins: nat, more: seq<State>, es: seq<Event>)
    requires Run(states, events, spins) && Path(Leads(spins), more, es) && more[0] == states[|events|]
    ensures Run(states + more[1..], events + es, spins)
  {
    var s, g := states + more[1..], events + es;
    forall i | 0 <= i < |g| ensures Enabled(s[i], g[i]) && s[i + 1] == Apply(s[i], g[i], spins) {
      if i >= |events| {
        assert Leads(spins)(more[i - |events|], es[i - |events|], more[i - |events| + 1]);
        assert s[i] == more[i - |events|] && g[i] == es[i - |events|];
      }
    }
  }

  function Min(a: int, b: int): int { if a < b then a else b }

  /** From s to s' thread t has become idle with n more permits and none else has
      moved. */
  predicate Finished(s: State, s': State, t: nat, n: int)
  {
    t < |s.threads| && s'.threads == s.threads[t := Idle] && s'.granted == s.granted + n && s'.signalled == s.signalled
  }

  /** tryWaitMany from its load on, without interference. */
  lemma LoneTrying(s: State, t: nat, max: nat, spinAfter: bool, spins: nat)
    returns (states: seq<State>, events: seq<Event>)
    requires t < |s.threads| && s.threads[t] == Try(max, spinAfter) && (s.count > 0 || !spinAfter || max == 0)
    ensures Path(Leads(spins), states, events) && 0 < |events| && states[0] == s
    ensures forall i | 0 <= i < |events| :: events[i] == Go(t)
    ensures var n, s' := Min(max, Positive(s.count)), states[|events|];
            Finished(s, s', t, n) && s'.count == s.count - n && s'.permits == s.permits
  {
    var s1 := Apply(s, Go(t), spins);
    if s.count > 0 {
      var s2 := Apply(s1, Go(t), spins);
      states, events := [s, s1, s2], [Go(t), Go(t)];
    } else {
      states, events := [s, s1], [Go(t)];
    }
  }

  /** tryWait and tryWaitMany running alone get all they ask for or all there is; so
      do wait and waitMany when there is a permit. */
  lemma LoneWait(states: seq<State>, events: seq<Event>, spins: nat, t: nat, max: nat, call: Event)
    returns (states': seq<State>, events': seq<Event>)
    requires Run(states, events, spins) && t < |states[|events|].threads| && states[|events|].threads[t].Idle?
    requires IsWait(call, t, max) && (call.Wait? ==> states[|events|].count > 0)
    ensures Run(states', events', spins) && Continues(states, events, states', events', call, e => e == Go(t))
    ensures var s, s' := states[|events|], states'[|events'|];
            var n := Min(max, Positive(s.count));
            Finished(s, s', t, n) && s'.count == s.count - n && s'.permits == s.permits
  {
    var s := states[|events|];
    var s1 := Apply(s, call, spins);
    var ss, es := LoneTrying(s1, t, max, call.Wait?, spins);
    assert Path(Leads(spins), [s, s1], [call]);
    Join(Leads(spins), [s, s1], [call], ss, es);
    Extend(states, events, spins, [s, s1] + ss[1..], [call] + es);
    states', events' := states + ([s, s1] + ss[1..])[1..], events + ([call] + es);
    assert states'[|events'|] == ss[|es|];
  }

  /** A waiter that finds a kernel permit takes it and, for more than one, what is
      there besides. */
  lemma LoneWakeup(states: seq<State>, events: seq<Event>, spins: nat, t: nat)
    returns (states': seq<State>, events': seq<Event>)
    requires Run(states, events, spins) && t < |states[|events|].threads|
    requires states[|events|].threads[t].Kernel? && states[|events|].permits > 0
    ensures Run(states', events', spins) && Continues(states, events, states', events', Go(t), e => e == Go(t))
    ensures var s, s' := states[|events|], states'[|events'|];
            var n := Min(s.threads[t].max - 1, Positive(s.count));
            Finished(s, s', t, n + 1) && s'.count == s.count - n && s'.permits == s.permits - 1
  {
    var s := states[|events|];
    RunKeepsInv(states, events, spins, |events|);
    var s1 := Apply(s, Go(t), spins);
    var more, es := [s, s1], [Go(t)];
    if s.threads[t].max > 1 {
      var ss, fs := LoneTrying(s1, t, s.threads[t].max - 1, false, spins);
      assert Path(Leads(spins), more, es);
      Join(Leads(spins), more, es, ss, fs);
      more, es := more + ss[1..], es + fs;
      assert more[|es|] == ss[|fs|];
    }
    Extend(states, events, spins, more, es);
    states', events' := states + more[1..], events + es;
    assert states'[|events'|] == more[|es|];
  }

  ghost predicate Posting(s: State, s0: State, t: nat, total: nat)
  {
    && t < |s.threads| == |s0.threads| && s.threads == s0.threads[t := s.threads[t]]
    && s.threads[t].Post? && s.threads[t].owed > 0
    && s.permits + s.threads[t].owed == total && s.count == s0.count && s.granted == s0.granted
    && s.signalled == s0.signalled
  }

  ghost predicate Posted(s: State, s0: State, t: nat, total: nat)
  {
    Finished(s0, s, t, 0) && s.permits == total && s.count == s0.count
  }

  lemma LonePosting(s0: State, t: nat, spins: nat) returns (states: seq<State>, events: seq<Event>)
    requires t < |s0.threads| && s0.threads[t].Post? && s0.threads[t].owed > 0
    ensures Path(Leads(spins), states, events) && 0 < |events| && states[0] == s0
    ensures forall i | 0 <= i < |events| :: events[i] == Go(t)
    ensures Posted(states[|events|], s0, t, s0.permits + s0.threads[t].owed)
  {
    var total := s0.permits + s0.threads[t].owed;
    states, events := RunsOut(Leads(spins), a => Go(t), a => After(a, Go(t), spins), a => Posting(a, s0, t, total),
      (a: State) => if t < |a.threads| && a.threads[t].Post? then a.threads[t].owed else 0,
      (a, b) => Posted(b, s0, t, total), s0);
  }

  /** A signal that runs alone raises the count by what it says and posts one kernel
      permit for each waiter that the count owes one, up to that number. */
  lemma LoneSignal(states: seq<State>, events: seq<Event>, spins: nat, t: nat, n: nat)
    returns (states': seq<State>, events': seq<Event>)
    requires Run(states, events, spins) && t < |states[|events|].threads| && states[|events|].threads[t].Idle?
    ensures Run(states', events', spins) && Continues(states, events, states', events', Signal(t, n), e => e == Go(t))
    ensures var s, s' := states[|events|], states'[|events'|];
            && s'.threads == s.threads && s'.granted == s.granted && s'.count == s.count + n
            && s'.permits == s.permits + Min(n, Positive(-s.count))
  {
    var s := states[|events|];
    var s1 := Apply(s, Signal(t, n), spins);
    var more, es := [s, s1], [Signal(t, n)];
    if s1.threads[t].Post? {
      var ss, fs := LonePosting(s1, t, spins);
      assert Path(Leads(spins), more, es);
      Join(Leads(spins), more, es, ss, fs);
      more, es := more + ss[1..], es + fs;
      assert more[|es|] == ss[|fs|];
    }
    Extend(states, events, spins, more, es);
    states', events' := states + more[1..], events + es;
    assert states'[|events'|] == more[|es|];
  }

  ghost predicate Spinning(s: State, s0: State, t: nat, max: nat)
  {
    && t < |s.threads| == |s0.threads| && s == s0.(threads := s0.threads[t := s.threads[t]])
    && max > 0 && s.count <= 0
    && (s.threads[t] == Try(max, true) || (s.threads[t].Spin? && s.threads[t].max == max) || s.threads[t] == Sub(max))
  }

  function SpinRank(l: Local, spins: nat): nat
  {
    if l.Try? then spins + 2 else if l.Spin? then l.left + 1 else 0
  }

  predicate Asleep(s: State, s0: State, t: nat, max: nat)
    requires t < |s0.threads|
  {
    s == s0.(count := s0.count - 1, threads := s0.threads[t := Kernel(max)])
  }

  ghost predicate SpinsOn(s: State, s': State, s0: State, t: nat, max: nat, spins: nat)
    requires t < |s0.threads|
  {
    Asleep(s', s0, t, max)
    || (Spinning(s', s0, t, max) && Spinning(s, s0, t, max)
        && SpinRank(s'.threads[t], spins) < SpinRank(s.threads[t], spins))
  }

  lemma SpinStep(s: State, s0: State, t: nat, max: nat, spins: nat)
    requires Spinning(s, s0, t, max)
    ensures Leads(spins)(s, Go(t), After(s, Go(t), spins))
    ensures SpinsOn(s, After(s, Go(t), spins), s0, t, max, spins)
  {}

  lemma LoneSpinning(s0: State, s: State, t: nat, max: nat, spins: nat)
    returns (states: seq<State>, events: seq<Event>)
    requires Spinning(s, s0, t, max)
    ensures Path(Leads(spins), states, events) && 0 < |events| && states[0] == s
    ensures forall i | 0 <= i < |events| :: events[i] == Go(t)
    ensures Asleep(states[|events|], s0, t, max)
    decreases SpinRank(s.threads[t], spins)
  {
    var s' := After(s, Go(t), spins);
    SpinStep(s, s0, t, max, spins);
    if Asleep(s', s0, t, max) {
      states, events := [s, s'], [Go(t)];
    } else {
      var ss, es := LoneSpinning(s0, s', t, max, spins);
      states, events := [s] + ss, [Go(t)] + es;
    }
  }

  /** A wait with no permit in sight ends up in the kernel, one below the count. */
  lemma LoneSleep(states: seq<State>, events: seq<Event>, spins: nat, t: nat, max: nat)
    returns (states': seq<State>, events': seq<Event>)
    requires Run(states, events, spins) && t < |states[|events|].threads| && states[|events|].threads[t].Idle?
    requires max > 0 && states[|events|].count <= 0
    ensures Run(states', events', spins) && Continues(states, events, states', events', Wait(t, max), e => e == Go(t))
    ensures Asleep(states'[|events'|], states[|events|], t, max)
  {
    var s := states[|events|];
    var s1 := Apply(s, Wait(t, max), spins);
    var ss, fs := LoneSpinning(s, s1, t, max, spins);
    assert Path(Leads(spins), [s, s1], [Wait(t, max)]);
    Join(Leads(spins), [s, s1], [Wait(t, max)], ss, fs);
    Extend(states, events, spins, [s, s1] + ss[1..], [Wait(t, max)] + fs);
    states', events' := states + ([s, s1] + ss[1..])[1..], events + ([Wait(t, max)] + fs);
    assert states'[|events'|] == ss[|fs|];
  }

  /** A waiter that gives up alone takes its wait back, and gets nothing; if a kernel
      permit is there for it by then, it takes that instead. */
  lemma LoneTimeout(states: seq<State>, events: seq<Event>, spins: nat, t: nat)
    returns (states': seq<State>, events': seq<Event>)
    requires Run(states, events, spins) && t < |states[|events|].threads| && states[|events|].threads[t].Kernel?
    requires states[|events|].count < 0 || states[|events|].permits > 0
    ensures Run(states', events', spins) && Continues(states, events, states', events', Fail(t), e => e == Go(t))
    ensures var s, s' := states[|events|], states'[|events'|];
            if s.count < 0 then Finished(s, s', t, 0) && s'.count == s.count + 1 && s'.permits == s.permits
            else var n := Min(s.threads[t].max - 1, s.count);
                 Finished(s, s', t, n + 1) && s'.count == s.count - n && s'.permits == s.permits - 1
  {
    var s := states[|events|];
    RunKeepsInv(states, events, spins, |events|);
    var s1 := Apply(s, Fail(t), spins);
    var s2 := Apply(s1, Go(t), spins);
    var s3 := Apply(s2, Go(t), spins);
    var more, es := [s, s1, s2, s3], [Fail(t), Go(t), Go(t)];
    if s.count >= 0 && s.threads[t].max > 1 {
      var ss, fs := LoneTrying(s3, t, s.threads[t].max - 1, false, spins);
      assert Path(Leads(spins), more, es);
      Join(Leads(spins), more, es, ss, fs);
      more, es := more + ss[1..], es + fs;
      assert more[|es|] == ss[|fs|];
    }
    Extend(states, events, spins, more, es);
    states', events' := states + more[1..], events + es;
    assert states'[|events'|] == more[|es|];
  }
}
