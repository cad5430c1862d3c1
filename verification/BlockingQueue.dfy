/** BlockingConcurrentQueue of blockingconcurrentqueue.h: an inner queue, here an
    atomic FIFO, and a LightweightSemaphore that starts at zero. */
module BlockingQueue {
  import opened Tally
  import opened Runs
  import Sem = Semaphore

  /** What a thread owes to the pair: a signal for items it enqueued, or dequeues
      for permits it was granted. */
  datatype Role = Free | Unsignalled(n: nat) | Holding(k: nat)

  datatype State<T> = State(
    sem: Sem.State,
    items: seq<T>,
    roles: seq<Role>,
    enqueued: seq<T>,
    dequeued: seq<T>)

  datatype Event<T> =
    | Enqueue(t: nat, xs: seq<T>)   // inner enqueue or enqueue_bulk succeeds
    | Signal(t: nat)                // the signal for it, up to its fetch_add
    | Semaphore(e: Sem.Event)       // any other semaphore step
    | Take(t: nat)                  // one attempt of the inner try_dequeue(_bulk)

  function Thread<T>(e: Event<T>): nat
  {
    match e
    case Enqueue(t, _) => t
    case Signal(t) => t
    case Semaphore(se) => se.t
    case Take(t) => t
  }

  function Held(r: Role): nat { if r.Holding? then r.k else 0 }

  function Hold(k: nat): Role { if k == 0 then Free else Holding(k) }

  function Min(a: nat, b: nat): nat { if a < b then a else b }

  predicate Enabled<T>(s: State<T>, e: Event<T>)
  {
    var t := Thread(e);
    && t < |s.roles| == |s.sem.threads|
    && match e
       case Enqueue(_, _) => s.roles[t].Free? && s.sem.threads[t].Idle?
       case Signal(_) => s.roles[t].Unsignalled? && s.sem.threads[t].Idle?
       case Semaphore(se) =>
         && !se.Signal? && Sem.Enabled(s.sem, se)
         && !s.roles[t].Unsignalled?
         && (s.sem.threads[t].Idle? ==> s.roles[t].Free?)
       case Take(_) => s.roles[t].Holding? && s.sem.threads[t].Idle?
  }

  function Apply<T>(s: State<T>, e: Event<T>, spins: nat): State<T>
    requires Enabled(s, e)
  {
    match e
    case Enqueue(t, xs) =>
      s.(items := s.items + xs, enqueued := s.enqueued + xs, roles := s.roles[t := Unsignalled(|xs|)])
    case Signal(t) =>
      s.(sem := Sem.SignalStep(s.sem, t, s.roles[t].n), roles := s.roles[t := Free])
    case Semaphore(se) =>
      var sem := Sem.Apply(s.sem, se, spins);
      // What this step granted is now in the thread's hands.
      var got := sem.granted - s.sem.granted;
      s.(sem := sem, roles := s.roles[se.t := Hold(if got >= 0 then Held(s.roles[se.t]) + got else 0)])
    case Take(t) =>
      var j := Min(s.roles[t].k, |s.items|);
      s.(items := s.items[j..], dequeued := s.dequeued + s.items[..j], roles := s.roles[t := Hold(s.roles[t].k - j)])
  }

  predicate Init<T>(s: State<T>)
  {
    && Sem.Init(s.sem) && s.sem.initial == 0
    && |s.items| == |s.enqueued| == |s.dequeued| == 0
    && |s.roles| == |s.sem.threads|
    && forall t | 0 <= t < |s.roles| :: s.roles[t].Free?
  }

  ghost predicate Run<T>(states: seq<State<T>>, events: seq<Event<T>>, spins: nat)
  {
    && |states| == |events| + 1
    && Init(states[0])
    && forall i | 0 <= i < |events| ::
         Enabled(states[i], events[i]) && states[i + 1] == Apply(states[i], events[i], spins)
  }

  ghost function HeldW(): Role -> int { (r: Role) => if r.Holding? then r.k else 0 }
  ghost function UnsignalledW(): Role -> int { (r: Role) => if r.Unsignalled? then r.n else 0 }

  ghost predicate Inv<T>(s: State<T>)
  {
    && Sem.Inv(s.sem) && s.sem.initial == 0
    && |s.roles| == |s.sem.threads|
    && |s.items| + s.sem.granted == s.sem.signalled + Sum(UnsignalledW(), s.roles) + Sum(HeldW(), s.roles)
    && s.enqueued == s.dequeued + s.items
  }

  lemma MoveSums(rs: seq<Role>, t: nat, r: Role)
    requires t < |rs|
    ensures Sum(HeldW(), rs[t := r]) == Sum(HeldW(), rs) - HeldW()(rs[t]) + HeldW()(r)
    ensures Sum(UnsignalledW(), rs[t := r]) == Sum(UnsignalledW(), rs) - UnsignalledW()(rs[t]) + UnsignalledW()(r)
  {
    SumUpdate(HeldW(), rs, t, r);
    SumUpdate(UnsignalledW(), rs, t, r);
  }

  lemma StepKeepsInv<T>(s: State<T>, e: Event<T>, spins: nat)
    requires Inv(s) && Enabled(s, e)
    ensures Inv(Apply(s, e, spins))
  {
    var t := Thread(e);
    var s' := Apply(s, e, spins);
    SemKeepsInv(s, e, spins);
    MoveSums(s.roles, t, s'.roles[t]);
    match e
    case Enqueue(_, xs) => assert s'.enqueued == s'.dequeued + s'.items;
    case Signal(_) =>
    case Semaphore(se) =>
    case Take(_) => assert s.items == s.items[..Min(s.roles[t].k, |s.items|)] + s'.items;
  }

  lemma SemKeepsInv<T>(s: State<T>, e: Event<T>, spins: nat)
    requires Inv(s) && Enabled(s, e)
    ensures Sem.Inv(Apply(s, e, spins).sem)
    ensures |Apply(s, e, spins).sem.threads| == |s.sem.threads|
    ensures e.Semaphore? ==>
              var sem := Apply(s, e, spins).sem;
              sem.granted >= s.sem.granted && sem.signalled == s.sem.signalled && sem.initial == s.sem.initial
  {
    if e.Signal? {
      Sem.StepKeepsInv(s.sem, Sem.Signal(e.t, s.roles[e.t].n), spins);
    } else if e.Semaphore? {
      Sem.StepKeepsInv(s.sem, e.e, spins);
    }
  }

  lemma {:induction false} RunKeepsInv<T>(states: seq<State<T>>, events: seq<Event<T>>, spins: nat, i: nat)
    requires Run(states, events, spins) && i < |states|
    ensures Inv(states[i])
  {
    if i == 0 {
      SumZero(HeldW(), states[0].roles);
      SumZero(UnsignalledW(), states[0].roles);
      Sem.RunKeepsInv([states[0].sem], [], spins, 0);
    } else {
      RunKeepsInv(states, events, spins, i - 1);
      StepKeepsInv(states[i - 1], events[i - 1], spins);
    }
  }

  /** The items are exactly the available permits, those posted or owed to
      waiters, those granted but not used, and the items not signalled yet. */
  lemma ItemsArePermits<T>(states: seq<State<T>>, events: seq<Event<T>>, spins: nat, i: nat)
    requires Run(states, events, spins) && i < |states|
    ensures var s := states[i];
            |s.items| == Sem.Positive(s.sem.count) + s.sem.permits + Sum(Sem.Owed(), s.sem.threads)
                         + Sum(HeldW(), s.roles) + Sum(UnsignalledW(), s.roles)
    ensures states[i].enqueued == states[i].dequeued + states[i].items
  {
    RunKeepsInv(states, events, spins, i);
  }

  /** A consumer that holds k permits finds k items at its first attempt: the
      retry loops of try_dequeue, wait_dequeue and the bulk forms end. */
  lemma HolderFindsItems<T>(states: seq<State<T>>, events: seq<Event<T>>, spins: nat, i: nat)
    requires Run(states, events, spins) && i < |events| && events[i].Take?
    ensures var t := events[i].t;
            && t < |states[i].roles| == |states[i + 1].roles| && states[i].roles[t].Holding?
            && states[i].roles[t].k <= |states[i].items|
            && states[i + 1].roles[t] == Free
            && states[i + 1].dequeued == states[i].dequeued + states[i].items[..states[i].roles[t].k]
  {
    RunKeepsInv(states, events, spins, i);
    var s := states[i];
    var t := events[i].t;
    assert Enabled(s, events[i]);
    SumAtLeast(HeldW(), s.roles, t);
    SumNonNegative(UnsignalledW(), s.roles);
    SumNonNegative(Sem.Owed(), s.sem.threads);
  }

  /** What the enqueues have put in, in order. */
  ghost function Enqueued<T>(events: seq<Event<T>>, i: nat): seq<T>
    requires i <= |events|
  {
    if i == 0 then [] else Enqueued(events, i - 1) + (if events[i - 1].Enqueue? then events[i - 1].xs else [])
  }

  /** The items taken and those still there are the items enqueued. */
  lemma {:induction false} NothingInvented<T>(states: seq<State<T>>, events: seq<Event<T>>, spins: nat, i: nat)
    requires Run(states, events, spins) && i < |states|
    ensures states[i].dequeued + states[i].items == states[i].enqueued == Enqueued(events, i)
  {
    RunKeepsInv(states, events, spins, i);
    if i > 0 { NothingInvented(states, events, spins, i - 1); }
  }

  // ----- one call -----

  /** Event k starts a dequeue of up to max items that is not over before state j. */
  ghost predicate Calling<T>(states: seq<State<T>>, events: seq<Event<T>>, t: nat, max: nat, k: nat, j: nat)
  {
    && k < j < |states| == |events| + 1 && events[k].Semaphore? && Sem.IsWait(events[k].e, t, max)
    && forall m | k < m < j :: t < |states[m].roles| == |states[m].sem.threads|
                               && !(states[m].roles[t].Free? && states[m].sem.threads[t].Idle?)
  }

  /** In the middle of a call: what is held and may still be granted. */
  predicate Within<T>(s: State<T>, t: nat, max: nat)
  {
    && t < |s.roles| == |s.sem.threads| && !s.roles[t].Unsignalled?
    && Held(s.roles[t]) + Sem.Room(s.sem.threads[t]) <= max
    && !s.sem.threads[t].Post?
  }

  lemma StepWithin<T>(s: State<T>, e: Event<T>, spins: nat, t: nat, max: nat)
    requires Enabled(s, e) && Within(s, t, max) && !(s.roles[t].Free? && s.sem.threads[t].Idle?)
    ensures Within(Apply(s, e, spins), t, max)
  {
    if e.Semaphore? {
      if e.e.t == t { Sem.StepRoom(s.sem, e.e, spins); } else { Sem.OtherThread(s.sem, e.e, spins, t); }
    }
  }

  /** A dequeue never takes more items than it asked for: those it holds permits for
      are no more. */
  lemma {:induction false} HoldsAtMostMax<T>(states: seq<State<T>>, events: seq<Event<T>>, spins: nat, t: nat,
      max: nat, k: nat, j: nat)
    requires Run(states, events, spins) && Calling(states, events, t, max, k, j)
    ensures Within(states[j], t, max)
    decreases j
  {
    if j == k + 1 {
      assert Enabled(states[k], events[k]);
      Sem.CallStarts(states[k].sem, events[k].e, spins, t, max);
    } else {
      HoldsAtMostMax(states, events, spins, t, max, k, j - 1);
      assert !(states[j - 1].roles[t].Free? && states[j - 1].sem.threads[t].Idle?);
      StepWithin(states[j - 1], events[j - 1], spins, t, max);
    }
  }

  /** No call is running. */
  ghost predicate Quiet<T>(s: State<T>)
  {
    && |s.roles| == |s.sem.threads|
    && forall t | 0 <= t < |s.roles| :: s.roles[t].Free? && s.sem.threads[t].Idle?
  }

  ghost function Leads<T>(spins: nat): (State<T>, Event<T>, State<T>) -> bool
  {
    (s: State<T>, e: Event<T>, s': State<T>) => Enabled(s, e) && s' == Apply(s, e, spins)
  }

  lemma Extend<T>(states: seq<State<T>>, events: seq<Event<T>>, spins: nat, more: seq<State<T>>, es: seq<Event<T>>)
    requires Run(states, events, spins) && Path(Leads(spins), more, es) && more[0] == states[|events|]
    ensures Run(states + more[1..], events + es, spins)
  {
    var s, g := states + more[1..], events + es;
    forall i | 0 <= i < |g| ensures Enabled(s[i], g[i]) && s[i + 1] == Apply(s[i], g[i], spins) {
      if i >= |events| {
        assert Leads(spins)(more[i - |events|], es[i - |events|], more[i - |events| + 1]);
        assert s[i] == more[i - |events|] && g[i] == es[i - |events|];
      }
    }
  }

  /** Thread t, and nobody else, is idle with n permits in hand. */
  ghost predicate Ready<T>(s: State<T>, s0: State<T>, t: nat, n: nat)
  {
    && t < |s.roles| == |s.sem.threads| == |s0.roles| && s.items == s0.items && s.dequeued == s0.dequeued
    && s.roles == s0.roles[t := Hold(n)] && s.sem.threads == s0.sem.threads && s.sem.threads[t].Idle?
  }

  /** The semaphore's part of a lone dequeue. */
  lemma LonePermits<T>(s: State<T>, spins: nat, t: nat, max: nat)
    returns (states: seq<State<T>>, events: seq<Event<T>>)
    requires Quiet(s) && t < |s.roles| && s.sem.count >= 0
    ensures Path(Leads(spins), states, events) && 1 < |events| && states[0] == s
    ensures events[0] == Semaphore(Sem.TryWait(t, max))
    ensures forall i | 1 <= i < |events| :: events[i] == Semaphore(Sem.Go(t))
    ensures Ready(states[|events|], s, t, Min(max, s.sem.count))
  {
    var call, go := Semaphore(Sem.TryWait(t, max)), Semaphore(Sem.Go(t));
    var s1 := Apply(s, call, spins);
    var s2 := Apply(s1, go, spins);
    if s.sem.count > 0 {
      assert s2.sem.threads[t] == Sem.TryCas(s.sem.count, max, false) && s2.roles[t] == Free;
      var s3 := Apply(s2, go, spins);
      states, events := [s, s1, s2, s3], [call, go, go];
    } else {
      states, events := [s, s1, s2], [call, go];
    }
  }

  /** try_dequeue and try_dequeue_bulk running alone take the oldest items, as many as
      they ask for or as there are. */
  lemma LoneDequeue<T>(states: seq<State<T>>, events: seq<Event<T>>, spins: nat, t: nat, max: nat)
    returns (states': seq<State<T>>, events': seq<Event<T>>)
    requires Run(states, events, spins) && Quiet(states[|events|]) && t < |states[|events|].roles|
    ensures Run(states', events', spins) && Quiet(states'[|events'|])
    ensures Continues(states, events, states', events', Semaphore(Sem.TryWait(t, max)),
                      e => e == Semaphore(Sem.Go(t)) || e == Take(t))
    ensures var s, s' := states[|events|], states'[|events'|];
            var n := Min(max, |s.items|);
            s'.dequeued == s.dequeued + s.items[..n] && s'.items == s.items[n..]
  {
    var s := states[|events|];
    QuietPermits(states, events, spins);
    var more, es := LonePermits(s, spins, t, max);
    var last := more[|es|];
    if Min(max, |s.items|) > 0 {
      var taken := Apply(last, Take(t), spins);
      Join(Leads(spins), more, es, [last, taken], [Take(t)]);
      more, es := more + [last, taken][1..], es + [Take(t)];
      assert more[|es|] == taken;
    }
    Extend(states, events, spins, more, es);
    states', events' := states + more[1..], events + es;
    assert states'[|events'|] == more[|es|];
  }

  lemma QuietPermits<T>(states: seq<State<T>>, events: seq<Event<T>>, spins: nat)
    requires Run(states, events, spins) && Quiet(states[|events|])
    ensures var s := states[|events|]; s.sem.count == |s.items| && s.sem.permits == 0
  {
    var s := states[|events|];
    RunKeepsInv(states, events, spins, |events|);
    ItemsArePermits(states, events, spins, |events|);
    SumZero(HeldW(), s.roles);
    SumZero(UnsignalledW(), s.roles);
    SumZero(Sem.Waiting(), s.sem.threads);
    SumZero(Sem.Owed(), s.sem.threads);
  }
}
