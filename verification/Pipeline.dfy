/** pipeline_mpsc.hpp: any number of submitters and one run token. Whoever flips
    is_running_ from false to true owns the token and launches a run; the run
    drains the queue through its serial source and then either launches the next
    run, or gives the token up and rechecks. The queue is an atomic FIFO here.
    Runs and their callbacks are threads of the executor, appended when launched.

    `accepted` and `handled` are history. */
module Pipeline {
  import opened Tally
  import opened Runs

  datatype Local =
    | Idle
    | SubmitSwap                       // pushed, about to compare_exchange
    | Enter(inCallback: bool)          // _run, about to increment active_runs_
    | Launch(inCallback: bool)         // _run, about to hand the run to the executor
    | Piping                           // the run: source pops until the queue is empty
    | Callback                         // about to test the queue
    | GiveUp                           // about to store is_running_ = false
    | Recheck
    | RecheckSwap
    | Leave                            // about to decrement active_runs_

  datatype State<T> = State(
    queue: seq<T>,
    running: bool,
    active: int,
    threads: seq<Local>,
    accepted: seq<T>,
    handled: seq<T>)

  datatype Event<T> =
    | Submit(t: nat, x: T, ok: bool)   // the push; ok is false when the queue is full
    | Go(t: nat)
    | Poll                             // one load of is_finished; changes nothing

  function Goto<T>(s: State<T>, t: nat, l: Local): State<T>
    requires t < |s.threads|
  {
    s.(threads := s.threads[t := l])
  }

  function Step<T>(s: State<T>, t: nat): State<T>
    requires t < |s.threads|
  {
    match s.threads[t]
    case Idle => s
    case SubmitSwap =>
      if s.running then Goto(s, t, Idle) else Goto(s, t, Enter(false)).(running := true)
    case Enter(cb) => Goto(s, t, Launch(cb)).(active := s.active + 1)
    case Launch(cb) =>
      var s1 := Goto(s, t, if cb then Leave else Idle);
      s1.(threads := s1.threads + [Piping])
    case Piping =>
      if |s.queue| > 0 then s.(handled := s.handled + [s.queue[0]], queue := s.queue[1..])
      else Goto(s, t, Callback)
    case Callback => Goto(s, t, if |s.queue| > 0 then Enter(true) else GiveUp)
    case GiveUp => Goto(s, t, Recheck).(running := false)
    case Recheck => Goto(s, t, if |s.queue| > 0 then RecheckSwap else Leave)
    case RecheckSwap =>
      if s.running then Goto(s, t, Leave) else Goto(s, t, Enter(true)).(running := true)
    case Leave => Goto(s, t, Idle).(active := s.active - 1)
  }

  predicate Enabled<T>(s: State<T>, e: Event<T>)
  {
    e.Poll? || (e.t < |s.threads| && (e.Submit? <==> s.threads[e.t].Idle?))
  }

  function Apply<T>(s: State<T>, e: Event<T>): State<T>
    requires Enabled(s, e)
  {
    match e
    case Submit(t, x, ok) =>
      var s1 := Goto(s, t, SubmitSwap);
      if ok then s1.(queue := s.queue + [x], accepted := s.accepted + [x]) else s1
    case Go(t) => Step(s, t)
    case Poll => s
  }

  predicate Init<T>(s: State<T>)
  {
    && |s.queue| == |s.accepted| == |s.handled| == 0
    && !s.running && s.active == 0
    && forall t | 0 <= t < |s.threads| :: s.threads[t].Idle?
  }

  ghost predicate Run<T>(states: seq<State<T>>, events: seq<Event<T>>)
  {
    && |states| == |events| + 1
    && Init(states[0])
    && forall i | 0 <= i < |events| ::
         Enabled(states[i], events[i]) && states[i + 1] == Apply(states[i], events[i])
  }

  // ----- the invariant -----

  ghost function Token(): Local -> int
  {
    (l: Local) => if l.Enter? || l.Launch? || l.Piping? || l.Callback? || l.GiveUp? then 1 else 0
  }

  /** Increments of active_runs_ that a thread still has to undo, or has made for
      a run it is about to launch. */
  ghost function ActiveW(): Local -> int
  {
    (l: Local) =>
      match l
      case Idle => 0
      case SubmitSwap => 0
      case Enter(cb) => if cb then 1 else 0
      case Launch(cb) => if cb then 2 else 1
      case _ => 1
  }

  predicate MayRestart(l: Local) { l.SubmitSwap? || l.Recheck? || l.RecheckSwap? }

  ghost predicate NoLostWakeup<T>(s: State<T>)
  {
    !s.running && |s.queue| > 0 ==> exists u :: 0 <= u < |s.threads| && MayRestart(s.threads[u])
  }

  ghost predicate Inv<T>(s: State<T>)
  {
    && Sum(Token(), s.threads) == (if s.running then 1 else 0)
    && Sum(ActiveW(), s.threads) == s.active
    && NoLostWakeup(s)
    && s.accepted == s.handled + s.queue
  }

  lemma MoveSums(ts: seq<Local>, t: nat, l: Local)
    requires t < |ts|
    ensures Sum(Token(), ts[t := l]) == Sum(Token(), ts) - Token()(ts[t]) + Token()(l)
    ensures Sum(ActiveW(), ts[t := l]) == Sum(ActiveW(), ts) - ActiveW()(ts[t]) + ActiveW()(l)
    ensures Token()(ts[t]) <= Sum(Token(), ts)
    ensures Sum(Token(), ts[t := l] + [Piping]) == Sum(Token(), ts[t := l]) + 1
    ensures Sum(ActiveW(), ts[t := l] + [Piping]) == Sum(ActiveW(), ts[t := l]) + 1
  {
    SumUpdate(Token(), ts, t, l);
    SumUpdate(ActiveW(), ts, t, l);
    SumAtLeast(Token(), ts, t);
    SumAppend(Token(), ts[t := l], Piping);
    SumAppend(ActiveW(), ts[t := l], Piping);
  }

  lemma WakeupKept<T>(s: State<T>, e: Event<T>)
    requires Inv(s) && Enabled(s, e)
    ensures NoLostWakeup(Apply(s, e))
  {
    var s' := Apply(s, e);
    if !e.Poll? && !s'.running && |s'.queue| > 0 {
      var t := e.t;
      MoveSums(s.threads, t, Idle);
      if MayRestart(s'.threads[t]) {
      } else {
        var u :| 0 <= u < |s.threads| && MayRestart(s.threads[u]);
        assert u != t ==> s'.threads[u] == s.threads[u];
      }
    }
  }

  /** A step changes the flag and the count by what its thread's weights change;
      launching a run adds one of each. */
  lemma StepBalanced<T>(s: State<T>, t: nat)
    requires t < |s.threads| && (Token()(s.threads[t]) == 1 ==> s.running)
    requires Token()(s.threads[t]) <= (if s.running then 1 else 0)
    ensures var s' := Step(s, t);
            var l, l' := s.threads[t], s'.threads[t];
            var spawned := if l.Launch? then 1 else 0;
            && s'.threads == s.threads[t := l'] + (if l.Launch? then [Piping] else [])
            && (if s'.running then 1 else 0) - (if s.running then 1 else 0)
               == Token()(l') - Token()(l) + spawned
            && s'.active - s.active == ActiveW()(l') - ActiveW()(l) + spawned
  {
    var s' := Step(s, t);
    if !s.threads[t].Launch? {
      assert s.threads[t := s'.threads[t]] + [] == s.threads[t := s'.threads[t]];
    }
  }

  ghost predicate SumsOk<T>(s: State<T>)
  {
    Sum(Token(), s.threads) == (if s.running then 1 else 0) && Sum(ActiveW(), s.threads) == s.active
  }

  lemma SumsKept<T>(s: State<T>, t: nat)
    requires SumsOk(s) && t < |s.threads|
    ensures SumsOk(Step(s, t))
  {
    var s' := Step(s, t);
    MoveSums(s.threads, t, s'.threads[t]);
    StepBalanced(s, t);
    if !s.threads[t].Launch? { assert s'.threads == s.threads[t := s'.threads[t]]; }
  }

  lemma StepKeepsInv<T>(s: State<T>, e: Event<T>)
    requires Inv(s) && Enabled(s, e)
    ensures Inv(Apply(s, e))
  {
    WakeupKept(s, e);
    LogKept(s, e);
    match e
    case Submit(t, _, _) => MoveSums(s.threads, t, SubmitSwap);
    case Go(t) => SumsKept(s, t);
    case Poll =>
  }

  lemma LogKept<T>(s: State<T>, e: Event<T>)
    requires s.accepted == s.handled + s.queue && Enabled(s, e)
    ensures var s' := Apply(s, e); s'.accepted == s'.handled + s'.queue
  {}

  lemma {:induction false} RunKeepsInv<T>(states: seq<State<T>>, events: seq<Event<T>>, i: nat)
    requires Run(states, events) && i < |states|
    ensures Inv(states[i])
  {
    if i == 0 {
      SumZero(Token(), states[0].threads);
      SumZero(ActiveW(), states[0].threads);
    } else {
      RunKeepsInv(states, events, i - 1);
      StepKeepsInv(states[i - 1], events[i - 1]);
    }
  }

  // ----- what holds over every run -----

  /** is_running_ is true exactly when one run token exists, so the source and
      its handler never run on two threads at once. */
  lemma OneToken<T>(states: seq<State<T>>, events: seq<Event<T>>, i: nat, t: nat, u: nat)
    requires Run(states, events) && i < |states| && t < |states[i].threads| && u < |states[i].threads|
    requires Token()(states[i].threads[t]) == 1
    ensures states[i].running
    ensures Token()(states[i].threads[u]) == 1 ==> t == u
  {
    RunKeepsInv(states, events, i);
    var ts := states[i].threads;
    MoveSums(ts, t, Idle);
    if t != u { SumAtLeast(Token(), ts[t := Idle], u); }
  }

  /** ... and while is_running_ is true, some thread holds the token. */
  lemma RunningHasToken<T>(states: seq<State<T>>, events: seq<Event<T>>, i: nat) returns (t: nat)
    requires Run(states, events) && i < |states| && states[i].running
    ensures t < |states[i].threads| && Token()(states[i].threads[t]) == 1
  {
    RunKeepsInv(states, events, i);
    t := SumWitness(Token(), states[i].threads);
  }

  /** No lost wakeup: when no token exists, and no submitter or callback is about
      to retry the swap, nothing is queued. Items come out in the order in which
      they were accepted. */
  lemma NothingForgotten<T>(states: seq<State<T>>, events: seq<Event<T>>, i: nat)
    requires Run(states, events) && i < |states| && !states[i].running
    requires forall u | 0 <= u < |states[i].threads| :: !MayRestart(states[i].threads[u])
    ensures states[i].queue == []
    ensures states[i].handled == states[i].accepted
  {
    RunKeepsInv(states, events, i);
    assert states[i].queue == [];
  }

  lemma HandledInOrder<T>(states: seq<State<T>>, events: seq<Event<T>>, i: nat)
    requires Run(states, events) && i < |states|
    ensures states[i].accepted == states[i].handled + states[i].queue
  {
    RunKeepsInv(states, events, i);
  }

  /** A thread inside submit. */
  predicate Submitting(l: Local)
  {
    l.SubmitSwap? || (l.Enter? && !l.inCallback) || (l.Launch? && !l.inCallback)
  }

  predicate NoSubmitter<T>(s: State<T>)
  {
    forall u | 0 <= u < |s.threads| :: !Submitting(s.threads[u])
  }

  predicate AllIdle<T>(s: State<T>)
  {
    forall u | 0 <= u < |s.threads| :: s.threads[u].Idle?
  }

  lemma NoActiveRun<T>(s: State<T>)
    requires Inv(s) && NoSubmitter(s) && s.active == 0
    ensures AllIdle(s) && !s.running && |s.queue| == 0
  {
    forall u | 0 <= u < |s.threads| ensures s.threads[u].Idle? {
      SumAtLeast(ActiveW(), s.threads, u);
    }
    SumZero(Token(), s.threads);
  }

  lemma {:induction false} StaysQuiet<T>(states: seq<State<T>>, events: seq<Event<T>>, i: nat, j: nat)
    requires Run(states, events) && i <= j < |states| && AllIdle(states[i])
    requires forall k | i <= k < j :: !events[k].Submit?
    ensures states[j] == states[i]
    decreases j
  {
    if i < j {
      StaysQuiet(states, events, i, j - 1);
      assert Enabled(states[j - 1], events[j - 1]);
      assert events[j - 1].Poll?;
    }
  }

  /** is_finished reads the flag at a, the active count at b and the queue at c.
      If it returns true and nobody submits from a on, then everything accepted
      was handled by b and the pipeline stays finished. */
  lemma FinishedIsPermanent<T>(states: seq<State<T>>, events: seq<Event<T>>, a: nat, b: nat, c: nat, j: nat)
    requires Run(states, events) && a <= b <= c < |states| && b <= j < |states|
    requires !states[a].running && states[b].active == 0 && |states[c].queue| == 0
    requires NoSubmitter(states[a])
    requires forall k | a <= k < |events| :: !events[k].Submit?
    ensures !states[j].running && states[j].active == 0 && states[j].queue == []
    ensures states[j].handled == states[j].accepted == states[a].accepted
  {
    StillNoSubmitter(states, events, a, b);
    RunKeepsInv(states, events, b);
    NoActiveRun(states[b]);
    StaysQuiet(states, events, b, j);
    assert states[j].queue == [];
  }

  lemma {:induction false} StillNoSubmitter<T>(states: seq<State<T>>, events: seq<Event<T>>, i: nat, j: nat)
    requires Run(states, events) && i <= j < |states| && NoSubmitter(states[i])
    requires forall k | i <= k < |events| :: !events[k].Submit?
    ensures NoSubmitter(states[j]) && states[j].accepted == states[i].accepted
    decreases j
  {
    if i < j {
      StillNoSubmitter(states, events, i, j - 1);
      NoSubmitterAt(states, events, j - 1);
    }
  }

  lemma NoSubmitterAt<T>(states: seq<State<T>>, events: seq<Event<T>>, k: nat)
    requires Run(states, events) && k < |events| && NoSubmitter(states[k]) && !events[k].Submit?
    ensures NoSubmitter(states[k + 1]) && states[k + 1].accepted == states[k].accepted
  {
    NoSubmitterStep(states[k], events[k]);
  }

  lemma NoSubmitterStep<T>(s: State<T>, e: Event<T>)
    requires NoSubmitter(s) && Enabled(s, e) && !e.Submit?
    ensures NoSubmitter(Apply(s, e)) && Apply(s, e).accepted == s.accepted
  {}

  /** The items that a submit put into the queue, in order. */
  ghost function Submitted<T>(events: seq<Event<T>>, i: nat): seq<T>
    requires i <= |events|
  {
    if i == 0 then []
    else Submitted(events, i - 1) + (if events[i - 1].Submit? && events[i - 1].ok then [events[i - 1].x] else [])
  }

  lemma StepAccepts<T>(s: State<T>, e: Event<T>)
    requires Enabled(s, e)
    ensures Apply(s, e).accepted == s.accepted + (if e.Submit? && e.ok then [e.x] else [])
  {}

  lemma {:induction false} AcceptedIsSubmitted<T>(states: seq<State<T>>, events: seq<Event<T>>, i: nat)
    requires Run(states, events) && i < |states|
    ensures states[i].accepted == Submitted(events, i)
  {
    if i > 0 {
      AcceptedIsSubmitted(states, events, i - 1);
      StepAccepts(states[i - 1], events[i - 1]);
    }
  }

  lemma BecomesGivingUp<T>(s: State<T>, e: Event<T>, t: nat)
    requires Enabled(s, e) && t < |Apply(s, e).threads| && Apply(s, e).threads[t].GiveUp?
    ensures t < |s.threads|
    ensures s.threads[t].GiveUp? || (e == Go(t) && s.threads[t].Callback? && s.queue == [])
  {}

  /** A thread gives the token up only after its callback saw an empty queue; otherwise
      it keeps it for the next run. */
  lemma {:induction false} GivesUpOnEmpty<T>(states: seq<State<T>>, events: seq<Event<T>>, i: nat, t: nat)
    returns (m: nat)
    requires Run(states, events) && i < |states| && t < |states[i].threads| && states[i].threads[t].GiveUp?
    ensures m < i && events[m] == Go(t) && t < |states[m].threads| && states[m].threads[t].Callback?
    ensures states[m].queue == []
  {
    BecomesGivingUp(states[i - 1], events[i - 1], t);
    if states[i - 1].threads[t].GiveUp? {
      m := GivesUpOnEmpty(states, events, i - 1, t);
    } else {
      m := i - 1;
    }
  }

  /** A callback with something queued goes on with the token in hand. */
  lemma CallbackGoesOn<T>(states: seq<State<T>>, events: seq<Event<T>>, i: nat, t: nat)
    requires Run(states, events) && i < |events| && events[i] == Go(t)
    requires t < |states[i].threads| && states[i].threads[t].Callback? && states[i].queue != []
    ensures t < |states[i + 1].threads| && Token()(states[i + 1].threads[t]) == 1 && states[i + 1].running
    ensures !states[i + 1].threads[t].GiveUp?
  {
    RunKeepsInv(states, events, i);
    SumAtLeast(Token(), states[i].threads, t);
  }

  // ----- a run that runs alone -----

  ghost function Leads<T>(): (State<T>, Event<T>, State<T>) -> bool
  {
    (s: State<T>, e: Event<T>, s': State<T>) => Enabled(s, e) && s' == Apply(s, e)
  }

  lemma Extend<T>(states: seq<State<T>>, events: seq<Event<T>>, more: seq<State<T>>, es: seq<Event<T>>)
    requires Run(states, events) && Path(Leads(), more, es) && more[0] == states[|events|]
    ensures Run(states + more[1..], events + es)
  {
    var s, g := states + more[1..], events + es;
    forall i | 0 <= i < |g| ensures Enabled(s[i], g[i]) && s[i + 1] == Apply(s[i], g[i]) {
      if i >= |events| {
        assert Leads()(more[i - |events|], es[i - |events|], more[i - |events| + 1]);
        assert s[i] == more[i - |events|] && g[i] == es[i - |events|];
      }
    }
  }

  /** A run on thread u, from the source to the end of its callback; s0 is where it
      started. */
  ghost predicate Draining<T>(s: State<T>, s0: State<T>, u: nat)
  {
    && u < |s.threads| == |s0.threads| && s.threads == s0.threads[u := s.threads[u]]
    && s.accepted == s0.accepted && s.handled + s.queue == s0.handled + s0.queue && s.active == s0.active
    && (s.threads[u].Piping? || s.threads[u].Callback? || s.threads[u].GiveUp? || s.threads[u].Recheck?
        || s.threads[u].Leave?)
    && (!s.threads[u].Piping? ==> s.queue == [])
    && (s.threads[u].Recheck? || s.threads[u].Leave? ==> !s.running)
  }

  function DrainRank<T>(s: State<T>, u: nat): nat
  {
    if u >= |s.threads| then 0
    else match s.threads[u]
         case Piping => |s.queue| + 4
         case Callback => 3
         case GiveUp => 2
         case Recheck => 1
         case _ => 0
  }

  /** The run is over: everything is handled and the token is given back. */
  ghost predicate Drained<T>(s: State<T>, s0: State<T>, u: nat)
  {
    && u < |s0.threads| && s.threads == s0.threads[u := Idle] && !s.running && s.active == s0.active - 1
    && s.queue == [] && s.handled == s0.handled + s0.queue && s.accepted == s0.accepted
  }

  lemma DrainingGoesOn<T>(s: State<T>, s0: State<T>, u: nat)
    requires Draining(s, s0, u)
    ensures Enabled(s, Go(u))
    ensures var s' := Apply(s, Go(u));
            Drained(s', s0, u) || (Draining(s', s0, u) && DrainRank(s', u) < DrainRank(s, u))
  {
    assert s.handled + [] == s.handled;
    if s.threads[u].Piping? && |s.queue| > 0 {
      assert s.handled + [s.queue[0]] + s.queue[1..] == s.handled + s.queue;
    }
  }

  lemma {:induction false} LoneDraining<T>(s: State<T>, s0: State<T>, u: nat)
    returns (states: seq<State<T>>, events: seq<Event<T>>)
    requires Draining(s, s0, u)
    ensures Path(Leads(), states, events) && 0 < |events| && states[0] == s
    ensures forall i | 0 <= i < |events| :: events[i] == Go(u)
    ensures Drained(states[|events|], s0, u)
    decreases DrainRank(s, u)
  {
    DrainingGoesOn(s, s0, u);
    var s' := Apply(s, Go(u));
    if Drained(s', s0, u) {
      states, events := [s, s'], [Go(u)];
    } else {
      var ss, es := LoneDraining(s', s0, u);
      states, events := [s] + ss, [Go(u)] + es;
    }
  }

  /** A run whose steps nobody interrupts handles everything that is queued, gives the
      token back and ends. */
  lemma LoneRun<T>(states: seq<State<T>>, events: seq<Event<T>>, u: nat)
    returns (states': seq<State<T>>, events': seq<Event<T>>)
    requires Run(states, events) && u < |states[|events|].threads| && states[|events|].threads[u].Piping?
    ensures Run(states', events') && Continues(states, events, states', events', Go(u), e => e == Go(u))
    ensures Drained(states'[|events'|], states[|events|], u)
    ensures states'[|events'|].handled == states'[|events'|].accepted
  {
    var s := states[|events|];
    RunKeepsInv(states, events, |events|);
    var ss, es := LoneDraining(s, s, u);
    Extend(states, events, ss, es);
    states', events' := states + ss[1..], events + es;
    assert states'[|events'|] == ss[|es|];
  }

  /** Up to the launch of the run by a submit that finds no token. */
  lemma LoneLaunch<T>(s: State<T>, t: nat, x: T) returns (states: seq<State<T>>, events: seq<Event<T>>)
    requires AllIdle(s) && t < |s.threads| && !s.running
    ensures Path(Leads(), states, events) && |events| == 4 && states[0] == s && events[0] == Submit(t, x, true)
    ensures forall i | 1 <= i < |events| :: events[i] == Go(t)
    ensures states[4] == s.(queue := s.queue + [x], accepted := s.accepted + [x], running := true,
                            active := s.active + 1, threads := s.threads + [Piping])
  {
    var s1 := Apply(s, Submit(t, x, true));
    var s2 := Apply(s1, Go(t));
    var s3 := Apply(s2, Go(t));
    var s4 := Apply(s3, Go(t));
    assert s3.threads[t := Idle] == s.threads;
    states, events := [s, s1, s2, s3, s4], [Submit(t, x, true), Go(t), Go(t), Go(t)];
  }

  /** A submit to a pipeline at rest, and the run that it launches, handle the item and
      leave the pipeline at rest. */
  lemma LoneSubmit<T>(states: seq<State<T>>, events: seq<Event<T>>, t: nat, x: T)
    returns (states': seq<State<T>>, events': seq<Event<T>>)
    requires Run(states, events) && AllIdle(states[|events|]) && t < |states[|events|].threads|
    ensures Run(states', events')
    ensures var u := |states[|events|].threads|;
            Continues(states, events, states', events', Submit(t, x, true), e => e == Go(t) || e == Go(u))
    ensures var s, s' := states[|events|], states'[|events'|];
            && AllIdle(s') && !s'.running && s'.active == s.active && s'.queue == []
            && s'.handled == s'.accepted == s.accepted + [x]
  {
    var s := states[|events|];
    AtRest(states, events);
    var more, es := LoneLaunch(s, t, x);
    var u := |s.threads|;
    var ss, fs := LoneDraining(more[4], more[4], u);
    Join(Leads(), more, es, ss, fs);
    Extend(states, events, more + ss[1..], es + fs);
    states', events' := states + (more + ss[1..])[1..], events + (es + fs);
    assert states'[|events'|] == ss[|fs|];
  }

  lemma AtRest<T>(states: seq<State<T>>, events: seq<Event<T>>)
    requires Run(states, events) && AllIdle(states[|events|])
    ensures var s := states[|events|]; !s.running && s.queue == [] && s.handled == s.accepted
  {
    var s := states[|events|];
    RunKeepsInv(states, events, |events|);
    SumZero(Token(), s.threads);
    NothingForgotten(states, events, |events|);
  }
}
