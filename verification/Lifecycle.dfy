/** lifecycle.h: admission and draining of activities. State and active count
    share one 64-bit word; waiters use a mutex and a condition variable. Every
    step is one atomic access of the word or one mutex or condition-variable
    operation. Guards are variables (`slots`) that may hold one activity each. */
module Lifecycle {
  import opened Tally
  import opened Runs
  import opened Words

  const ACTIVE_LIMIT := 0x4000_0000_0000_0000   // 2^62, active_mask + 1

  datatype Phase = Stopped | Running | Quiescing | Invalid

  function Code(p: Phase): nat
  {
    match p
    case Stopped => 0
    case Running => 1
    case Quiescing => 2
    case Invalid => 3
  }

  /** The state in the two high bits, the count in the 62 low ones. */
  function Encode(p: Phase, active: nat): (w: nat)
    ensures w < WORD
    ensures DecodePhase(w) == p && DecodeActive(w) == active % ACTIVE_LIMIT
  {
    Code(p) * ACTIVE_LIMIT + active % ACTIVE_LIMIT
  }

  function DecodePhase(w: nat): Phase
  {
    if w / ACTIVE_LIMIT == 0 then Stopped
    else if w / ACTIVE_LIMIT == 1 then Running
    else if w / ACTIVE_LIMIT == 2 then Quiescing
    else Invalid
  }

  function DecodeActive(w: nat): nat { w % ACTIVE_LIMIT }

  predicate DrainedWord(w: nat) { DecodePhase(w) != Running && DecodeActive(w) == 0 }

  datatype Mutex = Unlocked | LockedBy(t: nat)

  /** What a guard operation does after the release inside it. */
  datatype After = Done | Transfer(from: nat, to: nat)

  /** wait_drained, wait_drained_for, and the latter after its time has passed. */
  datatype Waiter = Untimed | Timed | Expired

  datatype Stage = ToLock | ToNotify | ToUnlock

  datatype Local =
    | Idle
    | AcquireLoad(slot: nat)
    | AcquireSwap(slot: nat, cur: nat)
    | QuiesceLoad
    | QuiesceSwap(cur: nat)
    | StopLoad
    | StopSwap(cur: nat)
    | Release(after: After)                  // owner_ exchanged, about to fetch_sub
    | Notify(stage: Stage, after: After)     // notify_drained
    | Moving(after: After)
    | WaitLock(w: Waiter)
    | WaitCheck(w: Waiter)
    | WaitSleep(w: Waiter)                   // saw not drained, still holds the mutex
    | Sleeping(w: Waiter)
    | WaitUnlock(ok: bool)                   // about to return ok

  datatype State = State(control: nat, slots: seq<bool>, threads: seq<Local>, mutex: Mutex)

  datatype Event =
    | Start(t: nat)
    | TryAcquire(t: nat, slot: nat)
    | Drop(t: nat, slot: nat)               // release() or destruction of a guard
    | Move(t: nat, from: nat, to: nat)      // to = std::move(from)
    | Quiesce(t: nat)
    | Stop(t: nat)
    | Wait(t: nat, timed: bool)             // wait_drained, wait_drained_for
    | Go(t: nat)
    | Wake(t: nat)                          // spurious wakeup
    | Expire(t: nat)                        // the time of wait_drained_for has passed

  function Goto(s: State, t: nat, l: Local): State
    requires t < |s.threads|
  {
    s.(threads := s.threads[t := l])
  }

  function Next(after: After): Local
  {
    if after.Done? then Idle else Moving(after)
  }

  function Awake(l: Local): Local { if l.Sleeping? then WaitLock(l.w) else l }

  function WakeAll(ts: seq<Local>): (r: seq<Local>)
    ensures |r| == |ts| && forall t | 0 <= t < |ts| :: r[t] == Awake(ts[t])
  {
    seq(|ts|, t requires 0 <= t < |ts| => Awake(ts[t]))
  }

  /** try_acquire after it loaded or re-read the word. */
  function AcquireSaw(slot: nat, cur: nat): Local
  {
    if DecodePhase(cur) != Running || DecodeActive(cur) == ACTIVE_LIMIT - 1 then Idle else AcquireSwap(slot, cur)
  }

  function QuiesceSaw(cur: nat): Local
  {
    if DecodePhase(cur).Stopped? || DecodePhase(cur).Quiescing? then Idle else QuiesceSwap(cur)
  }

  function StopSaw(cur: nat): Local
  {
    if DecodePhase(cur).Stopped? || !DecodePhase(cur).Quiescing? || DecodeActive(cur) != 0 then Idle
    else StopSwap(cur)
  }

  function ReleaseStep(s: State, t: nat, after: After): State
    requires t < |s.threads|
  {
    var notify := DecodeActive(s.control) == 1 && DecodePhase(s.control) == Quiescing;
    Goto(s, t, if notify then Notify(ToLock, after) else Next(after)).(control := Word(s.control - 1))
  }

  /** One step of thread t. A compare_exchange_weak that fails spuriously
      re-reads the word it expected and is at the same swap again, so it changes
      nothing. The steps that need the mutex are enabled only when it is free. */
  function Step(s: State, t: nat): State
    requires t < |s.threads| && InRange(s, s.threads[t])
  {
    match s.threads[t]
    case Idle => s
    case AcquireLoad(slot) => Goto(s, t, AcquireSaw(slot, s.control))
    case AcquireSwap(slot, cur) =>
      if s.control == cur then
        Goto(s, t, Idle).(control := Encode(Running, DecodeActive(cur) + 1), slots := s.slots[slot := true])
      else Goto(s, t, AcquireSaw(slot, s.control))
    case QuiesceLoad => Goto(s, t, QuiesceSaw(s.control))
    case QuiesceSwap(cur) =>
      if s.control == cur then
        Goto(s, t, if DecodeActive(cur) == 0 then Notify(ToLock, Done) else Idle)
        .(control := Encode(Quiescing, DecodeActive(cur)))
      else Goto(s, t, QuiesceSaw(s.control))
    case StopLoad => Goto(s, t, StopSaw(s.control))
    case StopSwap(cur) =>
      if s.control == cur then Goto(s, t, Idle).(control := Encode(Stopped, 0))
      else Goto(s, t, StopSaw(s.control))
    case Release(after) => ReleaseStep(s, t, after)
    case Notify(ToLock, after) => Goto(s, t, Notify(ToNotify, after)).(mutex := LockedBy(t))
    case Notify(ToNotify, after) => Goto(s.(threads := WakeAll(s.threads)), t, Notify(ToUnlock, after))
    case Notify(ToUnlock, after) => Goto(s, t, Next(after)).(mutex := Unlocked)
    case Moving(after) =>
      if after.Done? then Goto(s, t, Idle)
      else Goto(s, t, Idle).(slots := s.slots[after.from := false][after.to := s.slots[after.from]])
    case WaitLock(w) => Goto(s, t, WaitCheck(w)).(mutex := LockedBy(t))
    case WaitCheck(w) =>
      Goto(s, t, if DrainedWord(s.control) then WaitUnlock(true)
                 else if w.Expired? then WaitUnlock(false) else WaitSleep(w))
    case WaitSleep(w) => Goto(s, t, Sleeping(w)).(mutex := Unlocked)
    case Sleeping(_) => s
    case WaitUnlock(_) => Goto(s, t, Idle).(mutex := Unlocked)
  }

  /** The guards a running operation still works on. */
  function InUse(l: Local): set<nat>
  {
    match l
    case AcquireLoad(i) => {i}
    case AcquireSwap(i, _) => {i}
    case Release(after) => Involved(after)
    case Notify(_, after) => Involved(after)
    case Moving(after) => Involved(after)
    case _ => {}
  }

  function Involved(after: After): set<nat>
  {
    if after.Done? then {} else {after.from, after.to}
  }

  /** A guard is used by one thread at a time. */
  predicate Unused(s: State, slot: nat)
  {
    forall t | 0 <= t < |s.threads| :: slot !in InUse(s.threads[t])
  }

  predicate InRange(s: State, l: Local)
  {
    match l
    case AcquireLoad(i) => i < |s.slots|
    case AcquireSwap(i, _) => i < |s.slots|
    case Release(after) => AfterInRange(s, after)
    case Notify(_, after) => AfterInRange(s, after)
    case Moving(after) => AfterInRange(s, after)
    case _ => true
  }

  predicate AfterInRange(s: State, after: After)
  {
    after.Transfer? ==> after.from < |s.slots| && after.to < |s.slots| && after.from != after.to
  }

  predicate Enabled(s: State, e: Event)
  {
    && e.t < |s.threads|
    && match e
       case Go(t) =>
         && !s.threads[t].Idle? && InRange(s, s.threads[t])
         && (NeedsMutex(s.threads[t]) ==> s.mutex == Unlocked)
       case Wake(t) => s.threads[t].Sleeping?
       case Expire(t) => s.threads[t].Sleeping? && s.threads[t].w.Timed?
       case TryAcquire(t, slot) => s.threads[t].Idle? && slot < |s.slots| && !s.slots[slot] && Unused(s, slot)
       case Drop(t, slot) => s.threads[t].Idle? && slot < |s.slots| && Unused(s, slot)
       case Move(t, from, to) =>
         && s.threads[t].Idle? && from < |s.slots| && to < |s.slots|
         && Unused(s, from) && Unused(s, to)
       case _ => s.threads[e.t].Idle?
  }

  /** guard::release: exchange owner_, then release_activity if it was set. */
  function Clear(s: State, t: nat, slot: nat, after: After): State
    requires t < |s.threads| && slot < |s.slots|
  {
    Goto(s, t, if s.slots[slot] then Release(after) else Next(after)).(slots := s.slots[slot := false])
  }

  function Apply(s: State, e: Event): State
    requires Enabled(s, e)
  {
    match e
    case Start(t) => if s.control == Encode(Stopped, 0) then s.(control := Encode(Running, 0)) else s
    case TryAcquire(t, slot) => Goto(s, t, AcquireLoad(slot))
    case Drop(t, slot) => Clear(s, t, slot, Done)
    case Move(t, from, to) => if from == to then s else Clear(s, t, to, Transfer(from, to))
    case Quiesce(t) => Goto(s, t, QuiesceLoad)
    case Stop(t) => Goto(s, t, StopLoad)
    case Wait(t, timed) => Goto(s, t, WaitLock(if timed then Timed else Untimed))
    case Go(t) => Step(s, t)
    case Wake(t) => Goto(s, t, Awake(s.threads[t]))
    case Expire(t) => Goto(s, t, WaitLock(Expired))
  }

  predicate Init(s: State)
  {
    && s.control == Encode(Stopped, 0) && s.mutex == Unlocked
    && (forall i | 0 <= i < |s.slots| :: !s.slots[i])
    && (forall t | 0 <= t < |s.threads| :: s.threads[t].Idle?)
  }

  ghost predicate Run(states: seq<State>, events: seq<Event>)
  {
    && |states| == |events| + 1
    && Init(states[0])
    && forall i | 0 <= i < |events| ::
         Enabled(states[i], events[i]) && states[i + 1] == Apply(states[i], events[i])
  }

  // ----- the invariant -----

  ghost function LiveW(): bool -> int { (b: bool) => if b then 1 else 0 }
  ghost function ReleaseW(): Local -> int { (l: Local) => if l.Release? then 1 else 0 }

  /** Guards that hold an activity, and releases between their exchange and
      their decrement. */
  ghost function Guards(s: State): int { Sum(LiveW(), s.slots) + Sum(ReleaseW(), s.threads) }

  ghost predicate WordOk(s: State)
  {
    && s.control < WORD
    && DecodePhase(s.control) != Invalid
    && DecodeActive(s.control) == Guards(s)
    && (DecodePhase(s.control) == Stopped ==> Guards(s) == 0)
  }

  predicate NeedsMutex(l: Local)
  {
    l.WaitLock? || (l.Notify? && l.stage.ToLock?)
  }

  predicate HoldsMutex(l: Local)
  {
    l.WaitCheck? || l.WaitSleep? || l.WaitUnlock? || (l.Notify? && !l.stage.ToLock?)
  }

  /** The guard that a running operation is going to fill is empty. */
  predicate TargetEmpty(s: State, l: Local)
    requires InRange(s, l)
  {
    match l
    case AcquireLoad(i) => !s.slots[i]
    case AcquireSwap(i, _) => !s.slots[i]
    case Release(after) => after.Transfer? ==> !s.slots[after.to]
    case Notify(_, after) => after.Transfer? ==> !s.slots[after.to]
    case Moving(after) => after.Transfer? ==> !s.slots[after.to]
    case _ => true
  }

  predicate SwapOk(l: Local)
  {
    && (l.AcquireSwap? ==> DecodePhase(l.cur) == Running && DecodeActive(l.cur) < ACTIVE_LIMIT - 1)
    && (l.QuiesceSwap? ==> DecodePhase(l.cur) != Stopped && DecodePhase(l.cur) != Quiescing)
    && (l.StopSwap? ==> DecodePhase(l.cur) == Quiescing && DecodeActive(l.cur) == 0)
  }

  predicate LocalOk(s: State, t: nat, l: Local)
  {
    && InRange(s, l)
    && SwapOk(l)
    && TargetEmpty(s, l)
    && (HoldsMutex(l) <==> s.mutex == LockedBy(t))
  }

  /** Two threads never work on the same guard. */
  ghost predicate Disjoint(s: State)
  {
    forall t, u | 0 <= t < |s.threads| && 0 <= u < |s.threads| && t != u ::
      InUse(s.threads[t]) !! InUse(s.threads[u])
  }

  predicate Notifying(l: Local) { l.Notify? && !l.stage.ToUnlock? }

  predicate Asleep(l: Local) { l.WaitSleep? || l.Sleeping? }

  /** A waiter that decided to sleep while the lifecycle is drained has a
      notification still to come. */
  ghost predicate NoLostWakeup(s: State)
  {
    DrainedWord(s.control) && (exists t :: 0 <= t < |s.threads| && Asleep(s.threads[t]))
    ==> exists u :: 0 <= u < |s.threads| && Notifying(s.threads[u])
  }

  ghost predicate Inv(s: State)
  {
    && WordOk(s)
    && Disjoint(s)
    && NoLostWakeup(s)
    && (forall t | 0 <= t < |s.threads| :: LocalOk(s, t, s.threads[t]))
  }

  // ----- every step keeps the invariant -----

  lemma WakeAllSums(ts: seq<Local>)
    ensures Sum(ReleaseW(), WakeAll(ts)) == Sum(ReleaseW(), ts)
  {
    SumPointwise(ReleaseW(), ts, WakeAll(ts));
    SumPointwise(ReleaseW(), WakeAll(ts), ts);
  }

  lemma OneSlot(s: State, i: nat, b: bool)
    requires i < |s.slots|
    ensures Sum(LiveW(), s.slots[i := b]) == Sum(LiveW(), s.slots) - LiveW()(s.slots[i]) + LiveW()(b)
    ensures 0 <= LiveW()(s.slots[i]) <= Sum(LiveW(), s.slots)
  {
    SumUpdate(LiveW(), s.slots, i, b);
    SumAtLeast(LiveW(), s.slots, i);
  }

  lemma OneThread(s: State, t: nat, l: Local)
    requires t < |s.threads|
    ensures Sum(ReleaseW(), s.threads[t := l])
            == Sum(ReleaseW(), s.threads) - ReleaseW()(s.threads[t]) + ReleaseW()(l)
    ensures 0 <= ReleaseW()(s.threads[t]) <= Sum(ReleaseW(), s.threads)
    ensures 0 <= Sum(LiveW(), s.slots)
  {
    SumUpdate(ReleaseW(), s.threads, t, l);
    SumAtLeast(ReleaseW(), s.threads, t);
    SumNonNegative(LiveW(), s.slots);
  }

  /** A release takes one off the count and leaves the state bits alone. */
  lemma ReleaseCounts(s: State, t: nat)
    requires Inv(s) && t < |s.threads| && s.threads[t].Release?
    ensures 0 < DecodeActive(s.control)
    ensures var w := Word(s.control - 1);
            DecodePhase(w) == DecodePhase(s.control) && DecodeActive(w) == DecodeActive(s.control) - 1
  {
    OneThread(s, t, Idle);
  }

  lemma CallWord(s: State, e: Event)
    requires Inv(s) && Enabled(s, e) && !e.Go?
    ensures WordOk(Apply(s, e))
  {
    OneThread(s, e.t, Apply(s, e).threads[e.t]);
    if e.Drop? {
      OneSlot(s, e.slot, false);
    } else if e.Move? {
      OneSlot(s, e.to, false);
    }
  }

  lemma NotifyAllSums(s: State, t: nat, after: After)
    requires t < |s.threads| && s.threads[t].Notify?
    ensures Sum(ReleaseW(), WakeAll(s.threads)[t := Notify(ToUnlock, after)]) == Sum(ReleaseW(), s.threads)
  {
    WakeAllSums(s.threads);
    SumUpdate(ReleaseW(), WakeAll(s.threads), t, Notify(ToUnlock, after));
  }

  lemma MovingSums(slots: seq<bool>, from: nat, to: nat)
    requires from < |slots| && to < |slots| && from != to && !slots[to]
    ensures Sum(LiveW(), slots[from := false][to := slots[from]]) == Sum(LiveW(), slots)
  {
    SumUpdate(LiveW(), slots, from, false);
    SumUpdate(LiveW(), slots[from := false], to, slots[from]);
  }

  lemma GoWord(s: State, t: nat)
    requires Inv(s) && Enabled(s, Go(t))
    ensures WordOk(Step(s, t))
  {
    var l := s.threads[t];
    if l.Release? {
      ReleaseCounts(s, t);
      OneThread(s, t, Step(s, t).threads[t]);
    } else if l.AcquireSwap? && s.control == l.cur {
      AcquireWord(s, t);
    } else {
      GuardsUnchanged(s, t);
      PhaseWord(s, t);
    }
  }

  lemma AcquireWord(s: State, t: nat)
    requires Inv(s) && Enabled(s, Go(t)) && s.threads[t].AcquireSwap? && s.control == s.threads[t].cur
    ensures WordOk(Step(s, t))
  {
    assert LocalOk(s, t, s.threads[t]);
    OneThread(s, t, Idle);
    OneSlot(s, s.threads[t].slot, true);
  }

  /** Apart from acquire and release, a step may change the state bits only. */
  lemma PhaseWord(s: State, t: nat)
    requires Inv(s) && Enabled(s, Go(t)) && !s.threads[t].Release?
    requires s.threads[t].AcquireSwap? ==> s.control != s.threads[t].cur
    ensures var w := Step(s, t).control;
            && w < WORD && DecodePhase(w) != Invalid && DecodeActive(w) == DecodeActive(s.control)
            && (DecodePhase(w) == Stopped ==> DecodeActive(w) == 0)
  {
    assert LocalOk(s, t, s.threads[t]);
  }

  lemma GuardsUnchanged(s: State, t: nat)
    requires Inv(s) && Enabled(s, Go(t)) && !s.threads[t].Release?
    requires s.threads[t].AcquireSwap? ==> s.control != s.threads[t].cur
    ensures Guards(Step(s, t)) == Guards(s)
  {
    var l := s.threads[t];
    assert LocalOk(s, t, l);
    if l.Notify? {
      NotifyAllSums(s, t, l.after);
    }
    if l.Moving? && l.after.Transfer? {
      MovingSums(s.slots, l.after.from, l.after.to);
    }
    OneThread(s, t, Step(s, t).threads[t]);
  }

  /** No step makes a thread use a guard that another one is using. */
  lemma DisjointKept(s: State, e: Event)
    requires Inv(s) && Enabled(s, e)
    ensures Disjoint(Apply(s, e))
  {
    var s' := Apply(s, e);
    forall t, u | 0 <= t < |s'.threads| && 0 <= u < |s'.threads| && t != u
      ensures InUse(s'.threads[t]) !! InUse(s'.threads[u])
    {
      UsesKept(s, e, t);
      UsesKept(s, e, u);
      assert InUse(s.threads[t]) !! InUse(s.threads[u]);
    }
  }

  /** A thread's guards in use grow only by guards that were unused. */
  lemma UsesKept(s: State, e: Event, t: nat)
    requires Enabled(s, e) && t < |s.threads|
    ensures |Apply(s, e).threads| == |s.threads|
    ensures t != e.t ==> InUse(Apply(s, e).threads[t]) == InUse(s.threads[t])
    ensures forall i | i in InUse(Apply(s, e).threads[t]) :: i in InUse(s.threads[t]) || Unused(s, i)
  {
    if e.Go? { StepUses(s, e.t); }
  }

  lemma StepUses(s: State, t: nat)
    requires Enabled(s, Go(t))
    ensures |Step(s, t).threads| == |s.threads| && InUse(Step(s, t).threads[t]) <= InUse(s.threads[t])
  {}

  lemma CallLocal(s: State, e: Event)
    requires Inv(s) && Enabled(s, e) && !e.Go?
    ensures LocalOk(Apply(s, e), e.t, Apply(s, e).threads[e.t])
  {
    assert LocalOk(s, e.t, s.threads[e.t]);
  }

  lemma GoLocal(s: State, t: nat)
    requires Inv(s) && Enabled(s, Go(t))
    ensures LocalOk(Step(s, t), t, Step(s, t).threads[t])
  {
    assert LocalOk(s, t, s.threads[t]);
    GoMutex(s, t);
    GoSlots(s, t);
  }

  lemma GoMutex(s: State, t: nat)
    requires Enabled(s, Go(t)) && LocalOk(s, t, s.threads[t])
    ensures |Step(s, t).threads| == |s.threads|
    ensures HoldsMutex(Step(s, t).threads[t]) <==> Step(s, t).mutex == LockedBy(t)
  {}

  lemma GoSlots(s: State, t: nat)
    requires Enabled(s, Go(t)) && LocalOk(s, t, s.threads[t])
    ensures |Step(s, t).threads| == |s.threads|
    ensures InRange(Step(s, t), Step(s, t).threads[t])
    ensures TargetEmpty(Step(s, t), Step(s, t).threads[t])
  {}

  /** A step leaves alone the guards that another thread is using, and the
      mutex if that thread holds it or does not need it. */
  lemma Others(s: State, e: Event, u: nat)
    requires Enabled(s, e) && u < |s.threads| && u != e.t && InUse(s.threads[e.t]) !! InUse(s.threads[u])
    requires LocalOk(s, e.t, s.threads[e.t])
    ensures |Apply(s, e).slots| == |s.slots| && |Apply(s, e).threads| == |s.threads|
    ensures forall i | i in InUse(s.threads[u]) && i < |s.slots| :: Apply(s, e).slots[i] == s.slots[i]
    ensures Apply(s, e).threads[u] == s.threads[u]
            || (s.threads[u].Sleeping? && Apply(s, e).threads[u].WaitLock?)
    ensures Apply(s, e).mutex == LockedBy(u) <==> s.mutex == LockedBy(u)
  {}

  lemma LocalsKept(s: State, e: Event)
    requires Inv(s) && Enabled(s, e)
    ensures var s' := Apply(s, e); forall u | 0 <= u < |s'.threads| :: LocalOk(s', u, s'.threads[u])
  {
    var s' := Apply(s, e);
    forall u | 0 <= u < |s'.threads| ensures LocalOk(s', u, s'.threads[u]) {
      if u != e.t { OtherLocal(s, e, u); }
      else if e.Go? { GoLocal(s, u); }
      else { CallLocal(s, e); }
    }
  }

  lemma OtherLocal(s: State, e: Event, u: nat)
    requires Inv(s) && Enabled(s, e) && u < |s.threads| && u != e.t
    ensures var s' := Apply(s, e); u < |s'.threads| && LocalOk(s', u, s'.threads[u])
  {
    assert LocalOk(s, u, s.threads[u]) && LocalOk(s, e.t, s.threads[e.t]);
    assert InUse(s.threads[e.t]) !! InUse(s.threads[u]);
    Others(s, e, u);
  }

  lemma WakeupKept(s: State, e: Event)
    requires Inv(s) && Enabled(s, e)
    ensures NoLostWakeup(Apply(s, e))
  {
    var t := e.t;
    var s' := Apply(s, e);
    if e.Go? && s.threads[t].Notify? && s.threads[t].stage.ToNotify? {
      NotifierWakesAll(s, t);
    } else if DrainedWord(s'.control) && !Notifying(s'.threads[t])
              && exists v :: 0 <= v < |s'.threads| && Asleep(s'.threads[v])
    {
      var v :| 0 <= v < |s'.threads| && Asleep(s'.threads[v]);
      DrainedBefore(s, e);
      if v != t { Others(s, e, v); } else { SleepsUndrained(s, e); }
      var u :| 0 <= u < |s.threads| && Notifying(s.threads[u]);
      if u != t { Others(s, e, u); }
    }
  }

  /** The notifier holds the mutex, so nobody is between deciding to sleep and
      sleeping, and it wakes everybody who sleeps. */
  lemma NotifierWakesAll(s: State, t: nat)
    requires Inv(s) && Enabled(s, Go(t)) && s.threads[t].Notify? && s.threads[t].stage.ToNotify?
    ensures forall v | 0 <= v < |Step(s, t).threads| :: !Asleep(Step(s, t).threads[v])
  {
    assert LocalOk(s, t, s.threads[t]);
    forall v | 0 <= v < |Step(s, t).threads| ensures !Asleep(Step(s, t).threads[v]) {
      assert LocalOk(s, v, s.threads[v]);
    }
  }

  lemma SleepsUndrained(s: State, e: Event)
    requires Enabled(s, e) && DrainedWord(s.control)
    requires Asleep(Apply(s, e).threads[e.t])
    ensures Asleep(s.threads[e.t])
  {}

  /** Only the last release while quiescing and an idle quiesce drain the
      lifecycle, and both go on to notify. */
  lemma DrainedBefore(s: State, e: Event)
    requires Inv(s) && Enabled(s, e)
    requires DrainedWord(Apply(s, e).control) && !Notifying(Apply(s, e).threads[e.t])
    ensures DrainedWord(s.control)
  {
    assert LocalOk(s, e.t, s.threads[e.t]);
    if e.Go? && s.threads[e.t].Release? { ReleaseCounts(s, e.t); }
  }

  lemma StepKeepsInv(s: State, e: Event)
    requires Inv(s) && Enabled(s, e)
    ensures Inv(Apply(s, e))
  {
    if e.Go? { GoWord(s, e.t); } else { CallWord(s, e); }
    DisjointKept(s, e);
    LocalsKept(s, e);
    WakeupKept(s, e);
  }

  lemma {:induction false} RunKeepsInv(states: seq<State>, events: seq<Event>, i: nat)
    requires Run(states, events) && i < |states|
    ensures Inv(states[i])
  {
    if i == 0 {
      SumZero(LiveW(), states[0].slots);
      SumZero(ReleaseW(), states[0].threads);
    } else {
      RunKeepsInv(states, events, i - 1);
      StepKeepsInv(states[i - 1], events[i - 1]);
    }
  }

  // ----- what holds over every run -----

  /** The count in the word is the number of live guards, plus the releases that
      have given up their guard and not yet decremented it; a stopped lifecycle
      has none. */
  lemma CountIsGuards(states: seq<State>, events: seq<Event>, i: nat)
    requires Run(states, events) && i < |states|
    ensures DecodeActive(states[i].control) == Guards(states[i])
    ensures DecodePhase(states[i].control) != Invalid
    ensures DecodePhase(states[i].control) == Stopped ==>
              forall k | 0 <= k < |states[i].slots| :: !states[i].slots[k]
  {
    RunKeepsInv(states, events, i);
    var s := states[i];
    SumNonNegative(ReleaseW(), s.threads);
    if DecodePhase(s.control) == Stopped {
      forall k | 0 <= k < |s.slots| ensures !s.slots[k] {
        SumAtLeast(LiveW(), s.slots, k);
      }
    }
  }

  /** release_activity always finds a positive count and never borrows from the
      state bits, so its two assertions hold. */
  lemma ReleaseIsSafe(states: seq<State>, events: seq<Event>, i: nat, t: nat)
    requires Run(states, events) && i < |states| && t < |states[i].threads| && states[i].threads[t].Release?
    ensures DecodeActive(states[i].control) != 0 && DecodePhase(states[i].control) != Stopped
    ensures DecodePhase(Word(states[i].control - 1)) == DecodePhase(states[i].control)
  {
    RunKeepsInv(states, events, i);
    ReleaseCounts(states[i], t);
  }

  /** Drain has no lost wakeup: whenever the lifecycle is drained and a waiter
      sleeps, some thread is still going to notify. */
  lemma DrainWakesEveryone(states: seq<State>, events: seq<Event>, i: nat, t: nat)
    requires Run(states, events) && i < |states| && t < |states[i].threads|
    requires DrainedWord(states[i].control) && Asleep(states[i].threads[t])
    ensures exists u :: 0 <= u < |states[i].threads| && Notifying(states[i].threads[u])
  {
    RunKeepsInv(states, events, i);
  }

  predicate Starts(s: State, e: Event)
  {
    e.Start? && s.control == Encode(Stopped, 0)
  }

  predicate Closed(s: State)
  {
    DecodePhase(s.control) != Running
  }

  lemma ClosedStep(s: State, e: Event)
    requires Inv(s) && Enabled(s, e) && Closed(s) && !Starts(s, e)
    ensures Closed(Apply(s, e))
    ensures DecodeActive(Apply(s, e).control) <= DecodeActive(s.control)
  {
    assert LocalOk(s, e.t, s.threads[e.t]);
    if e.Go? && s.threads[e.t].Release? { ReleaseCounts(s, e.t); }
  }

  /** From s to s', both closed, no guard was added; a drained word stays drained. */
  predicate Wanes(s: State, s': State)
  {
    && Closed(s') && DecodeActive(s'.control) <= DecodeActive(s.control)
    && (DrainedWord(s.control) ==> DrainedWord(s'.control))
  }

  lemma ClosedStepAt(states: seq<State>, events: seq<Event>, k: nat)
    requires Run(states, events) && k < |events| && Closed(states[k]) && !Starts(states[k], events[k])
    ensures Wanes(states[k], states[k + 1])
  {
    RunKeepsInv(states, events, k);
    ClosedStep(states[k], events[k]);
  }

  lemma WanesOn(a: State, b: State, c: State)
    requires Wanes(a, b) && Wanes(b, c)
    ensures Wanes(a, c)
  {}

  /** Between a quiesce and the next successful start no acquire succeeds and
      the count never grows; once drained, it stays drained. */
  lemma {:induction false} ClosedUntilStart(states: seq<State>, events: seq<Event>, i: nat, j: nat)
    requires Run(states, events) && i <= j < |states| && Closed(states[i])
    requires forall k | i <= k < j :: !Starts(states[k], events[k])
    ensures Wanes(states[i], states[j])
    decreases j
  {
    if i < j {
      ClosedUntilStart(states, events, i, j - 1);
      ClosedStepAt(states, events, j - 1);
      WanesOn(states[i], states[j - 1], states[j]);
    }
  }

  /** No step fills a guard while admission is closed, except a move. */
  lemma ClosedAdmitsNothing(states: seq<State>, events: seq<Event>, i: nat)
    requires Run(states, events) && i < |events| && Closed(states[i])
    requires events[i].t < |states[i].threads| && !states[i].threads[events[i].t].Moving?
    ensures |states[i + 1].slots| == |states[i].slots|
    ensures forall k | 0 <= k < |states[i].slots| :: states[i + 1].slots[k] ==> states[i].slots[k]
  {
    RunKeepsInv(states, events, i);
    assert LocalOk(states[i], events[i].t, states[i].threads[events[i].t]);
  }

  // ----- what one call sees -----

  /** Event k is a call of thread t that is not over before state j. */
  ghost predicate Calling(states: seq<State>, events: seq<Event>, t: nat, k: nat, j: nat)
  {
    && k < j < |states| == |events| + 1 && events[k].t == t && t < |states[k].threads| && states[k].threads[t].Idle?
    && forall m | k < m < j :: t < |states[m].threads| && !states[m].threads[t].Idle?
  }

  /** The step of a run, and what holds before it. */
  lemma StepAt(states: seq<State>, events: seq<Event>, m: nat)
    requires Run(states, events) && m < |events|
    ensures Enabled(states[m], events[m]) && states[m + 1] == Apply(states[m], events[m])
    ensures |states[m].threads| == |states[m + 1].threads|
    ensures forall t: nat | t < |states[m].threads| :: LocalOk(states[m], t, states[m].threads[t])
  {
    RunKeepsInv(states, events, m);
    assert LocalOk(states[m], events[m].t, states[m].threads[events[m].t]);
  }

  /** A thread moves only by its own events and when it is woken. */
  lemma OtherThread(s: State, e: Event, u: nat)
    requires Enabled(s, e) && u < |s.threads| && u != e.t
    ensures |Apply(s, e).threads| == |s.threads|
    ensures Apply(s, e).threads[u] == s.threads[u] || Apply(s, e).threads[u] == Awake(s.threads[u])
  {}

  /** Where a wait may be, and what it knows. */
  predicate Waits(l: Local, timed: bool)
  {
    || (l.WaitLock? && (l.w.Untimed? <==> !timed))
    || (l.WaitCheck? && (l.w.Untimed? <==> !timed))
    || (l.WaitSleep? && (l.w.Untimed? <==> !timed))
    || (l.Sleeping? && (l.w.Untimed? <==> !timed))
    || (l.WaitUnlock? && (l.ok || timed))
  }

  lemma WaitStep(s: State, e: Event, t: nat, timed: bool)
    requires Enabled(s, e) && t < |s.threads| && Waits(s.threads[t], timed)
    ensures var s' := Apply(s, e);
            && |s'.threads| == |s.threads|
            && (Waits(s'.threads[t], timed) || (s.threads[t].WaitUnlock? && s'.threads[t].Idle?))
            && (s'.threads[t].WaitUnlock? && s'.threads[t].ok && !s.threads[t].WaitUnlock? ==> DrainedWord(s.control))
  {
    if e.t != t { OtherThread(s, e, t); }
  }

  /** Not about to return true. */
  predicate Unsure(s: State, t: nat, timed: bool)
  {
    t < |s.threads| && Waits(s.threads[t], timed) && !(s.threads[t].WaitUnlock? && s.threads[t].ok)
  }

  lemma UnsureStep(states: seq<State>, events: seq<Event>, t: nat, timed: bool, m: nat)
    requires Run(states, events) && m < |events| && Unsure(states[m], t, timed)
    requires t < |states[m + 1].threads| && !states[m + 1].threads[t].Idle?
    ensures Unsure(states[m + 1], t, timed) || DrainedWord(states[m].control)
  {
    StepAt(states, events, m);
    WaitStep(states[m], events[m], t, timed);
  }

  lemma ReturnsSure(states: seq<State>, events: seq<Event>, t: nat, timed: bool, j: nat)
    requires Run(states, events) && 0 < j < |states| && t < |states[j].threads| && states[j].threads[t].Idle?
    requires t < |states[j - 1].threads| && !states[j - 1].threads[t].Idle?
    requires timed ==> states[j - 1].threads[t] == WaitUnlock(true)
    ensures !Unsure(states[j - 1], t, timed)
  {
    if Unsure(states[j - 1], t, timed) {
      StepAt(states, events, j - 1);
      WaitStep(states[j - 1], events[j - 1], t, timed);
    }
  }

  lemma WaitSaw(states: seq<State>, events: seq<Event>, t: nat, timed: bool, k: nat, j: nat)
    requires Run(states, events) && Calling(states, events, t, k, j) && events[k] == Wait(t, timed) && k + 1 < j
    ensures Unsure(states[j - 1], t, timed) || Saw(states, k, j - 1, (s: State) => DrainedWord(s.control))
  {
    StepAt(states, events, k);
    forall m | k < m < j - 1 && Unsure(states[m], t, timed)
      ensures Unsure(states[m + 1], t, timed) || DrainedWord(states[m].control)
    {
      UnsureStep(states, events, t, timed, m);
    }
    UntilSaw(states, k, j - 1, s => Unsure(s, t, timed), (s: State) => DrainedWord(s.control));
  }

  /** wait_drained, and wait_drained_for when it returns true, saw the lifecycle
      drained at a moment of the call; so it still is, unless a start came since. */
  lemma WaitSawDrained(states: seq<State>, events: seq<Event>, t: nat, timed: bool, k: nat, j: nat) returns (m: nat)
    requires Run(states, events) && Calling(states, events, t, k, j) && events[k] == Wait(t, timed)
    requires t < |states[j].threads| && states[j].threads[t].Idle?
    requires timed ==> states[j - 1].threads[t] == WaitUnlock(true)
    ensures k < m < j && DrainedWord(states[m].control)
    ensures (forall q | m <= q < j :: !Starts(states[q], events[q])) ==> DrainedWord(states[j].control)
  {
    StepAt(states, events, k);
    WaitSaw(states, events, t, timed, k, j);
    ReturnsSure(states, events, t, timed, j);
    m :| k < m <= j - 1 && ((s: State) => DrainedWord(s.control))(states[m]);
    if forall q | m <= q < j :: !Starts(states[q], events[q]) { ClosedUntilStart(states, events, m, j); }
  }

  /** A wait whose time has not passed. */
  predicate InTime(s: State, t: nat)
  {
    && t < |s.threads| && Waits(s.threads[t], true)
    && !(s.threads[t].WaitUnlock? && !s.threads[t].ok)
    && (!s.threads[t].WaitUnlock? ==> !s.threads[t].w.Expired?)
  }

  predicate TimePassed(s: State, t: nat) { t < |s.threads| && s.threads[t] == WaitLock(Expired) }

  lemma InTimeStep(s: State, e: Event, t: nat)
    requires Enabled(s, e) && InTime(s, t)
    ensures var s' := Apply(s, e);
            t < |s'.threads| && (InTime(s', t) || s'.threads[t].Idle? || (TimePassed(s', t) && e == Expire(t)))
  {
    if e.t != t { OtherThread(s, e, t); }
  }

  /** wait_drained_for returns false only after its time has passed. */
  lemma FalseIsTimeout(states: seq<State>, events: seq<Event>, t: nat, k: nat, j: nat)
    requires Run(states, events) && Calling(states, events, t, k, j) && events[k] == Wait(t, true)
    requires t < |states[j].threads| && states[j].threads[t] == WaitUnlock(false)
    ensures Saw(states, k, j, s => TimePassed(s, t))
  {
    StepAt(states, events, k);
    forall m | k < m < j && InTime(states[m], t) ensures InTime(states[m + 1], t) || TimePassed(states[m + 1], t) {
      StepAt(states, events, m);
      InTimeStep(states[m], events[m], t);
    }
    UntilSaw(states, k, j, s => InTime(s, t), s => TimePassed(s, t));
  }

  // ----- try_acquire -----

  predicate Refusing(s: State)
  {
    DecodePhase(s.control) != Running || DecodeActive(s.control) == ACTIVE_LIMIT - 1
  }

  predicate Acquires(l: Local, slot: nat)
  {
    (l.AcquireLoad? && l.slot == slot) || (l.AcquireSwap? && l.slot == slot)
  }

  lemma AcquireStep(s: State, e: Event, t: nat, slot: nat)
    requires Enabled(s, e) && t < |s.threads| && Acquires(s.threads[t], slot)
    ensures var s' := Apply(s, e);
            && |s'.threads| == |s.threads|
            && (Acquires(s'.threads[t], slot)
                || (s'.threads[t].Idle? && slot < |s'.slots| && (s'.slots[slot] || Refusing(s))))
  {
    if e.t != t { OtherThread(s, e, t); }
  }

  predicate Filled(s: State, slot: nat) { slot < |s.slots| && s.slots[slot] }

  /** At it, or over with the guard filled. */
  predicate AcquiresOn(s: State, t: nat, slot: nat)
  {
    t < |s.threads| && (Acquires(s.threads[t], slot) || (s.threads[t].Idle? && Filled(s, slot)))
  }

  /** A try_acquire fills its guard, unless at a moment of the call the lifecycle was
      not running or full. */
  lemma AcquiresOrSawRefusal(states: seq<State>, events: seq<Event>, t: nat, slot: nat, k: nat, j: nat)
    requires Run(states, events) && Calling(states, events, t, k, j) && events[k] == TryAcquire(t, slot)
    requires t < |states[j].threads| && states[j].threads[t].Idle?
    ensures Filled(states[j], slot) || Saw(states, k, j, s => Refusing(s))
  {
    StepAt(states, events, k);
    forall m | k < m < j && AcquiresOn(states[m], t, slot)
      ensures AcquiresOn(states[m + 1], t, slot) || Refusing(states[m])
    {
      StepAt(states, events, m);
      AcquireStep(states[m], events[m], t, slot);
    }
    UntilSaw(states, k, j, s => AcquiresOn(s, t, slot), s => Refusing(s));
  }

  // ----- quiesce and stop -----

  predicate Quiesces(s: State, t: nat)
  {
    t < |s.threads| && (s.threads[t].QuiesceLoad? || s.threads[t].QuiesceSwap?)
  }

  lemma QuiesceStep(s: State, e: Event, t: nat)
    requires Enabled(s, e) && Quiesces(s, t) && LocalOk(s, t, s.threads[t])
    ensures Quiesces(Apply(s, e), t) || Closed(s) || Closed(Apply(s, e))
  {
    if e.t != t { OtherThread(s, e, t); }
  }

  /** A quiesce returns only if admission was closed at a moment of the call. */
  lemma QuiesceCloses(states: seq<State>, events: seq<Event>, t: nat, k: nat, j: nat)
    requires Run(states, events) && Calling(states, events, t, k, j) && events[k] == Quiesce(t)
    requires t < |states[j].threads| && states[j].threads[t].Idle?
    ensures Saw(states, k, j, s => Closed(s))
  {
    StepAt(states, events, k);
    forall m | k < m < j && Quiesces(states[m], t)
      ensures Quiesces(states[m + 1], t) || Closed(states[m]) || Closed(states[m + 1])
    {
      StepAt(states, events, m);
      QuiesceStep(states[m], events[m], t);
    }
    UntilSaw(states, k, j, s => Quiesces(s, t), s => Closed(s));
  }

  /** stop() has work to do. */
  predicate Stoppable(s: State) { DecodePhase(s.control) == Quiescing && DecodeActive(s.control) == 0 }

  predicate Stops(s: State, t: nat)
  {
    t < |s.threads| && (s.threads[t].StopLoad? || s.threads[t].StopSwap?)
  }

  lemma StopStep(s: State, e: Event, t: nat)
    requires Enabled(s, e) && Stops(s, t)
    ensures Stops(Apply(s, e), t) || !Stoppable(s) || !Stoppable(Apply(s, e))
  {
    if e.t != t { OtherThread(s, e, t); }
  }

  /** A stop does not return from a lifecycle that is quiescing and drained all
      along: it was stopped, or not ready to be, at a moment of the call. */
  lemma StopActs(states: seq<State>, events: seq<Event>, t: nat, k: nat, j: nat)
    requires Run(states, events) && Calling(states, events, t, k, j) && events[k] == Stop(t)
    requires t < |states[j].threads| && states[j].threads[t].Idle?
    ensures Saw(states, k, j, s => !Stoppable(s))
  {
    StepAt(states, events, k);
    forall m | k < m < j && Stops(states[m], t)
      ensures Stops(states[m + 1], t) || !Stoppable(states[m]) || !Stoppable(states[m + 1])
    {
      StepAt(states, events, m);
      StopStep(states[m], events[m], t);
    }
    UntilSaw(states, k, j, s => Stops(s, t), s => !Stoppable(s));
  }

  /** A start opens a stopped lifecycle, and only that. */
  lemma StartOpensStopped(states: seq<State>, events: seq<Event>, i: nat)
    requires Run(states, events) && i < |events| && events[i].Start?
    ensures var s, s' := states[i], states[i + 1];
            if DecodePhase(s.control) == Stopped
            then DecodePhase(s'.control) == Running && DecodeActive(s'.control) == 0
            else s' == s
  {
    RunKeepsInv(states, events, i);
    OneThread(states[i], events[i].t, Idle);
  }

  // ----- what a call achieves alone -----

  ghost function Leads(): (State, Event, State) -> bool
  {
    (s: State, e: Event, s': State) => Enabled(s, e) && s' == Apply(s, e)
  }

  lemma Extend(states: seq<State>, events: seq<Event>, more: seq<State>, es: seq<Event>)
    requires Run(states, events) && Path(Leads(), more, es) && more[0] == states[|events|]
    ensures Run(states + more[1..], events + es)
  {
    var s, g := states + more[1..], events + es;
    forall i | 0 <= i < |g| ensures Enabled(s[i], g[i]) && s[i + 1] == Apply(s[i], g[i]) {
      if i >= |events| {
        assert Leads()(more[i - |events|], es[i - |events|], more[i - |events| + 1]);
        assert s[i] == more[i - |events|] && g[i] == es[i - |events|];
      }
    }
  }

  /** A try_acquire that runs alone on a running lifecycle with room fills its guard
      and counts it. */
  lemma LoneAcquire(states: seq<State>, events: seq<Event>, t: nat, slot: nat)
    returns (states': seq<State>, events': seq<Event>)
    requires Run(states, events) && Enabled(states[|events|], TryAcquire(t, slot)) && !Refusing(states[|events|])
    ensures Run(states', events') && Continues(states, events, states', events', TryAcquire(t, slot), e => e == Go(t))
    ensures var s, s' := states[|events|], states'[|events'|];
            && s'.slots == s.slots[slot := true] && s'.threads == s.threads && s'.mutex == s.mutex
            && DecodePhase(s'.control) == Running && DecodeActive(s'.control) == DecodeActive(s.control) + 1
  {
    var s := states[|events|];
    var s1 := Apply(s, TryAcquire(t, slot));
    var s2 := Apply(s1, Go(t));
    var s3 := Apply(s2, Go(t));
    var more, es := [s, s1, s2, s3], [TryAcquire(t, slot), Go(t), Go(t)];
    Extend(states, events, more, es);
    states', events' := states + more[1..], events + es;
  }

  /** notify_drained, without interference. */
  lemma LoneNotify(s: State, t: nat) returns (states: seq<State>, events: seq<Event>)
    requires t < |s.threads| && s.threads[t] == Notify(ToLock, Done) && s.mutex == Unlocked
    ensures Path(Leads(), states, events) && states[0] == s
    ensures forall i | 0 <= i < |events| :: events[i] == Go(t)
    ensures states[|events|] == s.(threads := WakeAll(s.threads)[t := Idle])
  {
    var s1 := Apply(s, Go(t));
    var s2 := Apply(s1, Go(t));
    var s3 := Apply(s2, Go(t));
    states, events := [s, s1, s2, s3], [Go(t), Go(t), Go(t)];
    assert WakeAll(s1.threads)[t := Notify(ToUnlock, Done)][t := Idle] == WakeAll(s.threads)[t := Idle];
  }

  lemma LoneQuiescing(s: State, t: nat) returns (states: seq<State>, events: seq<Event>)
    requires Enabled(s, Quiesce(t)) && s.mutex == Unlocked && DecodePhase(s.control) == Running
    ensures Path(Leads(), states, events) && 0 < |events| && states[0] == s && events[0] == Quiesce(t)
    ensures forall i | 1 <= i < |events| :: events[i] == Go(t)
    ensures states[|events|] ==
            s.(control := Encode(Quiescing, DecodeActive(s.control)),
               threads := if DecodeActive(s.control) == 0 then WakeAll(s.threads) else s.threads)
  {
    var s1 := Apply(s, Quiesce(t));
    var s2 := Apply(s1, Go(t));
    var s3 := Apply(s2, Go(t));
    states, events := [s, s1, s2, s3], [Quiesce(t), Go(t), Go(t)];
    if DecodeActive(s.control) == 0 {
      var ss, fs := LoneNotify(s3, t);
      Join(Leads(), states, events, ss, fs);
      states, events := states + ss[1..], events + fs;
      assert states[|events|] == ss[|fs|];
      assert WakeAll(s3.threads)[t := Idle] == WakeAll(s.threads);
    } else {
      assert s3.threads == s.threads;
    }
  }

  /** A quiesce that runs alone closes a running lifecycle, leaves the count, and
      wakes every sleeper when it is drained. */
  lemma LoneQuiesce(states: seq<State>, events: seq<Event>, t: nat)
    returns (states': seq<State>, events': seq<Event>)
    requires Run(states, events) && Enabled(states[|events|], Quiesce(t)) && states[|events|].mutex == Unlocked
    requires DecodePhase(states[|events|].control) == Running
    ensures Run(states', events') && Continues(states, events, states', events', Quiesce(t), e => e == Go(t))
    ensures var s, s' := states[|events|], states'[|events'|];
            && DecodePhase(s'.control) == Quiescing && DecodeActive(s'.control) == DecodeActive(s.control)
            && s'.slots == s.slots && s'.mutex == Unlocked
            && s'.threads == if DrainedWord(s'.control) then WakeAll(s.threads) else s.threads
  {
    var more, es := LoneQuiescing(states[|events|], t);
    Extend(states, events, more, es);
    states', events' := states + more[1..], events + es;
    assert states'[|events'|] == more[|es|];
  }

  /** A stop that runs alone stops a quiescing lifecycle that is drained. */
  lemma LoneStop(states: seq<State>, events: seq<Event>, t: nat)
    returns (states': seq<State>, events': seq<Event>)
    requires Run(states, events) && Enabled(states[|events|], Stop(t)) && Stoppable(states[|events|])
    ensures Run(states', events') && Continues(states, events, states', events', Stop(t), e => e == Go(t))
    ensures var s, s' := states[|events|], states'[|events'|];
            DecodePhase(s'.control) == Stopped && DecodeActive(s'.control) == 0 && s' == s.(control := s'.control)
  {
    var s := states[|events|];
    var s1 := Apply(s, Stop(t));
    var s2 := Apply(s1, Go(t));
    var s3 := Apply(s2, Go(t));
    var more, es := [s, s1, s2, s3], [Stop(t), Go(t), Go(t)];
    Extend(states, events, more, es);
    states', events' := states + more[1..], events + es;
  }

  /** A wait that runs alone on a drained lifecycle returns, with true if it is
      timed. */
  lemma LoneWait(states: seq<State>, events: seq<Event>, t: nat, timed: bool)
    returns (states': seq<State>, events': seq<Event>)
    requires Run(states, events) && Enabled(states[|events|], Wait(t, timed)) && states[|events|].mutex == Unlocked
    requires DrainedWord(states[|events|].control)
    ensures Run(states', events') && Continues(states, events, states', events', Wait(t, timed), e => e == Go(t))
    ensures states'[|events'|] == states[|events|]
    ensures var s := states'[|events'| - 1]; t < |s.threads| && s.threads[t] == WaitUnlock(true)
  {
    var s := states[|events|];
    var s1 := Apply(s, Wait(t, timed));
    var s2 := Apply(s1, Go(t));
    var s3 := Apply(s2, Go(t));
    var s4 := Apply(s3, Go(t));
    var more, es := [s, s1, s2, s3, s4], [Wait(t, timed), Go(t), Go(t), Go(t)];
    assert s4.threads == s.threads;
    Extend(states, events, more, es);
    states', events' := states + more[1..], events + es;
  }

  /** A wait that runs alone on a lifecycle that is not drained goes to sleep and lets
      the mutex go. */
  lemma LoneSleep(states: seq<State>, events: seq<Event>, t: nat, timed: bool)
    returns (states': seq<State>, events': seq<Event>)
    requires Run(states, events) && Enabled(states[|events|], Wait(t, timed)) && states[|events|].mutex == Unlocked
    requires !DrainedWord(states[|events|].control)
    ensures Run(states', events') && Continues(states, events, states', events', Wait(t, timed), e => e == Go(t))
    ensures var s := states[|events|];
            states'[|events'|] == s.(threads := s.threads[t := Sleeping(if timed then Timed else Untimed)])
  {
    var s := states[|events|];
    var s1 := Apply(s, Wait(t, timed));
    var s2 := Apply(s1, Go(t));
    var s3 := Apply(s2, Go(t));
    var s4 := Apply(s3, Go(t));
    var more, es := [s, s1, s2, s3, s4], [Wait(t, timed), Go(t), Go(t), Go(t)];
    Extend(states, events, more, es);
    states', events' := states + more[1..], events + es;
  }

  /** The wait of s.threads[t], woken with the mutex free, is over if it finds the
      lifecycle drained or may not go on waiting. */
  lemma LoneLooking(s: State, t: nat) returns (states: seq<State>, events: seq<Event>)
    requires t < |s.threads| && s.threads[t].WaitLock? && s.mutex == Unlocked
    ensures Path(Leads(), states, events) && |events| == 3 && states[0] == s && events == [Go(t), Go(t), Go(t)]
    ensures var w := s.threads[t].w;
            if DrainedWord(s.control) || w.Expired?
            then states[3] == s.(threads := s.threads[t := Idle])
                 && states[2].threads == s.threads[t := WaitUnlock(DrainedWord(s.control))]
            else states[3] == s.(threads := s.threads[t := Sleeping(w)])
  {
    var s1 := Apply(s, Go(t));
    var s2 := Apply(s1, Go(t));
    var s3 := Apply(s2, Go(t));
    states, events := [s, s1, s2, s3], [Go(t), Go(t), Go(t)];
  }

  /** A sleeper that wakes by itself looks again: it returns true if the lifecycle is
      drained, else false if its time has passed, else it sleeps on. */
  lemma LoneWakeup(states: seq<State>, events: seq<Event>, t: nat, wake: Event)
    returns (states': seq<State>, events': seq<Event>)
    requires Run(states, events) && (wake == Wake(t) || wake == Expire(t)) && Enabled(states[|events|], wake)
    requires states[|events|].mutex == Unlocked
    ensures Run(states', events') && Continues(states, events, states', events', wake, e => e == Go(t))
    ensures var s, s', p := states[|events|], states'[|events'|], states'[|events'| - 1];
            if DrainedWord(s.control) || wake.Expire? || s.threads[t].w.Expired?
            then s' == s.(threads := s.threads[t := Idle])
                 && p.threads == s.threads[t := WaitUnlock(DrainedWord(s.control))]
            else s' == s
  {
    var s := states[|events|];
    var s1 := Apply(s, wake);
    var ss, es := LoneLooking(s1, t);
    assert Path(Leads(), [s, s1], [wake]);
    Join(Leads(), [s, s1], [wake], ss, es);
    Extend(states, events, [s, s1] + ss[1..], [wake] + es);
    assert ([s, s1] + ss[1..])[1..] == ss;
    Appended(states, events, wake, ss, es, e => e == Go(t));
    states', events' := states + ss, events + ([wake] + es);
    assert s.threads[t := s.threads[t]] == s.threads;
  }

  /** Dropping a guard that runs alone empties it, gives its activity back if it held
      one, and wakes every sleeper when that drains a closed lifecycle. */
  lemma LoneDrop(states: seq<State>, events: seq<Event>, t: nat, slot: nat)
    returns (states': seq<State>, events': seq<Event>)
    requires Run(states, events) && Enabled(states[|events|], Drop(t, slot)) && states[|events|].mutex == Unlocked
    ensures Run(states', events') && Continues(states, events, states', events', Drop(t, slot), e => e == Go(t))
    ensures var s, s' := states[|events|], states'[|events'|];
            && s'.slots == s.slots[slot := false] && s'.mutex == Unlocked
            && DecodePhase(s'.control) == DecodePhase(s.control)
            && DecodeActive(s'.control) == DecodeActive(s.control) - (if s.slots[slot] then 1 else 0)
            && s'.threads == if s.slots[slot] && DecodePhase(s.control) == Quiescing && DrainedWord(s'.control)
                             then WakeAll(s.threads) else s.threads
  {
    var s := states[|events|];
    if s.slots[slot] { DropCountsAt(states, events, t, slot); }
    var more, es := LoneDropping(s, t, slot);
    Extend(states, events, more, es);
    states', events' := states + more[1..], events + es;
    assert states'[|events'|] == more[|es|];
  }

  lemma DropCounts(s: State, t: nat, slot: nat)
    requires Inv(s) && Enabled(s, Drop(t, slot)) && s.slots[slot]
    ensures 0 < DecodeActive(s.control)
    ensures var w := Word(s.control - 1);
            DecodePhase(w) == DecodePhase(s.control) && DecodeActive(w) == DecodeActive(s.control) - 1
  {
    StepKeepsInv(s, Drop(t, slot));
    ReleaseCounts(Apply(s, Drop(t, slot)), t);
  }

  lemma DropCountsAt(states: seq<State>, events: seq<Event>, t: nat, slot: nat)
    requires Run(states, events) && Enabled(states[|events|], Drop(t, slot)) && states[|events|].slots[slot]
    ensures var c := states[|events|].control;
            0 < DecodeActive(c) && DecodePhase(Word(c - 1)) == DecodePhase(c)
            && DecodeActive(Word(c - 1)) == DecodeActive(c) - 1
  {
    RunKeepsInv(states, events, |events|);
    DropCounts(states[|events|], t, slot);
  }

  lemma LoneDropping(s: State, t: nat, slot: nat) returns (states: seq<State>, events: seq<Event>)
    requires Enabled(s, Drop(t, slot)) && s.mutex == Unlocked
    ensures Path(Leads(), states, events) && 0 < |events| && states[0] == s && events[0] == Drop(t, slot)
    ensures forall i | 1 <= i < |events| :: events[i] == Go(t)
    ensures var last := DecodeActive(s.control) == 1 && DecodePhase(s.control) == Quiescing;
            states[|events|] ==
            if s.slots[slot] then s.(control := Word(s.control - 1), slots := s.slots[slot := false],
                                     threads := if last then WakeAll(s.threads) else s.threads)
            else s
  {
    var s1 := Apply(s, Drop(t, slot));
    states, events := [s, s1], [Drop(t, slot)];
    if s.slots[slot] {
      var ss, fs := LoneRelease(s1, t);
      assert Path(Leads(), states, events);
      Join(Leads(), states, events, ss, fs);
      states, events := states + ss[1..], events + fs;
      assert states[|events|] == ss[|fs|];
      assert WakeAll(s1.threads)[t := Idle] == WakeAll(s.threads) && s1.threads[t := Idle] == s.threads;
    } else {
      assert s1.threads == s.threads && s1.slots == s.slots;
    }
  }

  lemma LoneRelease(s: State, t: nat) returns (states: seq<State>, events: seq<Event>)
    requires t < |s.threads| && s.threads[t] == Release(Done) && s.mutex == Unlocked
    ensures Path(Leads(), states, events) && states[0] == s
    ensures forall i | 0 <= i < |events| :: events[i] == Go(t)
    ensures var last := DecodeActive(s.control) == 1 && DecodePhase(s.control) == Quiescing;
            states[|events|] == s.(control := Word(s.control - 1),
                                   threads := if last then WakeAll(s.threads)[t := Idle] else s.threads[t := Idle])
  {
    var s1 := Apply(s, Go(t));
    states, events := [s, s1], [Go(t)];
    if s1.threads[t].Notify? {
      var ss, fs := LoneNotify(s1, t);
      assert Path(Leads(), states, events);
      Join(Leads(), states, events, ss, fs);
      states, events := states + ss[1..], events + fs;
      assert states[|events|] == ss[|fs|];
      assert WakeAll(s1.threads)[t := Idle] == WakeAll(s.threads)[t := Idle];
    }
  }

  // ----- moving a guard -----

  /** In the middle of moving guard `from`, which held `held`, to guard `to`. */
  predicate MovesOn(s: State, t: nat, from: nat, to: nat, held: bool)
  {
    && t < |s.threads| && from < |s.slots| && to < |s.slots| && from != to
    && if s.threads[t].Idle? then s.slots[to] == held && !s.slots[from]
       else InUse(s.threads[t]) == {from, to} && s.slots[from] == held && !s.slots[to]
            && Transfers(s.threads[t], from, to)
  }

  predicate Transfers(l: Local, from: nat, to: nat)
  {
    || (l.Release? && l.after == Transfer(from, to))
    || (l.Notify? && l.after == Transfer(from, to))
    || (l.Moving? && l.after == Transfer(from, to))
  }

  lemma MoveStep(s: State, e: Event, t: nat, from: nat, to: nat, held: bool)
    requires Inv(s) && Enabled(s, e) && MovesOn(s, t, from, to, held) && !s.threads[t].Idle?
    ensures MovesOn(Apply(s, e), t, from, to, held)
  {
    if e.t != t {
      assert LocalOk(s, e.t, s.threads[e.t]);
      assert InUse(s.threads[e.t]) !! InUse(s.threads[t]);
      Others(s, e, t);
      assert from in InUse(s.threads[t]) && to in InUse(s.threads[t]);
    }
  }

  lemma MoveStepAt(states: seq<State>, events: seq<Event>, t: nat, from: nat, to: nat, held: bool, m: nat)
    requires Run(states, events) && m < |events| && MovesOn(states[m], t, from, to, held)
    requires !states[m].threads[t].Idle?
    ensures MovesOn(states[m + 1], t, from, to, held)
  {
    RunKeepsInv(states, events, m);
    MoveStep(states[m], events[m], t, from, to, held);
  }

  lemma MoveStarts(s: State, t: nat, from: nat, to: nat)
    requires Enabled(s, Move(t, from, to)) && from != to
    ensures MovesOn(Apply(s, Move(t, from, to)), t, from, to, s.slots[from])
  {}

  /** A moved guard's activity, if any, ends up in the target, and what that held
      before is given back. */
  lemma MoveTransfers(states: seq<State>, events: seq<Event>, t: nat, from: nat, to: nat, k: nat, j: nat)
    requires Run(states, events) && Calling(states, events, t, k, j) && events[k] == Move(t, from, to) && from != to
    ensures from < |states[k].slots| && MovesOn(states[j], t, from, to, states[k].slots[from])
  {
    assert Enabled(states[k], events[k]) && states[k + 1] == Apply(states[k], events[k]);
    MoveStarts(states[k], t, from, to);
    var held := states[k].slots[from];
    forall m | k < m < j && MovesOn(states[m], t, from, to, held) ensures MovesOn(states[m + 1], t, from, to, held) {
      MoveStepAt(states, events, t, from, to, held, m);
    }
    UntilSaw(states, k, j, s => MovesOn(s, t, from, to, held), s => false);
  }
}
