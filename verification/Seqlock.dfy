/** The seqlock of inspector.cpp: one writer publishes three counters between two
    increments of a version word, and any number of readers take a snapshot and
    accept it only if the version was even and did not change. Every field
    access is a step. The version does not wrap here. */
module Seqlock {

  datatype Stats = Stats(numThreads: int, numActive: int, numPending: int)

  /** update_thread_pool_stats: the next store to make. */
  datatype Writer =
    | Ready
    | MarkOdd(next: Stats, v1: nat)
    | StoreThreads(next: Stats, v1: nat)
    | StoreActive(next: Stats, v1: nat)
    | StorePending(next: Stats, v1: nat)
    | Publish(next: Stats, v1: nat)

  /** read_thread_pool_stats: `tries` attempts left of the three. */
  datatype Reader =
    | Idle
    | LoadVersion(tries: nat)
    | ReadThreads(tries: nat, v1: nat)
    | ReadActive(tries: nat, v1: nat, a: int)
    | ReadPending(tries: nat, v1: nat, a: int, b: int)
    | CheckVersion(tries: nat, v1: nat, got: Stats)
    | Succeeded(got: Stats, version: nat)
    | GaveUp

  datatype State = State(
    version: nat,
    fields: Stats,
    writer: Writer,
    readers: seq<Reader>,
    published: seq<Stats>)      // history: element k is the snapshot of version 2k

  datatype Event =
    | Update(next: Stats)
    | Write
    | Read(t: nat)
    | Step(t: nat)

  function Retry(tries: nat): Reader { if tries > 1 then LoadVersion(tries - 1) else GaveUp }

  function ReadStep(s: State, r: Reader): Reader
  {
    match r
    case LoadVersion(n) => if s.version % 2 != 0 then Retry(n) else ReadThreads(n, s.version)
    case ReadThreads(n, v1) => ReadActive(n, v1, s.fields.numThreads)
    case ReadActive(n, v1, a) => ReadPending(n, v1, a, s.fields.numActive)
    case ReadPending(n, v1, a, b) => CheckVersion(n, v1, Stats(a, b, s.fields.numPending))
    case CheckVersion(n, v1, got) =>
      if v1 == s.version && s.version % 2 == 0 then Succeeded(got, s.version) else Retry(n)
    case _ => r
  }

  function WriteStep(s: State): State
  {
    match s.writer
    case Ready => s
    case MarkOdd(x, v1) => s.(version := v1 + 1, writer := StoreThreads(x, v1))
    case StoreThreads(x, v1) => s.(fields := s.fields.(numThreads := x.numThreads), writer := StoreActive(x, v1))
    case StoreActive(x, v1) => s.(fields := s.fields.(numActive := x.numActive), writer := StorePending(x, v1))
    case StorePending(x, v1) => s.(fields := s.fields.(numPending := x.numPending), writer := Publish(x, v1))
    case Publish(x, v1) => s.(version := v1 + 2, writer := Ready, published := s.published + [x])
  }

  predicate Enabled(s: State, e: Event)
  {
    match e
    case Update(_) => s.writer.Ready?
    case Write => !s.writer.Ready?
    case Read(t) => t < |s.readers|
    case Step(t) => t < |s.readers|
  }

  function Apply(s: State, e: Event): State
    requires Enabled(s, e)
  {
    match e
    case Update(x) => s.(writer := MarkOdd(x, s.version))
    case Write => WriteStep(s)
    case Read(t) => s.(readers := s.readers[t := LoadVersion(3)])
    case Step(t) => s.(readers := s.readers[t := ReadStep(s, s.readers[t])])
  }

  predicate Init(s: State)
  {
    && s.version == 0 && s.writer == Ready && s.published == [s.fields]
    && forall t | 0 <= t < |s.readers| :: s.readers[t].Idle?
  }

  ghost predicate Run(states: seq<State>, events: seq<Event>)
  {
    && |states| == |events| + 1
    && Init(states[0])
    && forall i | 0 <= i < |events| ::
         Enabled(states[i], events[i]) && states[i + 1] == Apply(states[i], events[i])
  }

  predicate WriterOk(s: State)
  {
    && |s.published| > 0
    && match s.writer
       case Ready => s.version == 2 * (|s.published| - 1) && s.fields == s.published[|s.published| - 1]
       case MarkOdd(_, v1) =>
         v1 == s.version == 2 * (|s.published| - 1) && s.fields == s.published[|s.published| - 1]
       case StoreThreads(_, v1) => Odd(s, v1)
       case StoreActive(x, v1) => Odd(s, v1) && s.fields.numThreads == x.numThreads
       case StorePending(x, v1) =>
         Odd(s, v1) && s.fields.numThreads == x.numThreads && s.fields.numActive == x.numActive
       case Publish(x, v1) => Odd(s, v1) && s.fields == x
  }

  predicate Odd(s: State, v1: nat)
  {
    s.version == v1 + 1 && v1 == 2 * (|s.published| - 1)
  }

  /** What a reader holds is right as long as the version it saw is current. */
  predicate ReaderOk(s: State, r: Reader)
    requires |s.published| > 0
  {
    var last := s.published[|s.published| - 1];
    match r
    case ReadThreads(_, v1) => v1 % 2 == 0 && v1 <= s.version
    case ReadActive(_, v1, a) => v1 % 2 == 0 && v1 <= s.version && (v1 == s.version ==> a == last.numThreads)
    case ReadPending(_, v1, a, b) =>
      v1 % 2 == 0 && v1 <= s.version && (v1 == s.version ==> a == last.numThreads && b == last.numActive)
    case CheckVersion(_, v1, got) => v1 % 2 == 0 && v1 <= s.version && (v1 == s.version ==> got == last)
    case Succeeded(got, v) => v % 2 == 0 && v / 2 < |s.published| && got == s.published[v / 2]
    case _ => true
  }

  ghost predicate Inv(s: State)
  {
    && WriterOk(s)
    && forall t | 0 <= t < |s.readers| :: ReaderOk(s, s.readers[t])
  }

  lemma StepKeepsInv(s: State, e: Event)
    requires Inv(s) && Enabled(s, e)
    ensures Inv(Apply(s, e))
  {
    var s' := Apply(s, e);
    forall t | 0 <= t < |s'.readers| ensures ReaderOk(s', s'.readers[t]) {
      assert ReaderOk(s, s.readers[t]);
    }
  }

  lemma {:induction false} RunKeepsInv(states: seq<State>, events: seq<Event>, i: nat)
    requires Run(states, events) && i < |states|
    ensures Inv(states[i])
  {
    if i > 0 {
      RunKeepsInv(states, events, i - 1);
      StepKeepsInv(states[i - 1], events[i - 1]);
    }
  }

  /** A successful read returns the three counters of one single update, or the
      initial ones, never a mixture, and says which update by its version. */
  lemma SnapshotIsPublished(states: seq<State>, events: seq<Event>, i: nat, t: nat)
    requires Run(states, events) && i < |states| && t < |states[i].readers|
    requires states[i].readers[t].Succeeded?
    ensures var r := states[i].readers[t];
            r.version % 2 == 0 && r.version / 2 < |states[i].published|
            && r.got == states[i].published[r.version / 2]
  {
    RunKeepsInv(states, events, i);
    assert ReaderOk(states[i], states[i].readers[t]);
  }

  /** ... and that update is the latest one at the moment the read succeeds. */
  lemma SnapshotIsCurrent(states: seq<State>, events: seq<Event>, i: nat, t: nat)
    requires Run(states, events) && i < |events| && events[i] == Step(t) && t < |states[i + 1].readers|
    requires states[i].readers[t].CheckVersion? && states[i + 1].readers[t].Succeeded?
    ensures states[i].published == states[i + 1].published && |states[i].published| > 0
    ensures states[i + 1].readers[t].got == states[i].published[|states[i].published| - 1] == states[i].fields
  {
    RunKeepsInv(states, events, i);
    assert ReaderOk(states[i], states[i].readers[t]);
  }

  /** The arguments of the updates, in order. */
  ghost function Updates(events: seq<Event>, i: nat): seq<Stats>
    requires i <= |events|
  {
    if i == 0 then [] else Updates(events, i - 1) + (if events[i - 1].Update? then [events[i - 1].next] else [])
  }

  /** What is being written and not published yet. */
  function Pending(w: Writer): seq<Stats> { if w.Ready? then [] else [w.next] }

  lemma StepPublishes(s: State, e: Event)
    requires Enabled(s, e)
    ensures var s' := Apply(s, e);
            s'.published + Pending(s'.writer)
            == s.published + Pending(s.writer) + (if e.Update? then [e.next] else [])
  {}

  /** The published snapshots are the initial one and then the arguments of the
      updates, in order, but for an update that is under way. */
  lemma {:induction false} PublishedAreUpdates(states: seq<State>, events: seq<Event>, i: nat)
    requires Run(states, events) && i < |states|
    ensures states[i].published + Pending(states[i].writer) == [states[0].fields] + Updates(events, i)
  {
    if i > 0 {
      PublishedAreUpdates(states, events, i - 1);
      StepPublishes(states[i - 1], events[i - 1]);
    }
  }

  // ----- a read comes to an end -----

  function ReadRank(r: Reader): nat
  {
    match r
    case LoadVersion(n) => Sixfold(n) + 5
    case ReadThreads(n, _) => Sixfold(n) + 4
    case ReadActive(n, _, _) => Sixfold(n) + 3
    case ReadPending(n, _, _, _) => Sixfold(n) + 2
    case CheckVersion(n, _, _) => Sixfold(n) + 1
    case _ => 0
  }

  function Sixfold(n: nat): nat { n + n + n + n + n + n }

  predicate Reading(r: Reader) { !r.Idle? && !r.Succeeded? && !r.GaveUp? }

  /** Every step of a reader brings it closer to its end: a read is over after at most
      23 of them. */
  lemma ReadsDescend(s: State, t: nat)
    requires t < |s.readers| && Reading(s.readers[t])
    ensures var r' := Apply(s, Step(t)).readers[t];
            ReadRank(r') < ReadRank(s.readers[t]) && (ReadRank(r') == 0 ==> r'.Succeeded? || r'.GaveUp?)
  {}

  /** In the first of its attempts, with the version v seen so far. */
  predicate Undisturbed(s: State, t: nat, v: nat)
  {
    && t < |s.readers|
    && match s.readers[t]
       case LoadVersion(n) => n == 3
       case ReadThreads(n, v1) => n == 3 && v1 == v
       case ReadActive(n, v1, _) => n == 3 && v1 == v
       case ReadPending(n, v1, _, _) => n == 3 && v1 == v
       case CheckVersion(n, v1, _) => n == 3 && v1 == v
       case Succeeded(_, v1) => v1 == v
       case _ => false
  }

  /** A read during which no update begins, and that began between two, succeeds at
      its first attempt: it never gives up or retries. */
  lemma {:induction false} UndisturbedReadSucceeds(states: seq<State>, events: seq<Event>, t: nat, k: nat, j: nat,
      v: nat)
    requires Run(states, events) && k < j < |states| && events[k] == Read(t)
    requires v % 2 == 0 && forall m | k < m <= j :: states[m].version == v
    requires forall m | k < m < j :: events[m] != Read(t)
    ensures Undisturbed(states[j], t, v)
    decreases j
  {
    if j > k + 1 {
      UndisturbedReadSucceeds(states, events, t, k, j - 1, v);
      UndisturbedStep(states[j - 1], events[j - 1], t, v);
    }
  }

  lemma UndisturbedStep(s: State, e: Event, t: nat, v: nat)
    requires Enabled(s, e) && Undisturbed(s, t, v) && s.version == v && v % 2 == 0 && e != Read(t)
    ensures Undisturbed(Apply(s, e), t, v)
  {}

  /** Step e of state s ends an attempt of reader t without success. */
  predicate Fails(s: State, e: Event, t: nat)
  {
    && e == Step(t) && t < |s.readers|
    && ((s.readers[t].LoadVersion? && s.version % 2 != 0)
        || (s.readers[t].CheckVersion? && s.readers[t].v1 != s.version))
  }

  ghost function Failures(states: seq<State>, events: seq<Event>, t: nat, k: nat, j: nat): nat
    requires k < j < |states| == |events| + 1
  {
    if j == k + 1 then 0
    else Failures(states, events, t, k, j - 1) + (if Fails(states[j - 1], events[j - 1], t) then 1 else 0)
  }

  /** The attempts a reader has left, the current one included. */
  function Left(r: Reader): nat
  {
    match r
    case LoadVersion(n) => n
    case ReadThreads(n, _) => n
    case ReadActive(n, _, _) => n
    case ReadPending(n, _, _, _) => n
    case CheckVersion(n, _, _) => n
    case _ => 0
  }

  lemma FailsLower(s: State, e: Event, t: nat)
    requires Enabled(s, e) && t < |s.readers| && InAttempt(s.readers[t]) && e != Read(t)
    ensures var s' := Apply(s, e);
            && |s'.readers| == |s.readers| && InAttempt(s'.readers[t])
            && (!s'.readers[t].Succeeded? ==>
                  Left(s'.readers[t]) == Left(s.readers[t]) - (if Fails(s, e, t) then 1 else 0))
  {}

  predicate InAttempt(r: Reader)
  {
    (Reading(r) ==> Left(r) > 0) && (r.CheckVersion? ==> r.v1 % 2 == 0)
    && (r.ReadThreads? ==> r.v1 % 2 == 0) && (r.ReadActive? ==> r.v1 % 2 == 0) && (r.ReadPending? ==> r.v1 % 2 == 0)
  }

  /** A read gives up exactly when three attempts have each met an odd version or one
      that changed. */
  lemma {:induction false} GivesUpAfterThree(states: seq<State>, events: seq<Event>, t: nat, k: nat, j: nat)
    requires Run(states, events) && k < j < |states| && events[k] == Read(t)
    requires forall m | k < m < j :: events[m] != Read(t)
    ensures t < |states[j].readers| && InAttempt(states[j].readers[t])
    ensures var r := states[j].readers[t];
            && (Reading(r) || r.GaveUp? || r.Succeeded?)
            && (!r.Succeeded? ==> Failures(states, events, t, k, j) == 3 - Left(r))
            && (r.GaveUp? ==> Failures(states, events, t, k, j) == 3)
    decreases j
  {
    if j > k + 1 {
      GivesUpAfterThree(states, events, t, k, j - 1);
      FailsLower(states[j - 1], events[j - 1], t);
    }
  }
}
