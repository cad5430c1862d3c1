/** The ring of ring.hpp under two threads: one shared access per step, a producer
    that pushes and flushes, a consumer that pops and asks empty(), interleaved in
    any way. publish_write's load of need_publish_, its store of write_pub_ and its
    store of false are three steps.

    The counters are 64-bit words that wrap around. History says what they stand
    for: `pushed` and `popped` are the values stored and read so far, `published`,
    `seen`, `freed` and `known` how many of them write_pub_, write_cached_,
    read_pub_ and read_cached_ tell of. */
module RingRuns {
  import opened BlockMath
  import opened Words
  import opened Bits
  import opened Runs

  /** Why a call publishes: a stored element, a refused push, or flush(). */
  datatype Reason = Stored | Refused | Flushing

  /** The producer's next shared access. */
  datatype Producer<T> =
    | PIdle
    | PLoad(t: T)          // full(): load read_pub_
    | PStore(t: T)         // back() = t
    | PAsk                 // load need_publish_
    | PPublish(why: Reason) // store write_pub_
    | PClear(why: Reason)  // need_publish_ = false

  datatype Call = Pop | AskEmpty

  /** The consumer's next shared access. */
  datatype Consumer =
    | CIdle
    | CAsk(call: Call)     // need_publish_ = true
    | CLoad(call: Call)    // load write_pub_
    | CRead                // read front()
    | CFree                // store read_pub_

  datatype State<T> = State(
    bits: nat,             // capacity_ is 2^bits
    batch: nat,
    buffer: seq<T>,
    writeLocal: nat, readCached: nat, unpublished: nat, producer: Producer<T>,
    readLocal: nat, writeCached: nat, consumer: Consumer,
    writePub: nat, readPub: nat, needPublish: bool,
    pushed: seq<T>, published: nat, known: nat,   // history
    popped: seq<T>, freed: nat, seen: nat)

  datatype Event<T> = Push(t: T) | Flush | Produce | Call(call: Call) | Consume

  function Capacity<T>(s: State<T>): nat { Pow2(s.bits) }

  function Masked<T>(s: State<T>, counter: nat): nat { And(counter, Capacity(s) - 1) }

  predicate HasRoom<T>(s: State<T>) { Word(s.writeLocal - s.readCached) < Capacity(s) }

  predicate Enabled<T>(s: State<T>, e: Event<T>)
  {
    match e
    case Push(_) => s.producer.PIdle?
    case Flush => s.producer.PIdle?
    case Produce => !s.producer.PIdle? && (s.producer.PStore? ==> Masked(s, s.writeLocal) < |s.buffer|)
    case Call(_) => s.consumer.CIdle?
    case Consume => !s.consumer.CIdle? && (s.consumer.CRead? ==> Masked(s, s.readLocal) < |s.buffer|)
  }

  function Apply<T>(s: State<T>, e: Event<T>): State<T>
    requires Enabled(s, e)
  {
    match e
    case Push(t) => s.(producer := if HasRoom(s) then PStore(t) else PLoad(t))
    case Flush => s.(producer := if s.unpublished == 0 then PIdle else PPublish(Flushing))
    case Produce => ProducerStep(s)
    case Call(c) =>
      s.(consumer := if s.readLocal == s.writeCached then CAsk(c) else if c.Pop? then CRead else CIdle)
    case Consume => ConsumerStep(s)
  }

  function ProducerStep<T>(s: State<T>): State<T>
    requires Enabled(s, Produce)
  {
    match s.producer
    case PLoad(t) =>
      var s1 := s.(readCached := s.readPub, known := s.freed);
      if HasRoom(s1) then s1.(producer := PStore(t))
      else s1.(unpublished := s.unpublished + 1, producer := PPublish(Refused))
    case PStore(t) =>
      s.(buffer := s.buffer[Masked(s, s.writeLocal) := t],
         writeLocal := Word(s.writeLocal + 1),
         pushed := s.pushed + [t],
         unpublished := s.unpublished + 1,
         producer := if s.unpublished + 1 < s.batch then PAsk else PPublish(Stored))
    case PAsk => s.(producer := if s.needPublish then PPublish(Stored) else PIdle)
    case PPublish(why) =>
      s.(writePub := s.writeLocal, published := |s.pushed|, unpublished := 0, producer := PClear(why))
    case PClear(_) => s.(needPublish := false, producer := PIdle)
  }

  function ConsumerStep<T>(s: State<T>): State<T>
    requires Enabled(s, Consume)
  {
    match s.consumer
    case CAsk(c) => s.(needPublish := true, consumer := CLoad(c))
    case CLoad(c) =>
      s.(writeCached := s.writePub, seen := s.published,
         consumer := if s.readLocal != s.writePub && c.Pop? then CRead else CIdle)
    case CRead =>
      s.(popped := s.popped + [s.buffer[Masked(s, s.readLocal)]],
         readLocal := Word(s.readLocal + 1),
         consumer := CFree)
    case CFree => s.(readPub := s.readLocal, freed := |s.popped|, consumer := CIdle)
  }

  predicate Init<T>(s: State<T>)
  {
    && 0 < s.bits < 64 && |s.buffer| == Capacity(s) && s.batch > 0
    && s.writeLocal == s.readCached == s.unpublished == s.readLocal == s.writeCached == s.writePub == s.readPub == 0
    && s.producer == PIdle && s.consumer == CIdle && !s.needPublish
    && s.pushed == [] == s.popped && s.published == s.known == s.freed == s.seen == 0
  }

  ghost predicate Run<T>(states: seq<State<T>>, events: seq<Event<T>>)
  {
    Steps(states, events) && Init(states[0])
  }

  ghost predicate Steps<T>(states: seq<State<T>>, events: seq<Event<T>>)
  {
    && |states| == |events| + 1
    && forall i | 0 <= i < |events| ::
         Enabled(states[i], events[i]) && states[i + 1] == Apply(states[i], events[i])
  }

  // ----- the invariant -----

  ghost predicate Counters<T>(s: State<T>)
  {
    && 0 < s.bits < 64 && |s.buffer| == Capacity(s) < WORD && s.batch > 0
    && s.writeLocal == Word(|s.pushed|) && s.writePub == Word(s.published) && s.writeCached == Word(s.seen)
    && s.readLocal == Word(|s.popped|) && s.readPub == Word(s.freed) && s.readCached == Word(s.known)
    && s.known <= s.freed <= |s.popped| <= s.seen <= s.published <= |s.pushed| <= s.known + Capacity(s)
  }

  /** From element `first` on, every element is in its slot of the buffer. */
  ghost predicate Holds<T>(buffer: seq<T>, bits: nat, pushed: seq<T>, first: nat)
  {
    forall i: nat {:trigger pushed[i]} | first <= i < |pushed| ::
      Off(Pow2(bits), i) < |buffer| && buffer[Off(Pow2(bits), i)] == pushed[i]
  }

  ghost predicate ProducerOk<T>(s: State<T>)
  {
    match s.producer
    case PStore(_) => s.unpublished == |s.pushed| - s.published < s.batch && |s.pushed| < s.known + Capacity(s)
    case PPublish(why) =>
      && s.unpublished == |s.pushed| - s.published + (if why.Refused? then 1 else 0) <= s.batch
      && (why.Refused? ==> |s.pushed| == s.known + Capacity(s))
    case PClear(_) => s.unpublished == 0 && s.published == |s.pushed|
    case _ => s.unpublished == |s.pushed| - s.published < s.batch
  }

  ghost predicate ConsumerOk<T>(s: State<T>)
  {
    match s.consumer
    case CIdle => s.freed == |s.popped|
    case CRead => s.freed == |s.popped| < s.seen
    case CFree => s.freed + 1 == |s.popped|
    case _ => s.freed == |s.popped| == s.seen
  }

  ghost predicate Inv<T>(s: State<T>)
  {
    && Counters(s) && ProducerOk(s) && ConsumerOk(s)
    && Holds(s.buffer, s.bits, s.pushed, |s.popped|) && s.popped <= s.pushed
  }

  lemma InitInv<T>(s: State<T>)
    requires Init(s)
    ensures Inv(s)
  {
    WordIsPow();
    PowMono(s.bits, 63);
  }

  lemma RoomIsRoom<T>(s: State<T>)
    requires Counters(s)
    ensures HasRoom(s) <==> |s.pushed| < s.known + Capacity(s)
  {
    WordDistance(|s.pushed|, s.known);
  }

  lemma HoldsOneMore<T>(buffer: seq<T>, bits: nat, pushed: seq<T>, first: nat, t: T)
    requires Holds(buffer, bits, pushed, first) && |buffer| == Pow2(bits)
    requires first <= |pushed| < first + |buffer|
    ensures Holds(buffer[Off(Pow2(bits), |pushed|) := t], bits, pushed + [t], first)
  {
    forall i: nat | first <= i < |pushed| ensures Off(Pow2(bits), i) != Off(Pow2(bits), |pushed|) {
      OffsDiffer(Pow2(bits), i, |pushed|);
    }
    assert forall i: nat | first <= i < |pushed| :: (pushed + [t])[i] == pushed[i];
  }

  /** The producer stores into the slot of its counter. */
  lemma StoresNext<T>(s: State<T>)
    requires Counters(s)
    ensures Masked(s, s.writeLocal) == Off(Pow2(s.bits), |s.pushed|) < |s.buffer|
    ensures Word(s.writeLocal + 1) == Word(|s.pushed| + 1)
  {
    MaskedSlot(|s.pushed|, s.bits);
    WordNext(|s.pushed|);
  }

  lemma StoreKeepsInv<T>(s: State<T>)
    requires Inv(s) && s.producer.PStore? && Enabled(s, Produce)
    ensures Inv(ProducerStep(s))
  {
    StoresNext(s);
    HoldsOneMore(s.buffer, s.bits, s.pushed, |s.popped|, s.producer.t);
  }

  /** The consumer reads the oldest unread value. */
  lemma ReadsNext<T>(s: State<T>)
    requires Inv(s) && s.consumer.CRead?
    ensures Masked(s, s.readLocal) < |s.buffer| && |s.popped| < |s.pushed|
    ensures s.buffer[Masked(s, s.readLocal)] == s.pushed[|s.popped|]
  {
    MaskedSlot(|s.popped|, s.bits);
    assert s.pushed[|s.popped|] == s.buffer[Off(Pow2(s.bits), |s.popped|)];
  }

  lemma ReadKeepsInv<T>(s: State<T>)
    requires Inv(s) && s.consumer.CRead? && Enabled(s, Consume)
    ensures Inv(ConsumerStep(s))
  {
    ReadsNext(s);
    WordNext(|s.popped|);
  }

  lemma ProducerKeepsInv<T>(s: State<T>)
    requires Inv(s) && Enabled(s, Produce)
    ensures Inv(ProducerStep(s))
  {
    if s.producer.PStore? {
      StoreKeepsInv(s);
    } else if s.producer.PLoad? {
      RoomIsRoom(s.(readCached := s.readPub, known := s.freed));
    }
  }

  lemma ConsumerKeepsInv<T>(s: State<T>)
    requires Inv(s) && Enabled(s, Consume)
    ensures Inv(ConsumerStep(s))
  {
    if s.consumer.CRead? {
      ReadKeepsInv(s);
    } else {
      WordDistance(s.published, |s.popped|);
    }
  }

  lemma StepKeepsInv<T>(s: State<T>, e: Event<T>)
    requires Inv(s) && Enabled(s, e)
    ensures Inv(Apply(s, e))
  {
    match e
    case Push(_) => RoomIsRoom(s);
    case Flush =>
    case Produce => ProducerKeepsInv(s);
    case Call(_) => WordDistance(s.seen, |s.popped|);
    case Consume => ConsumerKeepsInv(s);
  }

  lemma {:induction false} RunKeepsInv<T>(states: seq<State<T>>, events: seq<Event<T>>, i: nat)
    requires Run(states, events) && i < |states|
    ensures Inv(states[i])
  {
    if i == 0 {
      InitInv(states[0]);
    } else {
      RunKeepsInv(states, events, i - 1);
      StepKeepsInv(states[i - 1], events[i - 1]);
    }
  }

  // ----- a bounded first in, first out queue -----

  /** The arguments of the pushes that have stored them, in order. */
  ghost function Accepted<T>(states: seq<State<T>>, events: seq<Event<T>>, i: nat): seq<T>
    requires i < |states| && |states| == |events| + 1
  {
    if i == 0 then []
    else if events[i - 1].Produce? && states[i - 1].producer.PStore? then
      Accepted(states, events, i - 1) + [states[i - 1].producer.t]
    else Accepted(states, events, i - 1)
  }

  /** ... which are those of the calls: the value in hand is the argument of the
      latest push. */
  lemma {:induction false} ValueInHand<T>(states: seq<State<T>>, events: seq<Event<T>>, i: nat) returns (k: nat)
    requires Run(states, events) && i < |states| && InHand(states[i])
    ensures k < i && events[k] == Push(states[i].producer.t)
    ensures forall j | k < j < i :: !events[j].Push?
  {
    StepHand(states[i - 1], events[i - 1]);
    if events[i - 1].Push? {
      k := i - 1;
    } else {
      k := ValueInHand(states, events, i - 1);
    }
  }

  predicate InHand<T>(s: State<T>) { s.producer.PLoad? || s.producer.PStore? }

  lemma StepHand<T>(s: State<T>, e: Event<T>)
    requires Enabled(s, e) && InHand(Apply(s, e))
    ensures e == Push(Apply(s, e).producer.t) || (!e.Push? && InHand(s) && s.producer.t == Apply(s, e).producer.t)
  {}

  lemma StepStores<T>(s: State<T>, e: Event<T>)
    requires Enabled(s, e)
    ensures Apply(s, e).pushed == if e.Produce? && s.producer.PStore? then s.pushed + [s.producer.t] else s.pushed
  {}

  lemma {:induction false} AcceptedIsPushed<T>(states: seq<State<T>>, events: seq<Event<T>>, i: nat)
    requires Run(states, events) && i < |states|
    ensures Accepted(states, events, i) == states[i].pushed
  {
    if i > 0 {
      AcceptedIsPushed(states, events, i - 1);
      StepStores(states[i - 1], events[i - 1]);
    }
  }

  /** At every moment the popped values are the first of the accepted ones, and at
      most capacity_ are outstanding. */
  lemma PopsInOrder<T>(states: seq<State<T>>, events: seq<Event<T>>, i: nat)
    requires Run(states, events) && i < |states|
    ensures states[i].popped <= Accepted(states, events, i) == states[i].pushed
    ensures |states[i].pushed| - |states[i].popped| <= Capacity(states[i])
  {
    RunKeepsInv(states, events, i);
    AcceptedIsPushed(states, events, i);
  }

  /** A read returns the oldest value that was not read yet. */
  lemma ReadIsOldest<T>(states: seq<State<T>>, events: seq<Event<T>>, i: nat)
    requires Run(states, events) && i < |events| && events[i].Consume? && states[i].consumer.CRead?
    ensures |states[i].popped| < |states[i].pushed|
    ensures states[i + 1].popped == states[i].popped + [states[i].pushed[|states[i].popped|]]
  {
    RunKeepsInv(states, events, i);
    ReadsNext(states[i]);
  }

  /** No unread slot is overwritten: in every state the slot of every unread value
      holds it, through the counters as words. */
  lemma NoOverwrite<T>(states: seq<State<T>>, events: seq<Event<T>>, i: nat, n: nat)
    requires Run(states, events) && i < |states| && |states[i].popped| <= n < |states[i].pushed|
    ensures var s := states[i];
            Masked(s, Word(n)) < |s.buffer| && s.buffer[Masked(s, Word(n))] == s.pushed[n]
  {
    RunKeepsInv(states, events, i);
    MaskedSlot(n, states[i].bits);
    assert states[i].pushed[n] == states[i].pushed[n];
  }

  /** Every access that is due can be made: masked slots are in range. */
  lemma StepsAreDefined<T>(states: seq<State<T>>, events: seq<Event<T>>, i: nat)
    requires Run(states, events) && i < |states|
    ensures Enabled(states[i], Produce) <==> !states[i].producer.PIdle?
    ensures Enabled(states[i], Consume) <==> !states[i].consumer.CIdle?
  {
    RunKeepsInv(states, events, i);
    MaskedSlot(|states[i].pushed|, states[i].bits);
    MaskedSlot(|states[i].popped|, states[i].bits);
  }

  /** A push is refused exactly when, at its load of read_pub_, capacity_ elements
      are not freed; one that stores without loading has room. */
  lemma RefusedOnlyWhenFull<T>(states: seq<State<T>>, events: seq<Event<T>>, i: nat)
    requires Run(states, events) && i < |events|
    ensures events[i].Produce? && states[i].producer.PLoad? ==>
      (states[i + 1].producer == PPublish(Refused)
       <==> |states[i].pushed| == states[i].freed + Capacity(states[i]))
    ensures states[i].producer.PStore? ==> |states[i].pushed| < states[i].freed + Capacity(states[i])
  {
    RunKeepsInv(states, events, i);
    RunKeepsInv(states, events, i + 1);
    RoomIsRoom(states[i].(readCached := states[i].readPub, known := states[i].freed));
  }

  /** empty() answers after its load that the ring is empty exactly when every
      published element was read; without the load it never does. */
  lemma EmptyMeansEmpty<T>(states: seq<State<T>>, events: seq<Event<T>>, i: nat)
    requires Run(states, events) && i < |events|
    ensures events[i].Consume? && states[i].consumer.CLoad? ==>
      (states[i + 1].readLocal == states[i + 1].writeCached <==> |states[i].popped| == states[i].published)
    ensures events[i].Call? && !states[i + 1].consumer.CAsk? ==> |states[i].popped| < states[i].published
  {
    RunKeepsInv(states, events, i);
    WordDistance(states[i].published, |states[i].popped|);
    WordDistance(states[i].seen, |states[i].popped|);
  }

  // ----- publication -----

  /** Between calls unpublished_push_ is what write_pub_ does not tell of yet, and
      stays below the batch. */
  lemma UnpublishedIsBelowBatch<T>(states: seq<State<T>>, events: seq<Event<T>>, i: nat)
    requires Run(states, events) && i < |states| && states[i].producer.PIdle?
    ensures states[i].unpublished == |states[i].pushed| - states[i].published < states[i].batch
    ensures states[i].unpublished == Word(states[i].writeLocal - states[i].writePub)
  {
    RunKeepsInv(states, events, i);
    WordDistance(|states[i].pushed|, states[i].published);
  }

  /** A call that publishes returns with every element published; so does every
      refused push and every flush. */
  lemma PublishingCallPublishesAll<T>(states: seq<State<T>>, events: seq<Event<T>>, i: nat)
    requires Run(states, events) && i < |events|
    requires (events[i].Produce? && states[i].producer.PClear?) || (events[i].Flush? && states[i + 1].producer.PIdle?)
    ensures states[i + 1].producer.PIdle?
    ensures states[i + 1].published == |states[i + 1].pushed| && states[i + 1].writePub == states[i + 1].writeLocal
  {
    RunKeepsInv(states, events, i);
  }

  // ----- requests to publish -----

  ghost predicate Asks<T>(states: seq<State<T>>, events: seq<Event<T>>, j: nat)
    requires j < |events| < |states|
  {
    events[j].Consume? && states[j].consumer.CAsk?
  }

  ghost predicate Publishes<T>(states: seq<State<T>>, events: seq<Event<T>>, j: nat)
    requires j < |events| < |states|
  {
    events[j].Produce? && states[j].producer.PPublish?
  }

  ghost predicate Clears<T>(states: seq<State<T>>, events: seq<Event<T>>, j: nat)
    requires j < |events| < |states|
  {
    events[j].Produce? && states[j].producer.PClear?
  }

  /** The request of step k was not cleared before step i. */
  ghost predicate Stands<T>(states: seq<State<T>>, events: seq<Event<T>>, k: nat, i: nat)
    requires k < i < |states| == |events| + 1
  {
    Asks(states, events, k) && forall j | k < j < i :: !Clears(states, events, j)
  }

  lemma {:induction false} FlagIsStanding<T>(states: seq<State<T>>, events: seq<Event<T>>, i: nat)
    requires Run(states, events) && i < |states|
    ensures states[i].needPublish <==> exists k: nat :: k < i && Stands(states, events, k, i)
  {
    if i > 0 {
      FlagIsStanding(states, events, i - 1);
      if states[i].needPublish && !Asks(states, events, i - 1) {
        var k: nat :| k < i - 1 && Stands(states, events, k, i - 1);
        assert Stands(states, events, k, i);
      } else if Asks(states, events, i - 1) {
        assert Stands(states, events, i - 1, i);
      } else if k: nat :| k < i && Stands(states, events, k, i) {
        assert !Clears(states, events, i - 1) && Stands(states, events, k, i - 1);
      }
    }
  }

  /** A push whose batch is not complete publishes exactly if a request stands: one
      that no call has cleared since. */
  lemma PublishesOnRequest<T>(states: seq<State<T>>, events: seq<Event<T>>, i: nat)
    requires Run(states, events) && i < |events| && events[i].Produce? && states[i].producer.PAsk?
    ensures states[i + 1].producer.PPublish? <==> exists k: nat :: k < i && Stands(states, events, k, i)
  {
    FlagIsStanding(states, events, i);
  }

  /** What a request leads to until something is published or asked for again: it
      stands, unless the producer was about to clear the flag. */
  lemma {:induction false} RequestSince<T>(states: seq<State<T>>, events: seq<Event<T>>, k: nat, i: nat)
    requires Run(states, events) && k < i < |states| && Asks(states, events, k)
    requires forall j | k < j < i :: !Asks(states, events, j) && !Publishes(states, events, j)
    requires !Publishes(states, events, k)
    ensures states[i].producer.PClear? ==> states[k].producer.PClear?
    ensures states[i].needPublish <==> states[i].producer.PClear? || !states[k].producer.PClear?
  {
    if i > k + 1 {
      RequestSince(states, events, k, i - 1);
      assert !Asks(states, events, i - 1) && !Publishes(states, events, i - 1);
    }
  }

  /** When that is, by what the producer was doing: a push that looks for a request,
      with nothing published and nothing asked
      since the consumer's last one, finds it exactly if the producer was not about
      to clear the flag when the consumer set it. */
  lemma RequestIsFound<T>(states: seq<State<T>>, events: seq<Event<T>>, k: nat, i: nat)
    requires Run(states, events) && k < i < |events| && Asks(states, events, k)
    requires forall j | k <= j < i :: (j > k ==> !Asks(states, events, j)) && !Publishes(states, events, j)
    requires events[i].Produce? && states[i].producer.PAsk?
    ensures states[i + 1].producer.PPublish? <==> !states[k].producer.PClear?
  {
    assert !Publishes(states, events, k);
    forall j | k < j < i ensures !Asks(states, events, j) && !Publishes(states, events, j) {
      assert !Publishes(states, events, j);
    }
    RequestSince(states, events, k, i);
  }

  /** What holds until the n elements pushed before a request are published: the
      flag stands, and a push that has stored since is about to publish. */
  ghost predicate Served<T>(s: State<T>, n: nat)
  {
    && |s.pushed| >= n
    && (s.published >= n
        || (s.needPublish && !s.producer.PClear?
            && (|s.pushed| > n ==> s.producer.PAsk? || s.producer.PPublish?)))
  }

  lemma StepKeepsServed<T>(s: State<T>, e: Event<T>, n: nat)
    requires Inv(s) && Enabled(s, e)
    requires Served(s, n) || (n == |s.pushed| && e.Consume? && s.consumer.CAsk?)
    ensures Served(Apply(s, e), n)
  {}

  lemma {:induction false} ServedSince<T>(states: seq<State<T>>, events: seq<Event<T>>, k: nat, i: nat)
    requires Run(states, events) && k < i < |states| && Asks(states, events, k)
    ensures Served(states[i], |states[k].pushed|)
  {
    if i > k + 1 { ServedSince(states, events, k, i - 1); }
    RunKeepsInv(states, events, i - 1);
    StepKeepsServed(states[i - 1], events[i - 1], |states[k].pushed|);
  }

  /** Either way a request is served: as soon as one push that stores after it has
      returned, everything pushed before it is published. */
  lemma RequestIsServed<T>(states: seq<State<T>>, events: seq<Event<T>>, k: nat, i: nat)
    requires Run(states, events) && k < i < |states| && Asks(states, events, k)
    requires states[i].producer.PIdle? && |states[i].pushed| > |states[k].pushed|
    ensures states[i].published >= |states[k].pushed|
  {
    ServedSince(states, events, k, i);
  }

  lemma Join<T>(a: seq<State<T>>, e: seq<Event<T>>, b: seq<State<T>>, f: seq<Event<T>>)
    requires Steps(a, e) && Steps(b, f) && a[|e|] == b[0]
    ensures Steps(a + b[1..], e + f)
  {
    var s, g := a + b[1..], e + f;
    forall i | 0 <= i < |g| ensures Enabled(s[i], g[i]) && s[i + 1] == Apply(s[i], g[i]) {
      if i >= |e| { assert s[i] == b[i - |e|] && g[i] == f[i - |e|]; }
    }
  }

  /** The producer stores one value; the consumer looks for it in vain and asks; the
      producer finds the request. */
  lemma StoreAndAsk<T>(s0: State<T>, a: T) returns (states: seq<State<T>>, events: seq<Event<T>>)
    requires Init(s0) && s0.bits == 1 && s0.batch == 2
    ensures Run(states, events) && states[0] == s0 && |events| == 5
    ensures states[5] == s0.(buffer := s0.buffer[0 := a], writeLocal := 1, pushed := [a], unpublished := 1,
                             needPublish := true, producer := PPublish(Stored), consumer := CLoad(Pop))
  {
    MaskedSlot(0, 1);
    var s1 := s0.(producer := PStore(a));
    var s2 := s1.(buffer := s1.buffer[0 := a], writeLocal := 1, pushed := [a], unpublished := 1, producer := PAsk);
    var s3 := s2.(consumer := CAsk(Pop));
    var s4 := s3.(needPublish := true, consumer := CLoad(Pop));
    var s5 := s4.(producer := PPublish(Stored));
    states, events := [s0, s1, s2, s3, s4, s5], [Push(a), Produce, Call(Pop), Consume, Produce];
  }

  /** ... publishes the value, and has it read before the flag is cleared. */
  lemma ReadPublished<T>(s: State<T>, a: T) returns (states: seq<State<T>>, events: seq<Event<T>>)
    requires s.producer == PPublish(Stored) && s.consumer == CLoad(Pop) && s.writeLocal == 1
    requires s.readLocal == 0 && s.popped == [] && s.pushed == [a] && s.bits == 1 && |s.buffer| == 2 && s.buffer[0] == a
    ensures Steps(states, events) && states[0] == s && |events| == 4
    ensures states[4] == s.(writePub := 1, published := 1, unpublished := 0, producer := PClear(Stored),
                            writeCached := 1, seen := 1, popped := [a], readLocal := 1, readPub := 1, freed := 1,
                            consumer := CIdle)
  {
    MaskedSlot(0, 1);
    var s6 := s.(writePub := 1, published := 1, unpublished := 0, producer := PClear(Stored));
    var s7 := s6.(writeCached := 1, seen := 1, consumer := CRead);
    var s8 := s7.(popped := [a], readLocal := 1, consumer := CFree);
    var s9 := s8.(readPub := 1, freed := 1, consumer := CIdle);
    states, events := [s, s6, s7, s8, s9], [Produce, Consume, Consume, Consume];
  }

  /** A request that is erased: the consumer has read what was just published and
      asks again before the producer clears the flag; the next push stores its
      value and publishes nothing. */
  lemma ErasedRequest<T>(s0: State<T>, a: T, b: T) returns (states: seq<State<T>>, events: seq<Event<T>>)
    requires Init(s0) && s0.bits == 1 && s0.batch == 2
    ensures Run(states, events) && states[0] == s0 && |events| == 16
    ensures Asks(states, events, 10) && states[10].producer.PClear? && events[13] == Push(b)
    ensures states[16].producer.PIdle? && states[16].pushed == [a, b]
    ensures states[16].published == 1 && states[16].popped == [a]
  {
    var xs, es := StoreAndAsk(s0, a);
    var ys, fs := ReadPublished(xs[5], a);
    var zs, gs := AskAndClear(ys[4], b);
    Join(xs, es, ys, fs);
    Join(xs + ys[1..], es + fs, zs, gs);
    states, events := xs + ys[1..] + zs[1..], es + fs + gs;
  }

  lemma AskAndClear<T>(s: State<T>, b: T) returns (states: seq<State<T>>, events: seq<Event<T>>)
    requires s.producer.PClear? && s.consumer.CIdle? && s.writeLocal == s.readLocal == s.writeCached == s.writePub == 1
    requires s.readCached == 0 && s.bits == 1 && s.batch == 2 && s.unpublished == 0
    requires |s.buffer| == 2 && |s.pushed| == 1
    ensures Steps(states, events) && states[0] == s && |events| == 7
    ensures states[1].consumer.CAsk? && states[1].producer.PClear? && events[1] == Consume && events[4] == Push(b)
    ensures states[7].producer.PIdle? && states[7].pushed == s.pushed + [b]
    ensures states[7].published == s.published && states[7].popped == s.popped
  {
    MaskedSlot(1, 1);
    var s1 := s.(consumer := CAsk(Pop));
    var s2 := s1.(needPublish := true, consumer := CLoad(Pop));
    var s3 := s2.(seen := s.published, consumer := CIdle);
    var s4 := s3.(needPublish := false, producer := PIdle);
    var s5 := s4.(producer := PStore(b));
    var s6 := s5.(buffer := s5.buffer[1 := b], writeLocal := 2, pushed := s.pushed + [b], unpublished := 1,
                  producer := PAsk);
    var s7 := s6.(producer := PIdle);
    states := [s, s1, s2, s3, s4, s5, s6, s7];
    events := [Call(Pop), Consume, Consume, Produce, Push(b), Produce, Produce];
  }

  // ----- what a call achieves -----

  function ProducerRank<T>(p: Producer<T>): nat
  {
    match p
    case PIdle => 0
    case PClear(_) => 1
    case PPublish(_) => 2
    case PAsk => 3
    case PStore(_) => 4
    case PLoad(_) => 5
  }

  function ConsumerRank(c: Consumer): nat
  {
    match c
    case CIdle => 0
    case CFree => 1
    case CRead => 2
    case CLoad(_) => 3
    case CAsk(_) => 4
  }

  /** Both sides are wait-free: whatever the other one does, a push or flush is over
      after at most five own steps, a pop or empty() after at most four. */
  lemma CallsDescend<T>(states: seq<State<T>>, events: seq<Event<T>>, i: nat)
    requires Run(states, events) && i < |events|
    ensures var s, s' := states[i], states[i + 1];
            && (if events[i].Produce? then ProducerRank(s'.producer) < ProducerRank(s.producer)
                else events[i].Push? || events[i].Flush? || s'.producer == s.producer)
            && (if events[i].Consume? then ConsumerRank(s'.consumer) < ConsumerRank(s.consumer)
                else events[i].Call? || s'.consumer == s.consumer)
            && ProducerRank(s'.producer) <= 5 && ConsumerRank(s'.consumer) <= 4
            && (ProducerRank(s'.producer) == 0 <==> s'.producer.PIdle?)
            && (ConsumerRank(s'.consumer) == 0 <==> s'.consumer.CIdle?)
  {}

  /** The producer is in one call from event k up to state j. */
  ghost predicate InCall<T>(states: seq<State<T>>, events: seq<Event<T>>, k: nat, j: nat)
  {
    && k < j < |states| == |events| + 1 && forall m | k < m < j :: !states[m].producer.PIdle?
  }

  /** In a push of t onto p0 that is accepted so far, or was refused. */
  ghost predicate Pushing<T>(s: State<T>, p0: seq<T>, t: T)
  {
    match s.producer
    case PIdle => s.pushed == p0 + [t]
    case PLoad(x) => x == t && s.pushed == p0
    case PStore(x) => x == t && s.pushed == p0
    case PAsk => s.pushed == p0 + [t]
    case PPublish(why) => why.Stored? && s.pushed == p0 + [t]
    case PClear(why) => why.Stored? && s.pushed == p0 + [t]
  }

  ghost predicate TurnedAway<T>(s: State<T>, p0: seq<T>)
  {
    s.pushed == p0 && (s.producer == PPublish(Refused) || s.producer == PClear(Refused) || s.producer.PIdle?)
  }

  ghost predicate Filled<T>(s: State<T>) { |s.pushed| == s.freed + Capacity(s) }

  lemma PushStep<T>(s: State<T>, e: Event<T>, p0: seq<T>, t: T)
    requires Inv(s) && Enabled(s, e) && !s.producer.PIdle?
    ensures Pushing(s, p0, t) ==> Pushing(Apply(s, e), p0, t) || (TurnedAway(Apply(s, e), p0) && Filled(s))
    ensures TurnedAway(s, p0) ==> TurnedAway(Apply(s, e), p0)
  {
    if s.producer.PLoad? { RoomIsRoom(s.(readCached := s.readPub, known := s.freed)); }
  }

  lemma PushStepAt<T>(states: seq<State<T>>, events: seq<Event<T>>, p0: seq<T>, t: T, m: nat)
    requires Run(states, events) && m < |events| && !states[m].producer.PIdle?
    ensures Pushing(states[m], p0, t) ==>
      Pushing(states[m + 1], p0, t) || (TurnedAway(states[m + 1], p0) && Filled(states[m]))
    ensures TurnedAway(states[m], p0) ==> TurnedAway(states[m + 1], p0)
  {
    RunKeepsInv(states, events, m);
    PushStep(states[m], events[m], p0, t);
  }

  /** A push that returns has stored its value behind the others, or has stored nothing
      and found capacity_ elements not freed at a moment of the call. */
  lemma PushIsDecided<T>(states: seq<State<T>>, events: seq<Event<T>>, t: T, k: nat, j: nat)
    requires Run(states, events) && InCall(states, events, k, j) && events[k] == Push(t)
    ensures Pushing(states[j], states[k].pushed, t)
         || (TurnedAway(states[j], states[k].pushed) && Saw(states, k, j, s => Filled(s)))
  {
    var p0 := states[k].pushed;
    assert Enabled(states[k], events[k]) && states[k + 1] == Apply(states[k], events[k]);
    forall m | k < m < j
      ensures Pushing(states[m], p0, t) ==>
        Pushing(states[m + 1], p0, t) || (TurnedAway(states[m + 1], p0) && Filled(states[m]))
      ensures TurnedAway(states[m], p0) ==> TurnedAway(states[m + 1], p0)
    {
      PushStepAt(states, events, p0, t, m);
    }
    UntilSaw(states, k, j, s => Pushing(s, p0, t), s => Filled(s));
    UntilSaw(states, k, j, s => Pushing(s, p0, t) || TurnedAway(s, p0), s => false);
  }

  ghost predicate Publishing<T>(s: State<T>, p0: seq<T>)
  {
    s.pushed == p0 && (s.producer.PPublish? || (s.producer.PClear? && s.published == |p0|)
                       || (s.producer.PIdle? && s.published == |p0|))
  }

  lemma FlushStepAt<T>(states: seq<State<T>>, events: seq<Event<T>>, p0: seq<T>, m: nat)
    requires Run(states, events) && m < |events|
    requires (Publishing(states[m], p0) && !states[m].producer.PIdle?)
          || (events[m].Flush? && states[m].pushed == p0)
    ensures Publishing(states[m + 1], p0)
  {
    RunKeepsInv(states, events, m);
  }

  /** A flush that returns leaves everything published. */
  lemma FlushPublishes<T>(states: seq<State<T>>, events: seq<Event<T>>, k: nat, j: nat)
    requires Run(states, events) && InCall(states, events, k, j) && events[k].Flush? && states[j].producer.PIdle?
    ensures states[j].pushed == states[k].pushed && states[j].published == |states[k].pushed|
  {
    var p0 := states[k].pushed;
    FlushStepAt(states, events, p0, k);
    forall m | k < m < j && Publishing(states[m], p0) ensures Publishing(states[m + 1], p0) {
      FlushStepAt(states, events, p0, m);
    }
    UntilSaw(states, k, j, s => Publishing(s, p0), s => false);
  }

  /** The consumer is in one call from event k up to state j. */
  ghost predicate InPop<T>(states: seq<State<T>>, events: seq<Event<T>>, k: nat, j: nat)
  {
    && k < j < |states| == |events| + 1 && forall m | k < m < j :: !states[m].consumer.CIdle?
  }

  /** In a call that has read nothing yet, or has read the next value. */
  ghost predicate Popping<T>(s: State<T>, n: nat, call: Call)
  {
    match s.consumer
    case CIdle => if call.Pop? then |s.popped| == n + 1 else |s.popped| == n < s.published
    case CAsk(c) => c == call && |s.popped| == n
    case CLoad(c) => c == call && |s.popped| == n
    case CRead => call.Pop? && |s.popped| == n
    case CFree => call.Pop? && |s.popped| == n + 1
  }

  ghost predicate Drained<T>(s: State<T>) { |s.popped| == s.published }

  lemma PopCall<T>(s: State<T>, call: Call)
    requires Counters(s) && ConsumerOk(s) && Enabled(s, Call(call))
    ensures Popping(Apply(s, Call(call)), |s.popped|, call)
  {
    WordDistance(s.seen, |s.popped|);
  }

  lemma PopStep<T>(s: State<T>, e: Event<T>, n: nat, call: Call)
    requires Counters(s) && Enabled(s, e) && Popping(s, n, call) && !s.consumer.CIdle?
    ensures Popping(Apply(s, e), n, call) || (Apply(s, e).consumer.CIdle? && |Apply(s, e).popped| == n && Drained(s))
  {
    if e.Consume? { WordDistance(s.published, |s.popped|); }
  }

  lemma PopStepAt<T>(states: seq<State<T>>, events: seq<Event<T>>, n: nat, call: Call, m: nat)
    requires Run(states, events) && m < |events|
    ensures events[m] == Call(call) && |states[m].popped| == n ==> Popping(states[m + 1], n, call)
    ensures Popping(states[m], n, call) && !states[m].consumer.CIdle? ==>
      Popping(states[m + 1], n, call)
      || (states[m + 1].consumer.CIdle? && |states[m + 1].popped| == n && Drained(states[m]))
  {
    RunKeepsInv(states, events, m);
    if events[m].Call? {
      PopCall(states[m], events[m].call);
    } else if Popping(states[m], n, call) && !states[m].consumer.CIdle? {
      PopStep(states[m], events[m], n, call);
    }
  }

  ghost predicate FoundNothing<T>(s: State<T>, n: nat) { s.consumer.CIdle? && |s.popped| == n }

  /** A pop that returns has read one value, which is the oldest (ReadIsOldest), or
      has read nothing and found nothing published unread at a moment of the call;
      empty() reads nothing and says false only if something is there. */
  lemma PopIsDecided<T>(states: seq<State<T>>, events: seq<Event<T>>, call: Call, k: nat, j: nat)
    requires Run(states, events) && InPop(states, events, k, j) && events[k] == Call(call)
    ensures Popping(states[j], |states[k].popped|, call)
         || (FoundNothing(states[j], |states[k].popped|) && Saw(states, k, j, s => Drained(s)))
  {
    var n := |states[k].popped|;
    PopStepAt(states, events, n, call, k);
    forall m | k < m < j && Popping(states[m], n, call)
      ensures Popping(states[m + 1], n, call) || (FoundNothing(states[m + 1], n) && Drained(states[m]))
    {
      PopStepAt(states, events, n, call, m);
    }
    UntilSaw(states, k, j, s => Popping(s, n, call), s => Drained(s));
    UntilSaw(states, k, j, s => Popping(s, n, call) || FoundNothing(s, n), s => false);
  }
}
