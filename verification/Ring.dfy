/** The single-producer single-consumer ring of ring.hpp: batched publication,
    cached indices and size_t counters that wrap around, against a bounded first
    in, first out queue.

    The shared accesses are methods of their own, which keep Valid() and change
    only fields of their own side; the calls are built from them. How the accesses
    of two threads interleave is the subject of RingRuns.

    Ghost fields hold what the words stand for: `pushed` all values pushed so far,
    and how many of them are published, seen (write_cached_), read, freed
    (read_pub_) and known to be freed (read_cached_). */
module Ring {
  import opened BlockMath
  import opened Words
  import opened Bits

  class Ring<T(0)> {
    const capacity: nat
    const mask: nat
    const batch: nat
    const buffer: array<T>
    ghost const bits: nat

    var writeLocal: nat      // producer only
    var unpublished: nat     // producer only, unpublished_push_
    var readCached: nat      // producer only
    var writePub: nat        // producer to consumer
    var readLocal: nat       // consumer only
    var writeCached: nat     // consumer only
    var readPub: nat         // consumer to producer
    var needPublish: bool

    ghost var pushed: seq<T>
    ghost var published: nat
    ghost var seen: nat
    ghost var read: nat
    ghost var freed: nat
    ghost var known: nat

    ghost predicate Shape()
      reads this
    {
      && 0 < bits < 64 && capacity == Pow2(bits) && mask == capacity - 1 && buffer.Length == capacity && batch > 0
    }

    ghost predicate Counters()
      reads this
    {
      && writeLocal == Word(|pushed|) && writePub == Word(published) && writeCached == Word(seen)
      && readLocal == Word(read) && readPub == Word(freed) && readCached == Word(known)
      && known <= freed <= read <= seen <= published <= |pushed| <= known + capacity
      && capacity < WORD
    }

    /** Every unread element is in its slot. */
    ghost predicate Unread()
      requires Shape()
      reads this, buffer
    {
      forall i: nat | read <= i < |pushed| :: Off(capacity, i) < capacity
          && buffer[Off(capacity, i)] == pushed[i]
    }

    ghost predicate Valid()
      reads this, buffer
    {
      Shape() && Counters() && Unread()
    }

    /** The producer is between calls. */
    ghost predicate ProducerQuiet()
      reads this`unpublished, this`pushed, this`published
    {
      published <= |pushed| && unpublished == |pushed| - published < batch
    }

    /** The consumer is between calls. */
    ghost predicate ConsumerQuiet()
      reads this`read, this`freed
    {
      read == freed
    }

    constructor (request: nat, publishBatch: nat)
      requires request <= Pow2(63)
      ensures Valid() && ProducerQuiet() && ConsumerQuiet() && pushed == [] && read == 0
      ensures LeastPowerOf2(capacity, if request > 1 then request else 2)
      ensures batch == if publishBatch > 0 then publishBatch else 1
      ensures fresh(buffer)
    {
      WordIsPow();
      var c := RoundUpPow2(if request > 1 then request else 2);
      ghost var n :| c == Pow2(n);
      CapacityBits(c, n);
      capacity, mask, bits := c, c - 1, n;
      batch := if publishBatch > 0 then publishBatch else 1;
      buffer := new T[c];
      writeLocal, writeCached, writePub, unpublished := 0, 0, 0, 0;
      readLocal, readCached, readPub, needPublish := 0, 0, 0, false;
      pushed, published, seen, read, freed, known := [], 0, 0, 0, 0, 0;
    }

    // ----- the consumer's accesses -----

    method AskPublish()
      requires Valid()
      modifies this`needPublish
      ensures Valid() && needPublish
    {
      needPublish := true;
    }

    method LoadWritePub()
      requires Valid()
      modifies this`writeCached, this`seen
      ensures Valid() && seen == published
    {
      writeCached := writePub;
      seen := published;
    }

    /** Reads the front element; the guard says that the cached tail is ahead. */
    method Take() returns (t: T)
      requires Valid() && readLocal != writeCached
      modifies this`readLocal, this`read
      ensures Valid() && old(read) < seen && t == pushed[old(read)] && read == old(read) + 1
    {
      MaskedSlot(read, bits);
      assert buffer[Off(capacity, read)] == pushed[read];
      t := buffer[And(readLocal, mask)];
      WordNext(read);
      readLocal := Word(readLocal + 1);
      read := read + 1;
    }

    method StoreReadPub()
      requires Valid()
      modifies this`readPub, this`freed
      ensures Valid() && ConsumerQuiet()
    {
      readPub := readLocal;
      freed := read;
    }

    // ----- the producer's accesses -----

    /** Room in the ring as far as the producer's cached head tells. */
    predicate HasRoom()
      reads this`writeLocal, this`readCached
    {
      Word(writeLocal - readCached) < capacity
    }

    lemma RoomIsRoom()
      requires Valid()
      ensures HasRoom() <==> |pushed| < known + capacity
      ensures Word(writeLocal - readCached) == |pushed| - known
    {
      WordDistance(|pushed|, known);
    }

    method LoadReadPub()
      requires Valid()
      modifies this`readCached, this`known
      ensures Valid() && known == freed
    {
      readCached := readPub;
      known := freed;
    }

    /** back() = t, before the element counts as pushed. */
    method Store(t: T)
      requires Valid() && HasRoom()
      modifies buffer
      ensures Valid() && Off(capacity, |pushed|) < capacity && buffer[Off(capacity, |pushed|)] == t
    {
      RoomIsRoom();
      MaskedSlot(|pushed|, bits);
      forall i: nat | read <= i < |pushed| ensures Off(capacity, i) != Off(capacity, |pushed|) {
        OffsDiffer(capacity, i, |pushed|);
      }
      buffer[And(writeLocal, mask)] := t;
    }

    /** ++write_local_ */
    method Commit()
      requires Valid() && HasRoom()
      modifies this`writeLocal, this`pushed
      ensures Valid() && Off(capacity, old(|pushed|)) < capacity
      ensures pushed == old(pushed) + [buffer[Off(capacity, old(|pushed|))]]
    {
      RoomIsRoom();
      WordNext(|pushed|);
      writeLocal := Word(writeLocal + 1);
      pushed := pushed + [buffer[Off(capacity, |pushed|)]];
    }

    method StoreWritePub()
      requires Valid()
      modifies this`writePub, this`published, this`unpublished
      ensures Valid() && ProducerQuiet() && published == |pushed|
    {
      writePub := writeLocal;
      published := |pushed|;
      unpublished := 0;
    }

    method ClearRequest()
      requires Valid()
      modifies this`needPublish
      ensures Valid() && !needPublish
    {
      needPublish := false;
    }

    // ----- the consumer's calls -----

    /** True exactly when nothing published is unread; then the producer has been
        asked to publish. */
    method Empty() returns (e: bool)
      requires Valid()
      modifies this`needPublish, this`writeCached, this`seen
      ensures Valid() && (e <==> read == published) && (e ==> needPublish)
      ensures e <==> readLocal == writeCached
    {
      WordDistance(seen, read);
      if readLocal != writeCached {
        return false;
      }
      AskPublish();
      LoadWritePub();
      WordDistance(seen, read);
      e := readLocal == writeCached;
    }

    method Pop() returns (ok: bool, t: T)
      requires Valid() && ConsumerQuiet()
      modifies this`needPublish, this`writeCached, this`seen, this`readLocal, this`read, this`readPub, this`freed
      ensures Valid() && ConsumerQuiet()
      ensures ok <==> old(read) < published
      ensures ok ==> read == old(read) + 1 && t == pushed[old(read)]
      ensures !ok ==> read == old(read) && needPublish
    {
      var e := Empty();
      if e {
        ok, t := false, *;
        return;
      }
      t := Take();
      StoreReadPub();
      ok := true;
    }

    // ----- the producer's calls -----

    /** True exactly when the ring holds capacity_ elements the consumer has not
        freed. */
    method Full() returns (f: bool)
      requires Valid()
      modifies this`readCached, this`known
      ensures Valid() && (f <==> |pushed| == freed + capacity) && (f <==> !HasRoom())
    {
      RoomIsRoom();
      if Word(writeLocal - readCached) < capacity {
        return false;
      }
      LoadReadPub();
      RoomIsRoom();
      f := Word(writeLocal - readCached) >= capacity;
    }

    method PublishWrite(force: bool)
      requires Valid() && unpublished < batch
      requires force || unpublished + 1 == |pushed| - published
      modifies this`unpublished, this`writePub, this`published, this`needPublish
      ensures Valid() && ProducerQuiet()
      ensures force || old(needPublish) || old(unpublished) + 1 == batch ==> published == |pushed|
      ensures published == |pushed| || published == old(published)
    {
      unpublished := unpublished + 1;
      if !force && unpublished < batch && !needPublish {
        return;
      }
      StoreWritePub();
      ClearRequest();
    }

    /** push(), after the caller has stored into back(). */
    method PushBack()
      requires Valid() && ProducerQuiet() && HasRoom()
      modifies this`writeLocal, this`pushed, this`unpublished, this`writePub, this`published, this`needPublish
      ensures Valid() && ProducerQuiet() && Off(capacity, old(|pushed|)) < capacity
      ensures pushed == old(pushed) + [buffer[Off(capacity, old(|pushed|))]]
      ensures old(needPublish) ==> published == |pushed|
    {
      Commit();
      PublishWrite(false);
    }

    /** A refused push leaves every element published; one that is accepted
        appends, and publishes when asked to or when the batch is complete. */
    method Push(t: T) returns (ok: bool)
      requires Valid() && ProducerQuiet()
      modifies buffer, this`readCached, this`known, this`writeLocal, this`pushed,
               this`unpublished, this`writePub, this`published, this`needPublish
      ensures Valid() && ProducerQuiet()
      ensures ok <==> old(|pushed|) < freed + capacity
      ensures pushed == if ok then old(pushed) + [t] else old(pushed)
      ensures !ok || old(needPublish) || batch == 1 ==> published == |pushed|
    {
      var f := Full();
      if f {
        PublishWrite(true);
        return false;
      }
      Store(t);
      PushBack();
      ok := true;
    }

    method Flush()
      requires Valid() && ProducerQuiet()
      modifies this`unpublished, this`writePub, this`published, this`needPublish
      ensures Valid() && ProducerQuiet() && published == |pushed|
    {
      if unpublished == 0 {
        return;
      }
      StoreWritePub();
      ClearRequest();
    }

    /** approx_size counts what is published and not freed. */
    method ApproxSize() returns (n: nat)
      requires Valid()
      ensures n == published - freed <= capacity
    {
      WordDistance(published, freed);
      n := Word(writePub - readPub);
    }
  }

  lemma CapacityBits(c: nat, n: nat)
    requires c == Pow2(n) && 2 <= c <= Pow2(63)
    ensures 0 < n < 64 && c < WORD
  {
    WordIsPow();
    if n >= 64 { PowMono(64, n); }
  }
}
