/**
 Publication (src/mulle--pointerfifo64.h:81-99): the counter orders everything else.

 Happens-before as in section 5.1.2.4 of ISO/IEC 9899:2011, for a run in which the
 accesses to `n` are the only synchronisation.  Every modification of `n` is a
 read-modify-write, so a load of `n` reads from the release sequence of every earlier
 one.  Only read-modify-writes release here and only loads acquire, which is less than
 what sequentially consistent atomics give.  Slots, private indices and whatever the
 pointers point to are taken to be plain memory.
 */
module HappensBefore {
  import opened Pointers
  import opened Machine
  import opened Invariant
  import opened AtomicQueue
  import opened Refinement
  import opened Tickets
  import Ring

  /** This action increments or decrements `n`. */
  predicate Releases(s: State, a: Action) {
    (a.ProducerStep? && s.producer.PIncrement?) || (a.ConsumerStep? && s.consumer.CDecrement?)
  }

  /** This action loads `n`. */
  predicate Acquires(s: State, a: Action) {
    || (a.ProducerStep? && s.producer.PLoad?)
    || (a.ConsumerStep? && s.consumer.CLoad?)
    || (a.ObserverStep? && a.id in s.observers && s.observers[a.id].OLoad?)
  }

  /** Exactly the actions that release change `n`. */
  lemma {:induction false} ReleasesChangeCount(s: State, a: Action)
    ensures Releases(s, a) <==> Step(s, a).mem.n != s.mem.n
  {
  }

  /** The same state with another count. */
  function WithCount(s: State, n: int): State {
    s.(mem := s.mem.(n := n))
  }

  /** Where all the threads are. */
  function Threads(s: State): (ProducerPc, ConsumerPc, map<nat, ObserverPc>) {
    (s.producer, s.consumer, s.observers)
  }

  lemma {:induction false} OthersIgnoreCount(s: State, a: Action, n: int)
    requires !Acquires(s, a)
    ensures Threads(Step(WithCount(s, n), a)) == Threads(Step(s, a))
  {
  }

  /** Exactly at the actions that acquire, what a thread does next depends on the value of `n`. */
  lemma {:induction false} AcquiresReadCount(s: State, a: Action)
    ensures Acquires(s, a) <==> exists n :: Threads(Step(WithCount(s, n), a)) != Threads(Step(s, a))
  {
    if Acquires(s, a) {
      var n := match a
               case ProducerStep => if s.mem.n == s.mem.size then s.mem.size + 1 else s.mem.size
               case ConsumerStep => if s.mem.n == 0 then 1 else 0
               case _ => s.mem.n + 1;
      var x, y := Step(WithCount(s, n), a), Step(s, a);
      if a.ObserverStep? {
        assert x.observers[a.id] != y.observers[a.id];
      }
      assert Threads(x) != Threads(y);
    } else {
      forall n ensures Threads(Step(WithCount(s, n), a)) == Threads(Step(s, a)) {
        OthersIgnoreCount(s, a, n);
      }
    }
  }

  ghost predicate SequencedBefore(sched: Schedule, i: nat, j: nat) {
    i < j && ThreadOf(sched(i)) == ThreadOf(sched(j))
  }

  ghost predicate SynchronizesWith(s: State, sched: Schedule, i: nat, j: nat) {
    i < j && Releases(At(s, sched, i), sched(i)) && Acquires(At(s, sched, j), sched(j))
  }

  /** The transitive closure of the two. */
  ghost predicate Before(s: State, sched: Schedule, i: nat, j: nat)
    decreases j - i
  {
    && i < j
    && (|| SequencedBefore(sched, i, j)
        || SynchronizesWith(s, sched, i, j)
        || exists k | i < k < j :: Before(s, sched, i, k) && Before(s, sched, k, j))
  }

  /** The thread of `i` releases at `r`, from `i` on, and the thread of `j` acquires later at `l`, up to `j`. */
  ghost predicate Passes(s: State, sched: Schedule, i: nat, r: nat, l: nat, j: nat) {
    && i <= r < l <= j
    && ThreadOf(sched(i)) == ThreadOf(sched(r)) && ThreadOf(sched(l)) == ThreadOf(sched(j))
    && Releases(At(s, sched, r), sched(r)) && Acquires(At(s, sched, l), sched(l))
  }

  /** Sequenced, synchronised, sequenced: the one path that is ever needed. */
  lemma {:induction false} Path(s: State, sched: Schedule, i: nat, r: nat, l: nat, j: nat)
    requires Passes(s, sched, i, r, l, j)
    ensures Before(s, sched, i, j)
  {
    assert Before(s, sched, r, l);
    if l < j {
      assert Before(s, sched, l, j);
      assert Before(s, sched, r, j);
    }
    if i < r {
      assert Before(s, sched, i, r);
    }
  }

  /** However long the chain, its first release and its last acquisition are enough. */
  lemma {:induction false} Shorten(s: State, sched: Schedule, i: nat, j: nat) returns (r: nat, l: nat)
    requires Before(s, sched, i, j)
    ensures ThreadOf(sched(i)) == ThreadOf(sched(j)) || Passes(s, sched, i, r, l, j)
    decreases j - i
  {
    r, l := i, j;
    if !SequencedBefore(sched, i, j) && !SynchronizesWith(s, sched, i, j) {
      var k :| i < k < j && Before(s, sched, i, k) && Before(s, sched, k, j);
      var r0, l0 := Shorten(s, sched, i, k);
      var r1, l1 := Shorten(s, sched, k, j);
      r := if ThreadOf(sched(i)) == ThreadOf(sched(k)) then r1 else r0;
      l := if ThreadOf(sched(k)) == ThreadOf(sched(j)) then l0 else l1;
    }
  }

  /**
   Between threads nothing but the counter orders anything: one action happens before
   another of a different thread exactly if a release by the one thread and a later
   acquisition by the other stand between them.
   */
  lemma {:induction false} OnlyTheCounterOrders(s: State, sched: Schedule, i: nat, j: nat)
    ensures Before(s, sched, i, j) <==>
            i < j && (ThreadOf(sched(i)) == ThreadOf(sched(j)) || exists r, l :: Passes(s, sched, i, r, l, j))
  {
    if Before(s, sched, i, j) {
      var r, l := Shorten(s, sched, i, j);
    } else if exists r, l :: Passes(s, sched, i, r, l, j) {
      var r, l :| Passes(s, sched, i, r, l, j);
      Path(s, sched, i, r, l, j);
    }
  }

  // ----- Counting

  lemma {:induction false} Monotone(s: State, sched: Schedule, i: nat, j: nat)
    requires i <= j
    ensures Published(s, sched, i) <= Published(s, sched, j) && Retired(s, sched, i) <= Retired(s, sched, j)
  {
    if i == j {
    } else {
      Monotone(s, sched, i, j - 1);
    }
  }

  /** If the published count has passed `k` by `j` and not by `i`, an increment in between took it there. */
  lemma {:induction false} FindIncrement(s: State, sched: Schedule, i: nat, j: nat, k: nat) returns (r: nat)
    requires Published(s, sched, i) <= k < Published(s, sched, j)
    ensures i <= r < j && Published(s, sched, r) == k
    ensures sched(r).ProducerStep? && At(s, sched, r).producer.PIncrement?
  {
    if j <= i {
      Monotone(s, sched, j, i);
      assert false;
    }
    if Published(s, sched, j - 1) > k {
      r := FindIncrement(s, sched, i, j - 1, k);
    } else {
      r := j - 1;
    }
  }

  lemma {:induction false} FindDecrement(s: State, sched: Schedule, i: nat, j: nat, k: nat) returns (r: nat)
    requires Retired(s, sched, i) <= k < Retired(s, sched, j)
    ensures i <= r < j && Retired(s, sched, r) == k
    ensures sched(r).ConsumerStep? && At(s, sched, r).consumer.CDecrement?
  {
    if j <= i {
      Monotone(s, sched, j, i);
      assert false;
    }
    if Retired(s, sched, j - 1) > k {
      r := FindDecrement(s, sched, i, j - 1, k);
    } else {
      r := j - 1;
    }
  }

  /** A consumer past its test has loaded `n` when the ticket it is about to take was already published. */
  lemma {:induction false} FindConsumerLoad(s: State, sched: Schedule, j: nat) returns (l: nat)
    requires Initial(s) && PastEmptyTest(At(s, sched, j).consumer)
    ensures l < j && sched(l).ConsumerStep? && At(s, sched, l).consumer.CLoad?
    ensures Retired(s, sched, l) == Retired(s, sched, j) < Published(s, sched, l)
  {
    assert j > 0;
    AtNext(s, sched, j - 1);
    if PastEmptyTest(At(s, sched, j - 1).consumer) {
      l := FindConsumerLoad(s, sched, j - 1);
    } else {
      l := j - 1;
      CountAt(s, sched, l);
      RunInv(s, sched, l);
    }
  }

  /** A producer past its test has loaded `n` when a slot was free. */
  lemma {:induction false} FindProducerLoad(s: State, sched: Schedule, j: nat) returns (l: nat)
    requires Initial(s) && PastFullTest(At(s, sched, j).producer)
    ensures l < j && sched(l).ProducerStep? && At(s, sched, l).producer.PLoad?
    ensures Published(s, sched, l) == Published(s, sched, j) < Retired(s, sched, l) + s.mem.size
  {
    assert j > 0;
    AtNext(s, sched, j - 1);
    if PastFullTest(At(s, sched, j - 1).producer) {
      l := FindProducerLoad(s, sched, j - 1);
    } else {
      l := j - 1;
      CountAt(s, sched, l);
      RunInv(s, sched, l);
    }
  }

  // ----- The two directions

  /**
   Publication: whatever the producer did before publishing ticket `k` happens before
   whatever the consumer does after retiring it.
   */
  lemma {:induction false} Publication(s: State, sched: Schedule, i: nat, j: nat, k: nat)
    requires Initial(s)
    requires ThreadOf(sched(i)) == Producer && ThreadOf(sched(j)) == Consumer
    requires Published(s, sched, i) <= k < Retired(s, sched, j)
    ensures Before(s, sched, i, j)
  {
    var d := FindDecrement(s, sched, 0, j, k);
    var l := FindConsumerLoad(s, sched, d);
    var r := FindIncrement(s, sched, i, l, k);
    Path(s, sched, i, r, l, j);
  }

  /**
   Reuse: whatever the consumer did before retiring ticket `k` happens before whatever
   the producer does after publishing ticket `k + size`, which takes the same slot.
   */
  lemma {:induction false} Reuse(s: State, sched: Schedule, i: nat, j: nat, k: nat)
    requires Initial(s)
    requires ThreadOf(sched(i)) == Consumer && ThreadOf(sched(j)) == Producer
    requires Retired(s, sched, i) <= k && k + s.mem.size < Published(s, sched, j)
    ensures Before(s, sched, i, j)
  {
    var p := FindIncrement(s, sched, 0, j, k + s.mem.size);
    var l := FindProducerLoad(s, sched, p);
    var r := FindDecrement(s, sched, i, l, k);
    Path(s, sched, i, r, l, j);
  }

  // ----- Slots

  /** The slot this action accesses, and whether it stores. */
  function SlotAccess(s: State, a: Action): Option<(nat, bool)> {
    if a.ProducerStep? && s.producer.PStore? then Some((s.mem.write, true))
    else if a.ConsumerStep? && s.consumer.CFetch? then Some((s.mem.read, false))
    else None
  }

  /** The same state with another pointer in slot `k`. */
  function WithSlot(s: State, k: nat, p: Pointer): State
    requires k < s.mem.size
  {
    s.(mem := s.mem.(storage := s.mem.storage[k := p]))
  }

  /** Nothing but a store that is reported changes a slot, in any state. */
  lemma {:induction false} StoresAreReported(s: State, a: Action, k: nat)
    requires k < s.mem.size && Step(s, a).mem.storage[k] != s.mem.storage[k]
    ensures SlotAccess(s, a) == Some((k, true))
  {
  }

  /** Nothing but a load that is reported depends on what is in a slot, in any state. */
  lemma {:induction false} LoadsAreReported(s: State, a: Action, k: nat, p: Pointer)
    requires k < s.mem.size && SlotAccess(s, a) != Some((k, false))
    ensures var x, y := Step(WithSlot(s, k, p), a), Step(s, a);
            x == WithSlot(y, k, x.mem.storage[k])
  {
    var x, y := Step(WithSlot(s, k, p), a), Step(s, a);
    if a.ProducerStep? && s.producer.PStore? {
      assert x.mem.storage == y.mem.storage[k := x.mem.storage[k]];
    } else {
      assert x.mem.storage == WithSlot(s, k, p).mem.storage && y.mem.storage == s.mem.storage;
    }
  }

  function WithIndices(s: State, write: nat, read: nat): State
    requires write < s.mem.size && read < s.mem.size
  {
    s.(mem := s.mem.(write := write, read := read))
  }

  /** A private index is neither changed nor looked at by any other thread. */
  lemma {:induction false} IndicesArePrivate(s: State, a: Action, index: nat)
    requires index < s.mem.size
    ensures ThreadOf(a) != Producer ==>
              && Step(s, a).mem.write == s.mem.write
              && Step(WithIndices(s, index, s.mem.read), a) == WithIndices(Step(s, a), index, Step(s, a).mem.read)
    ensures ThreadOf(a) != Consumer ==>
              && Step(s, a).mem.read == s.mem.read
              && Step(WithIndices(s, s.mem.write, index), a) == WithIndices(Step(s, a), Step(s, a).mem.write, index)
  {
  }

  /** Same slot, and not both loads. */
  ghost predicate Conflict(s: State, sched: Schedule, i: nat, j: nat) {
    var x, y := SlotAccess(At(s, sched, i), sched(i)), SlotAccess(At(s, sched, j), sched(j));
    x.Some? && y.Some? && x.value.0 == y.value.0 && (x.value.1 || y.value.1)
  }

  /** An item is published before it is read. */
  lemma {:induction false} StoreBeforeLoad(s: State, sched: Schedule, i: nat, j: nat)
    requires Initial(s) && i < j && Conflict(s, sched, i, j)
    requires ThreadOf(sched(i)) == Producer && ThreadOf(sched(j)) == Consumer
    ensures Before(s, sched, i, j)
  {
    var k, t := Published(s, sched, i), Retired(s, sched, j);
    var l := FindConsumerLoad(s, sched, j);
    Monotone(s, sched, i, j);
    assert Ring.Slot(k, s.mem.size) == Ring.Slot(t, s.mem.size) && k - Retired(s, sched, i) < s.mem.size by {
      TicketsAt(s, sched, i);
      TicketsAt(s, sched, j);
      RunInv(s, sched, i);
    }
    if t < k {
      Ring.SameSlot(t, k, s.mem.size);
    }
    var r := FindIncrement(s, sched, i, l, k);
    Path(s, sched, i, r, l, j);
  }

  /** A slot is read before it is used again. */
  lemma {:induction false} LoadBeforeStore(s: State, sched: Schedule, i: nat, j: nat)
    requires Initial(s) && i < j && Conflict(s, sched, i, j)
    requires ThreadOf(sched(i)) == Consumer && ThreadOf(sched(j)) == Producer
    ensures Before(s, sched, i, j)
  {
    var k, t := Retired(s, sched, i), Published(s, sched, j);
    var l := FindProducerLoad(s, sched, j);
    Monotone(s, sched, i, j);
    assert Ring.Slot(k, s.mem.size) == Ring.Slot(t, s.mem.size) && k < Published(s, sched, i) by {
      TicketsAt(s, sched, i);
      TicketsAt(s, sched, j);
      RunInv(s, sched, i);
    }
    Ring.SameSlot(k, t, s.mem.size);
    var r := FindDecrement(s, sched, i, l, k);
    Path(s, sched, i, r, l, j);
  }

  /** Race freedom: in every run, any two accesses to a slot that are not both loads are ordered. */
  lemma {:induction false} SlotsAreRaceFree(s: State, sched: Schedule, i: nat, j: nat, k: nat,
                                            stores: bool, stores': bool)
    requires Initial(s) && i < j && (stores || stores')
    requires SlotAccess(At(s, sched, i), sched(i)) == Some((k, stores))
    requires SlotAccess(At(s, sched, j), sched(j)) == Some((k, stores'))
    ensures Before(s, sched, i, j)
  {
    if ThreadOf(sched(i)) == ThreadOf(sched(j)) {
      assert SequencedBefore(sched, i, j);
    } else if ThreadOf(sched(i)) == Producer {
      StoreBeforeLoad(s, sched, i, j);
    } else {
      LoadBeforeStore(s, sched, i, j);
    }
  }
}
