/** What every reachable state of the machine satisfies. */
module Invariant {
  import opened Pointers
  import opened Machine
  import Ring

  /** The slot of the oldest published pointer.  `read` is already past it while a decrement is due. */
  function Head(s: State): (r: nat)
    ensures r < s.mem.size
  {
    if s.consumer.CDecrement? then Ring.Back(s.mem.read, s.mem.size) else s.mem.read
  }

  /** The slot of the next pointer to publish.  `write` is already past it while an increment is due. */
  function Tail(s: State): (r: nat)
    ensures r < s.mem.size
  {
    if s.producer.PIncrement? then Ring.Back(s.mem.write, s.mem.size) else s.mem.write
  }

  /** What the slot `i` places after the head holds. */
  function SlotFrom(s: State, i: nat): Pointer {
    s.mem.storage[Ring.Slot(Head(s) + i, s.mem.size)]
  }

  /** The queue that the memory stands for: the `n` slots from `Head` on. */
  function Contents(s: State): seq<Pointer> {
    seq(if s.mem.n < 0 then 0 else s.mem.n, i requires 0 <= i => SlotFrom(s, i))
  }

  predicate PastFullTest(pc: ProducerPc) {
    pc.PStore? || pc.PAdvance? || pc.PIncrement?
  }

  predicate PastEmptyTest(pc: ConsumerPc) {
    pc.CFetch? || pc.CAdvance? || pc.CDecrement?
  }

  ghost predicate Inv(s: State) {
    && 0 <= s.mem.n <= s.mem.size
    && Tail(s) == Ring.Slot(Head(s) + s.mem.n, s.mem.size)
    && NULL !in Contents(s)
    // a test of `n` that passed stays true until this thread changes `n`
    && (PastFullTest(s.producer) ==> s.mem.n < s.mem.size)
    && (PastEmptyTest(s.consumer) ==> s.mem.n > 0)
    // what the producer has stored but not published
    && (s.producer.PLoad? || PastFullTest(s.producer) ==> s.producer.pointer != NULL)
    && (s.producer.PAdvance? || s.producer.PIncrement? ==> s.mem.storage[Tail(s)] == s.producer.pointer)
    && (s.producer.PReturn? ==>
          && s.producer.status in {STORED, FULL, REJECTED}
          && (s.producer.status == REJECTED <==> s.producer.pointer == NULL))
    // what the consumer has loaded but not retired
    && (s.consumer.CAdvance? || s.consumer.CDecrement? ==> s.mem.storage[Head(s)] == s.consumer.pointer)
  }

  lemma {:induction false} ContentsAt(s: State, i: nat)
    requires Inv(s) && i < s.mem.n
    ensures Contents(s)[i] == s.mem.storage[Ring.Wrap(Head(s) + i, s.mem.size)]
  {
    Ring.SlotIsWrap(Head(s) + i, s.mem.size);
  }

  lemma {:induction false} InitialInv(s: State)
    requires Initial(s)
    ensures Inv(s) && Contents(s) == []
  {
  }

  /** The slot being stored is never the slot being loaded, nor any other published slot. */
  lemma {:induction false} FreeSlot(s: State, i: nat)
    requires Inv(s) && s.mem.n < s.mem.size && i < s.mem.n
    ensures Ring.Slot(Head(s) + i, s.mem.size) != Tail(s)
  {
    Ring.SlotIsWrap(Head(s) + i, s.mem.size);
    Ring.SlotIsWrap(Head(s) + s.mem.n, s.mem.size);
  }

  /** Only the count, the head and the published slots matter to the queue. */
  lemma {:induction false} SameContents(s: State, s': State)
    requires s'.mem.size == s.mem.size && s'.mem.n == s.mem.n
    requires forall i: nat | i < s.mem.n :: SlotFrom(s', i) == SlotFrom(s, i)
    ensures Contents(s') == Contents(s)
  {
  }

  /** Storing into the free slot disturbs no published one. */
  lemma {:induction false} StoreKeepsInv(s: State)
    requires Inv(s) && s.producer.PStore?
    ensures Inv(Step(s, ProducerStep)) && Contents(Step(s, ProducerStep)) == Contents(s)
  {
    var s' := Step(s, ProducerStep);
    forall i: nat | i < s.mem.n ensures SlotFrom(s', i) == SlotFrom(s, i) {
      FreeSlot(s, i);
    }
    SameContents(s, s');
    if PastEmptyTest(s.consumer) {
      FreeSlot(s, 0);
    }
  }

  lemma {:induction false} IncrementKeepsInv(s: State)
    requires Inv(s) && s.producer.PIncrement?
    ensures Inv(Step(s, ProducerStep))
    ensures Contents(Step(s, ProducerStep)) == Contents(s) + [s.producer.pointer]
  {
    var s' := Step(s, ProducerStep);
    Ring.SlotIsWrap(Head(s) + s.mem.n, s.mem.size);
    Ring.SlotIsWrap(Head(s) + s.mem.n + 1, s.mem.size);
    assert forall i: nat | i < s.mem.n :: SlotFrom(s', i) == SlotFrom(s, i);
    assert Contents(s') == Contents(s) + [s.producer.pointer];
  }

  /** A step of the producer appends what it publishes, and nothing else changes the queue. */
  lemma {:induction false} ProducerKeepsInv(s: State)
    requires Inv(s)
    ensures Inv(Step(s, ProducerStep))
    ensures Contents(Step(s, ProducerStep)) == Extend(Contents(s), Publishes(s, ProducerStep))
  {
    if s.producer.PStore? {
      StoreKeepsInv(s);
    } else if s.producer.PIncrement? {
      IncrementKeepsInv(s);
    } else {
      if s.producer.PAdvance? {
        Ring.WrapIsMod(s.mem.write + 1, s.mem.size);
      }
      SameContents(s, Step(s, ProducerStep));
    }
  }

  /** Once the oldest pointer is retired, every other one is a place nearer to the head. */
  lemma {:induction false} RetiredContents(s: State)
    requires Inv(s) && s.consumer.CDecrement?
    ensures var s' := Step(s, ConsumerStep);
            && Head(s') == Ring.Slot(Head(s) + 1, s.mem.size)
            && Contents(s) == [s.consumer.pointer] + Contents(s')
  {
    var s' := Step(s, ConsumerStep);
    forall i: nat | i < s.mem.n - 1 ensures SlotFrom(s', i) == SlotFrom(s, i + 1) {
      Ring.SlotAdd(Head(s) + 1, i, s.mem.size);
    }
  }

  lemma {:induction false} DecrementKeepsInv(s: State)
    requires Inv(s) && s.consumer.CDecrement?
    ensures Inv(Step(s, ConsumerStep)) && Contents(s) == [s.consumer.pointer] + Contents(Step(s, ConsumerStep))
  {
    RetiredContents(s);
    Ring.SlotAdd(Head(s) + 1, s.mem.n - 1, s.mem.size);
    assert forall p | p in Contents(Step(s, ConsumerStep)) :: p in Contents(s);
  }

  /** A step of the consumer drops what it retires from the front. */
  lemma {:induction false} ConsumerKeepsInv(s: State)
    requires Inv(s)
    ensures Inv(Step(s, ConsumerStep))
    ensures Contents(s) == Prepend(Retires(s, ConsumerStep), Contents(Step(s, ConsumerStep)))
  {
    var s' := Step(s, ConsumerStep);
    if s.consumer.CDecrement? {
      DecrementKeepsInv(s);
    } else {
      if s.consumer.CAdvance? {
        Ring.WrapIsMod(s.mem.read + 1, s.mem.size);
      }
      SameContents(s, s');
    }
  }

  lemma {:induction false} ObserverKeepsInv(s: State, id: nat)
    requires Inv(s)
    ensures Inv(MoveObserver(Exact, s, id))
    ensures Contents(MoveObserver(Exact, s, id)) == Contents(s)
  {
    SameContents(s, MoveObserver(Exact, s, id));
  }

  /** A thread that enters a call, or is busy elsewhere, touches no memory. */
  lemma {:induction false} OthersKeepInv(s: State, a: Action)
    requires Inv(s) && !a.ProducerStep? && !a.ConsumerStep? && !a.ObserverStep?
    ensures Inv(Step(s, a)) && Contents(Step(s, a)) == Contents(s)
  {
    SameContents(s, Step(s, a));
  }

  /** Every action of every thread keeps the invariant; pointers leave in the order they came. */
  lemma {:induction false} StepKeepsInv(s: State, a: Action)
    requires Inv(s)
    ensures Inv(Step(s, a))
    ensures Extend(Contents(s), Publishes(s, a)) == Prepend(Retires(s, a), Contents(Step(s, a)))
  {
    match a
    case ProducerStep => ProducerKeepsInv(s);
    case ConsumerStep => ConsumerKeepsInv(s);
    case ObserverStep(id) => ObserverKeepsInv(s, id);
    case _ => OthersKeepInv(s, a);
  }

  lemma {:induction false} ReachableNext(s: State, sched: Schedule, i: nat)
    requires Inv(At(s, sched, i))
    ensures Inv(At(s, sched, i + 1)) && At(s, sched, i + 1).mem.size == At(s, sched, i).mem.size
  {
    StepKeepsInv(At(s, sched, i), sched(i));
    AtNext(s, sched, i);
  }

  lemma {:induction false} Reachable(s: State, sched: Schedule, i: nat)
    requires Inv(s)
    ensures Inv(At(s, sched, i)) && At(s, sched, i).mem.size == s.mem.size
  {
    if i == 0 {
    } else {
      Reachable(s, sched, i - 1);
      ReachableNext(s, sched, i - 1);
    }
  }

  /** The invariant at every moment of every run that starts after `init`. */
  lemma {:induction false} RunInv(s: State, sched: Schedule, i: nat)
    requires Initial(s)
    ensures Inv(At(s, sched, i)) && At(s, sched, i).mem.size == s.mem.size
  {
    InitialInv(s);
    Reachable(s, sched, i);
  }

  lemma {:induction false} Chain(start: seq<Pointer>, accepted: seq<Pointer>, published: Option<Pointer>,
                                 delivered: seq<Pointer>, held: seq<Pointer>, retired: Option<Pointer>,
                                 holds: seq<Pointer>)
    requires start + accepted == delivered + held && Extend(held, published) == Prepend(retired, holds)
    ensures start + Extend(accepted, published) == Extend(delivered, retired) + holds
  {
    assert start + Extend(accepted, published) == Extend(start + accepted, published);
    assert Extend(delivered + held, published) == delivered + Extend(held, published);
  }

  /**
   Conservation: what went in is what came out followed by what the queue still holds.
   So the delivered sequence is always a prefix of the accepted one, and each pointer
   leaves exactly once.
   */
  lemma {:induction false} Conservation(s: State, sched: Schedule, i: nat)
    requires Inv(s)
    ensures Contents(s) + Accepted(s, sched, i) == Delivered(s, sched, i) + Contents(At(s, sched, i))
  {
    if i == 0 {
    } else {
      Conservation(s, sched, i - 1);
      Reachable(s, sched, i - 1);
      var b, a := At(s, sched, i - 1), sched(i - 1);
      StepKeepsInv(b, a);
      Chain(Contents(s), Accepted(s, sched, i - 1), Publishes(b, a), Delivered(s, sched, i - 1), Contents(b),
            Retires(b, a), Contents(Step(b, a)));
    }
  }

  lemma {:induction false} NothingBefore(start: seq<Pointer>, accepted: seq<Pointer>, rest: seq<Pointer>)
    requires start == [] && start + accepted == rest
    ensures accepted == rest
  {
  }

  /** Conservation from `init` on, when the queue is still empty. */
  lemma {:induction false} Deliveries(s: State, sched: Schedule, i: nat)
    requires Initial(s)
    ensures Accepted(s, sched, i) == Delivered(s, sched, i) + Contents(At(s, sched, i))
  {
    InitialInv(s);
    Conservation(s, sched, i);
    NothingBefore(Contents(s), Accepted(s, sched, i), Delivered(s, sched, i) + Contents(At(s, sched, i)));
  }
}
