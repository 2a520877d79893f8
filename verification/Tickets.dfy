/** Absolute tickets: the k-th accepted pointer, from its slot to its reader. */
module Tickets {
  import opened Pointers
  import opened Machine
  import opened Invariant
  import opened AtomicQueue
  import opened Serialisation
  import opened Refinement
  import Ring

  /** How many pointers were published, and how many retired, in the first `i` actions. */
  function Published(s: State, sched: Schedule, i: nat): nat {
    |Accepted(s, sched, i)|
  }

  function Retired(s: State, sched: Schedule, i: nat): nat {
    |Delivered(s, sched, i)|
  }

  /** What one more action adds to the history. */
  lemma {:induction false} OneMoreAction(s: State, sched: Schedule, i: nat)
    ensures var b, a := At(s, sched, i), sched(i);
            && At(s, sched, i + 1) == Step(b, a)
            && Log(s, sched, i + 1) == Extend(Log(s, sched, i), EventOf(b, a))
            && Accepted(s, sched, i + 1) == Extend(Accepted(s, sched, i), Publishes(b, a))
            && Delivered(s, sched, i + 1) == Extend(Delivered(s, sched, i), Retires(b, a))
  {
  }

  lemma {:induction false} HeadMoves(s: State, a: Action, ticket: nat)
    requires Inv(s) && Head(s) == Ring.Slot(ticket, s.mem.size)
    ensures Head(Step(s, a)) == Ring.Slot(ticket + Size(Retires(s, a)), s.mem.size)
  {
    if Retires(s, a).Some? {
      RetiredContents(s);
      Ring.SlotAdd(ticket, 1, s.mem.size);
    } else if a.ConsumerStep? && s.consumer.CAdvance? {
      Ring.WrapIsMod(s.mem.read + 1, s.mem.size);
    }
  }

  lemma {:induction false} HeadAt(s: State, sched: Schedule, i: nat)
    requires Initial(s)
    ensures Head(At(s, sched, i)) == Ring.Slot(Retired(s, sched, i), s.mem.size)
  {
    if i == 0 {
    } else {
      InitialInv(s);
      Reachable(s, sched, i - 1);
      HeadAt(s, sched, i - 1);
      HeadMoves(At(s, sched, i - 1), sched(i - 1), Retired(s, sched, i - 1));
    }
  }

  lemma {:induction false} SizeAt(s: State, sched: Schedule, i: nat)
    requires Initial(s)
    ensures At(s, sched, i).mem.size == s.mem.size
  {
    RunInv(s, sched, i);
  }

  lemma {:induction false} CountAt(s: State, sched: Schedule, i: nat)
    requires Initial(s)
    ensures At(s, sched, i).mem.n == Published(s, sched, i) - Retired(s, sched, i)
  {
    Deliveries(s, sched, i);
    RunInv(s, sched, i);
  }

  lemma {:induction false} TailIs(b: State, ticket: nat)
    requires Inv(b) && Head(b) == Ring.Slot(ticket, b.mem.size)
    ensures Tail(b) == Ring.Slot(ticket + b.mem.n, b.mem.size)
  {
    Ring.SlotAdd(ticket, b.mem.n, b.mem.size);
  }

  lemma {:induction false} TailAt(s: State, sched: Schedule, i: nat)
    requires Initial(s)
    ensures Tail(At(s, sched, i)) == Ring.Slot(Published(s, sched, i), s.mem.size)
  {
    RunInv(s, sched, i);
    HeadAt(s, sched, i);
    CountAt(s, sched, i);
    TailIs(At(s, sched, i), Retired(s, sched, i));
  }

  /** The count is the number of tickets in flight, and each end of the window is a ticket modulo `size`. */
  lemma {:induction false} TicketsAt(s: State, sched: Schedule, i: nat)
    requires Initial(s)
    ensures var b := At(s, sched, i);
            && b.mem.size == s.mem.size
            && b.mem.n == Published(s, sched, i) - Retired(s, sched, i)
            && Head(b) == Ring.Slot(Retired(s, sched, i), s.mem.size)
            && Tail(b) == Ring.Slot(Published(s, sched, i), s.mem.size)
  {
    SizeAt(s, sched, i);
    HeadAt(s, sched, i);
    CountAt(s, sched, i);
    TailAt(s, sched, i);
  }

  /** `b.mem.storage[slot]` is `p`. */
  predicate Holds(b: State, slot: nat, p: Pointer) {
    slot < b.mem.size && b.mem.storage[slot] == p
  }

  lemma {:induction false} SlotOf(b: State, size: nat, ticket: nat, k: nat)
    requires b.mem.size == size && Head(b) == Ring.Slot(ticket, size) && ticket <= k
    ensures Ring.Slot(k, size) == Ring.Slot(Head(b) + (k - ticket), size)
    ensures Holds(b, Ring.Slot(k, size), SlotFrom(b, k - ticket))
  {
    Ring.SlotAdd(ticket, k - ticket, size);
  }

  lemma {:induction false} Pick(accepted: seq<Pointer>, delivered: seq<Pointer>, b: State, k: nat)
    requires accepted == delivered + Contents(b) && |delivered| <= k < |accepted|
    ensures accepted[k] == SlotFrom(b, k - |delivered|)
  {
    assert accepted[k] == Contents(b)[k - |delivered|];
  }

  lemma {:induction false} InContents(s: State, sched: Schedule, i: nat, k: nat)
    requires Initial(s)
    requires Retired(s, sched, i) <= k < Published(s, sched, i)
    ensures var d := k - Retired(s, sched, i);
            d < At(s, sched, i).mem.n && SlotFrom(At(s, sched, i), d) == Accepted(s, sched, i)[k]
  {
    Deliveries(s, sched, i);
    CountAt(s, sched, i);
    Pick(Accepted(s, sched, i), Delivered(s, sched, i), At(s, sched, i), k);
  }

  /**
   The live window: at every moment, even with both threads in the middle of a call,
   slot `k % size` holds the k-th accepted pointer for every ticket `k` that is
   published and not retired.
   */
  lemma {:induction false} LiveWindow(s: State, sched: Schedule, i: nat, k: nat)
    requires Initial(s)
    requires Retired(s, sched, i) <= k < Published(s, sched, i)
    ensures At(s, sched, i).mem.size == s.mem.size
    ensures At(s, sched, i).mem.storage[k % s.mem.size] == Accepted(s, sched, i)[k]
  {
    SizeAt(s, sched, i);
    HeadAt(s, sched, i);
    SlotOf(At(s, sched, i), s.mem.size, Retired(s, sched, i), k);
    InContents(s, sched, i, k);
    Ring.SlotIsMod(k, s.mem.size);
  }

  /** The pointer that a decrement retires is the one whose turn it is. */
  lemma {:induction false} RetiresNext(s: State, sched: Schedule, t: nat)
    requires Initial(s) && At(s, sched, t).consumer.CDecrement?
    ensures Retired(s, sched, t) < Published(s, sched, t)
    ensures At(s, sched, t).consumer.pointer == Accepted(s, sched, t)[Retired(s, sched, t)]
  {
    RunInv(s, sched, t);
    CountAt(s, sched, t);
    InContents(s, sched, t, Retired(s, sched, t));
    ContentsAt(At(s, sched, t), 0);
  }

  /** The slot a producer is about to store into is neither being loaded nor holds a live ticket. */
  lemma {:induction false} StoreHitsFreeSlot(s: State, sched: Schedule, i: nat, k: nat)
    requires Initial(s)
    requires At(s, sched, i).producer.PStore?
    requires Retired(s, sched, i) <= k < Published(s, sched, i)
    ensures At(s, sched, i).mem.write != k % s.mem.size
    ensures At(s, sched, i).consumer.CFetch? ==> At(s, sched, i).mem.write != At(s, sched, i).mem.read
  {
    TicketsAt(s, sched, i);
    RunInv(s, sched, i);
    var b, d := At(s, sched, i), k - Retired(s, sched, i);
    SlotOf(b, s.mem.size, Retired(s, sched, i), k);
    Ring.SlotIsMod(k, s.mem.size);
    FreeSlot(b, d);
    FreeSlot(b, 0);
  }

  // ----- Exactly-once delivery, in terms of what the callers got back

  /** The pointer of a call that is a write and returned 0. */
  function StoredBy(done: Option<Call>): Option<Pointer> {
    if done.Some? && done.value.op.Write? && done.value.response == Status(STORED) then Some(done.value.op.pointer)
    else None
  }

  /** The pointer that a call returned, if it is a read that returned one. */
  function FetchedBy(done: Option<Call>): Option<Pointer> {
    if done.Some? && done.value.response.Value? && done.value.response.pointer != NULL
    then Some(done.value.response.pointer) else None
  }

  /** The pointers of the writes that returned 0. */
  function Stored(calls: seq<Call>): seq<Pointer> {
    if calls == [] then []
    else Extend(Stored(calls[..|calls| - 1]), StoredBy(Some(calls[|calls| - 1])))
  }

  /** The pointers of the reads that returned something. */
  function Fetched(calls: seq<Call>): seq<Pointer> {
    if calls == [] then []
    else Extend(Fetched(calls[..|calls| - 1]), FetchedBy(Some(calls[|calls| - 1])))
  }

  /** A write that was published but has not returned yet. */
  function WriteInFlight(s: State): Option<Pointer> {
    if s.producer.PReturn? && s.producer.status == STORED then Some(s.producer.pointer) else None
  }

  /** A read that was retired but has not returned yet. */
  function ReadInFlight(s: State): Option<Pointer> {
    if s.consumer.CReturn? && s.consumer.pointer != NULL then Some(s.consumer.pointer) else None
  }

  lemma {:induction false} StoredGrows(calls: seq<Call>, done: Option<Call>)
    ensures Stored(Extend(calls, done)) == Extend(Stored(calls), StoredBy(done))
  {
    if done.Some? {
      assert Extend(calls, done)[..|calls|] == calls;
    }
  }

  lemma {:induction false} FetchedGrows(calls: seq<Call>, done: Option<Call>)
    ensures Fetched(Extend(calls, done)) == Extend(Fetched(calls), FetchedBy(done))
  {
    if done.Some? {
      assert Extend(calls, done)[..|calls|] == calls;
    }
  }

  lemma {:induction false} ReadNotNull(b: State)
    requires Inv(b) && b.consumer.CDecrement?
    ensures b.consumer.pointer != NULL
  {
    assert Contents(b)[0] == b.consumer.pointer by { ContentsAt(b, 0); }
  }

  /** `stored` grows when a write returns, what is in flight when it publishes. */
  lemma {:induction false} StoredStep(b: State, a: Action, stored: seq<Pointer>, done: Option<Call>)
    requires Inv(b) && Completes(b, a, Producer, done)
    ensures Extend(Extend(stored, StoredBy(done)), WriteInFlight(Step(b, a)))
         == Extend(Extend(stored, WriteInFlight(b)), Publishes(b, a))
  {
  }

  lemma {:induction false} FetchedStep(b: State, a: Action, fetched: seq<Pointer>, done: Option<Call>)
    requires Inv(b) && Completes(b, a, Consumer, done)
    ensures Extend(Extend(fetched, FetchedBy(done)), ReadInFlight(Step(b, a)))
         == Extend(Extend(fetched, ReadInFlight(b)), Retires(b, a))
  {
    if b.consumer.CDecrement? {
      ReadNotNull(b);
    }
  }

  /** What the producer has got back, and what it has published without getting anything back yet. */
  function Writes(b: State, log: seq<Event>): seq<Pointer> {
    Extend(Stored(Calls(log, Producer)), WriteInFlight(b))
  }

  /** What the consumer has got, and what it has retired without getting it yet. */
  function Reads(b: State, log: seq<Event>): seq<Pointer> {
    Extend(Fetched(Calls(log, Consumer)), ReadInFlight(b))
  }

  lemma {:induction false} WritesGrow(b: State, a: Action, log: seq<Event>)
    requires Inv(b) && Agrees(log, Producer, CallOf(b, Producer))
    ensures Writes(Step(b, a), Extend(log, EventOf(b, a))) == Extend(Writes(b, log), Publishes(b, a))
  {
    var done := CallsGrow(b, a, log, Producer);
    StoredGrows(Calls(log, Producer), done);
    StoredStep(b, a, Stored(Calls(log, Producer)), done);
  }

  lemma {:induction false} ReadsGrow(b: State, a: Action, log: seq<Event>)
    requires Inv(b) && Agrees(log, Consumer, CallOf(b, Consumer))
    ensures Reads(Step(b, a), Extend(log, EventOf(b, a))) == Extend(Reads(b, log), Retires(b, a))
  {
    var done := CallsGrow(b, a, log, Consumer);
    FetchedGrows(Calls(log, Consumer), done);
    FetchedStep(b, a, Fetched(Calls(log, Consumer)), done);
  }

  lemma {:induction false} AcceptedNext(s: State, sched: Schedule, i: nat)
    requires Initial(s) && Accepted(s, sched, i) == Writes(At(s, sched, i), Log(s, sched, i))
    ensures Accepted(s, sched, i + 1) == Writes(At(s, sched, i + 1), Log(s, sched, i + 1))
  {
    AgreesFrom(s, sched, i, Producer);
    RunInv(s, sched, i);
    OneMoreAction(s, sched, i);
    WritesGrow(At(s, sched, i), sched(i), Log(s, sched, i));
  }

  lemma {:induction false} AcceptedReturns(s: State, sched: Schedule, i: nat)
    requires Initial(s)
    ensures Accepted(s, sched, i) == Writes(At(s, sched, i), Log(s, sched, i))
  {
    if i == 0 {
    } else {
      AcceptedReturns(s, sched, i - 1);
      AcceptedNext(s, sched, i - 1);
    }
  }

  lemma {:induction false} DeliveredNext(s: State, sched: Schedule, i: nat)
    requires Initial(s) && Delivered(s, sched, i) == Reads(At(s, sched, i), Log(s, sched, i))
    ensures Delivered(s, sched, i + 1) == Reads(At(s, sched, i + 1), Log(s, sched, i + 1))
  {
    AgreesFrom(s, sched, i, Consumer);
    RunInv(s, sched, i);
    OneMoreAction(s, sched, i);
    ReadsGrow(At(s, sched, i), sched(i), Log(s, sched, i));
  }

  lemma {:induction false} DeliveredReturns(s: State, sched: Schedule, i: nat)
    requires Initial(s)
    ensures Delivered(s, sched, i) == Reads(At(s, sched, i), Log(s, sched, i))
  {
    if i == 0 {
    } else {
      DeliveredReturns(s, sched, i - 1);
      DeliveredNext(s, sched, i - 1);
    }
  }

  /**
   Exactly-once delivery: what the reads returned is a prefix of what the writes stored;
   the two differ by the `n` pointers of the queue, give or take one read that has
   retired its pointer and one write that has published its pointer without returning.
   */
  lemma {:induction false} ExactlyOnce(s: State, sched: Schedule, i: nat)
    requires Initial(s)
    ensures var b, log := At(s, sched, i), Log(s, sched, i);
            && Writes(b, log) == Reads(b, log) + Contents(b)
            && |Contents(b)| == b.mem.n <= s.mem.size
            && NULL !in Contents(b)
  {
    AcceptedReturns(s, sched, i);
    DeliveredReturns(s, sched, i);
    Deliveries(s, sched, i);
    RunInv(s, sched, i);
  }

  // ----- The slots that `init` leaves unset

  /** Two runs that differ at most in slots nobody has published. */
  ghost predicate SameButSlots(s: State, s': State) {
    && s'.mem.size == s.mem.size && s'.mem.n == s.mem.n && s'.mem.write == s.mem.write && s'.mem.read == s.mem.read
    && s'.producer == s.producer && s'.consumer == s.consumer && s'.observers == s.observers
    && Contents(s') == Contents(s)
  }

  lemma {:induction false} SameRest(first: Option<Pointer>, rest: seq<Pointer>, rest': seq<Pointer>)
    requires Prepend(first, rest) == Prepend(first, rest')
    ensures rest == rest'
  {
    if first.Some? {
      assert rest == Prepend(first, rest)[1..];
      assert rest' == Prepend(first, rest')[1..];
    }
  }

  lemma {:induction false} SameQueueAfter(s: State, s': State, a: Action)
    requires Inv(s) && Inv(s') && SameButSlots(s, s')
    ensures Contents(Step(s, a)) == Contents(Step(s', a))
  {
    StepKeepsInv(s, a);
    StepKeepsInv(s', a);
    SameRest(Retires(s, a), Contents(Step(s, a)), Contents(Step(s', a)));
  }

  lemma {:induction false} StepKeepsSame(s: State, s': State, a: Action)
    requires Inv(s) && Inv(s') && SameButSlots(s, s')
    ensures SameButSlots(Step(s, a), Step(s', a)) && EventOf(s', a) == EventOf(s, a)
  {
    SameQueueAfter(s, s', a);
    if s.consumer.CFetch? {
      ContentsAt(s, 0);
      ContentsAt(s', 0);
    }
  }

  lemma {:induction false} SameRuns(s: State, s': State, sched: Schedule, i: nat)
    requires Initial(s) && Initial(s') && s'.mem.size == s.mem.size
    ensures SameButSlots(At(s, sched, i), At(s', sched, i))
  {
    if i == 0 {
      InitialInv(s);
      InitialInv(s');
    } else {
      SameRuns(s, s', sched, i - 1);
      RunInv(s, sched, i - 1);
      RunInv(s', sched, i - 1);
      StepKeepsSame(At(s, sched, i - 1), At(s', sched, i - 1), sched(i - 1));
    }
  }

  lemma {:induction false} SameEvents(s: State, s': State, sched: Schedule, i: nat)
    requires Initial(s) && Initial(s') && s'.mem.size == s.mem.size
    ensures EventOf(At(s', sched, i), sched(i)) == EventOf(At(s, sched, i), sched(i))
  {
    SameRuns(s, s', sched, i);
    RunInv(s, sched, i);
    RunInv(s', sched, i);
    StepKeepsSame(At(s, sched, i), At(s', sched, i), sched(i));
  }

  /**
   No uninitialised slot is ever delivered: what `init` found in the slots cannot be
   told from any result of any call in any run.
   */
  lemma {:induction false} GarbageIsInvisible(s: State, s': State, sched: Schedule, i: nat)
    requires Initial(s) && Initial(s') && s'.mem.size == s.mem.size
    ensures Log(s', sched, i) == Log(s, sched, i)
  {
    if i == 0 {
    } else {
      GarbageIsInvisible(s, s', sched, i - 1);
      SameEvents(s, s', sched, i - 1);
    }
  }
}
