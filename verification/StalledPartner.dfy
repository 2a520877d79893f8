/**
 If one thread stops for ever, between any two of its steps, the other one carries on
 as if it were alone with the queue.
 */
module StalledPartner {
  import opened Pointers
  import opened Machine
  import opened Invariant
  import opened AtomicQueue
  import opened Refinement
  import opened Tickets
  import opened Progress

  /** Thread `t` does not take part in the first `i` actions. */
  ghost predicate Stalled(sched: Schedule, t: Thread, i: nat) {
    forall j: nat | j < i :: ThreadOf(sched(j)) != t
  }

  // ----- The producer stalls: reads come from a queue that nobody refills

  /** What read number `m` gets from a queue that held `q`. */
  function NthRead(q: seq<Pointer>, m: nat): Pointer {
    if m < |q| then q[m] else NULL
  }

  /** `rest` is what is left of `q` when `taken` pointers have gone. */
  ghost predicate Remain(rest: seq<Pointer>, q: seq<Pointer>, taken: nat) {
    && |rest| == (if taken <= |q| then |q| - taken else 0)
    && forall m | 0 <= m < |rest| :: rest[m] == q[taken + m]
  }

  ghost predicate ReadsAlone(q: seq<Pointer>, b: State, calls: seq<Call>) {
    && (forall m | 0 <= m < |calls| :: calls[m].response == Value(NthRead(q, m)))
    && (b.consumer.CReturn? ==> b.consumer.pointer == NthRead(q, |calls|))
    && Remain(Contents(b), q, |calls| + Size(ReadInFlight(b)))
  }

  lemma {:induction false} OneTaken(q: seq<Pointer>, taken: nat, p: Pointer, rest: seq<Pointer>)
    requires Remain([p] + rest, q, taken)
    ensures taken < |q| && p == q[taken] && Remain(rest, q, taken + 1)
  {
    assert ([p] + rest)[0] == p;
    assert forall m | 0 <= m < |rest| :: rest[m] == ([p] + rest)[m + 1];
  }

  lemma {:induction false} RetiresAlone(q: seq<Pointer>, b: State, calls: seq<Call>)
    requires Inv(b) && b.consumer.CDecrement? && NULL !in q && ReadsAlone(q, b, calls)
    ensures ReadsAlone(q, Step(b, ConsumerStep), calls)
  {
    ConsumerKeepsInv(b);
    ReadNotNull(b);
    OneTaken(q, |calls|, b.consumer.pointer, Contents(Step(b, ConsumerStep)));
  }

  lemma {:induction false} ConsumerStepAlone(q: seq<Pointer>, b: State, calls: seq<Call>)
    requires Inv(b) && !b.consumer.CDecrement? && !b.consumer.CReturn? && ReadsAlone(q, b, calls)
    ensures ReadsAlone(q, Step(b, ConsumerStep), calls)
  {
    ConsumerKeepsInv(b);
  }

  lemma {:induction false} ReadReturnsAlone(q: seq<Pointer>, b: State, calls: seq<Call>, c: Call)
    requires Inv(b) && Completes(b, ConsumerStep, Consumer, Some(c)) && NULL !in q && ReadsAlone(q, b, calls)
    ensures ReadsAlone(q, Step(b, ConsumerStep), calls + [c])
  {
    ConsumerKeepsInv(b);
  }

  lemma {:induction false} OthersStepAlone(b: State, a: Action)
    requires Inv(b) && Publishes(b, a).None? && Retires(b, a).None?
    ensures Contents(Step(b, a)) == Contents(b)
  {
    StepKeepsInv(b, a);
  }

  lemma {:induction false} OthersReadAlone(q: seq<Pointer>, b: State, a: Action, calls: seq<Call>)
    requires Inv(b) && !a.ConsumerStep? && ThreadOf(a) != Producer && ReadsAlone(q, b, calls)
    ensures ReadsAlone(q, Step(b, a), calls)
  {
    OthersStepAlone(b, a);
  }

  lemma {:induction false} ReadsAloneStep(q: seq<Pointer>, b: State, a: Action, calls: seq<Call>, done: Option<Call>)
    requires Inv(b) && Completes(b, a, Consumer, done) && ThreadOf(a) != Producer && NULL !in q
    requires ReadsAlone(q, b, calls)
    ensures ReadsAlone(q, Step(b, a), Extend(calls, done))
    ensures Step(b, a).producer == b.producer
  {
    if !a.ConsumerStep? {
      OthersReadAlone(q, b, a, calls);
    } else if b.consumer.CDecrement? {
      RetiresAlone(q, b, calls);
    } else if done.None? {
      ConsumerStepAlone(q, b, calls);
    } else {
      ReadReturnsAlone(q, b, calls, done.value);
    }
  }

  /** What the consumer has read after `i` actions is what a queue that nobody refills gives. */
  ghost predicate ConsumerIsAlone(s: State, sched: Schedule, i: nat) {
    && ReadsAlone(Contents(s), At(s, sched, i), Calls(Log(s, sched, i), Consumer))
    && At(s, sched, i).producer == s.producer
  }

  lemma {:induction false} ConsumerAloneNext(s: State, sched: Schedule, i: nat)
    requires Inv(s) && s.consumer.CIdle? && ThreadOf(sched(i)) != Producer && ConsumerIsAlone(s, sched, i)
    ensures ConsumerIsAlone(s, sched, i + 1)
  {
    var done := CallsAt(s, sched, i, Consumer);
    AtNext(s, sched, i);
    ReadsAloneStep(Contents(s), At(s, sched, i), sched(i), Calls(Log(s, sched, i), Consumer), done);
  }

  lemma {:induction false} ConsumerStaysAlone(s: State, sched: Schedule, i: nat)
    requires Inv(s) && s.consumer.CIdle? && Stalled(sched, Producer, i)
    ensures ConsumerIsAlone(s, sched, i)
  {
    if i == 0 {
      assert Contents(At(s, sched, 0)) == Contents(s);
    } else {
      ConsumerStaysAlone(s, sched, i - 1);
      ConsumerAloneNext(s, sched, i - 1);
    }
  }

  /**
   With the producer stopped anywhere, a consumer that starts between its calls reads
   exactly the published pointers, in order, and then NULL.
   */
  lemma {:induction false} ConsumerAlone(s: State, sched: Schedule, i: nat)
    requires Inv(s) && s.consumer.CIdle? && forall j: nat | j < i :: ThreadOf(sched(j)) != Producer
    ensures At(s, sched, i).producer == s.producer
    ensures var q, calls := Contents(s), Calls(Log(s, sched, i), Consumer);
            && (forall m | 0 <= m < |calls| :: calls[m].response == Value(if m < |q| then q[m] else NULL))
            && (At(s, sched, i).consumer.CIdle? ==>
                  Contents(At(s, sched, i)) == if |calls| < |q| then q[|calls|..] else [])
  {
    ConsumerStaysAlone(s, sched, i);
  }

  // ----- The consumer stalls: writes go to a queue that nobody empties

  /**
   Behind the `q` that was there, `attempts` writes had the responses that were due, and
   `stored` is what the successful ones stored.
   */
  ghost predicate WritesAlone(q: seq<Pointer>, b: State, attempts: seq<Response>, stored: seq<Pointer>) {
    && |q| <= b.mem.size
    && (forall m | 0 <= m < |attempts| :: attempts[m] == Status(if m < b.mem.size - |q| then STORED else FULL))
    && (b.producer.PReturn? && b.producer.pointer != NULL ==>
          b.producer.status == if |attempts| < b.mem.size - |q| then STORED else FULL)
    && Contents(b) == Extend(q + stored, WriteInFlight(b))
    && |stored| == if |attempts| < b.mem.size - |q| then |attempts| else b.mem.size - |q|
  }

  lemma {:induction false} ProducerStepAlone(q: seq<Pointer>, b: State, attempts: seq<Response>, stored: seq<Pointer>)
    requires Inv(b) && !b.producer.PReturn? && WritesAlone(q, b, attempts, stored)
    ensures WritesAlone(q, Step(b, ProducerStep), attempts, stored)
  {
    ProducerKeepsInv(b);
  }

  lemma {:induction false} WriteReturnsAlone(q: seq<Pointer>, b: State, attempts: seq<Response>,
                                             stored: seq<Pointer>, done: Option<Call>)
    requires Inv(b) && Completes(b, ProducerStep, Producer, done) && done.Some? && WritesAlone(q, b, attempts, stored)
    ensures WritesAlone(q, Step(b, ProducerStep), Extend(attempts, AttemptBy(done)), Extend(stored, StoredBy(done)))
  {
    ProducerKeepsInv(b);
    if StoredBy(done).Some? {
      assert q + (stored + [done.value.op.pointer]) == (q + stored) + [done.value.op.pointer];
    }
  }

  lemma {:induction false} OthersWriteAlone(q: seq<Pointer>, b: State, a: Action, attempts: seq<Response>,
                                            stored: seq<Pointer>)
    requires Inv(b) && !a.ProducerStep? && ThreadOf(a) != Consumer && WritesAlone(q, b, attempts, stored)
    ensures WritesAlone(q, Step(b, a), attempts, stored)
  {
    OthersStepAlone(b, a);
  }

  lemma {:induction false} WritesAloneStep(q: seq<Pointer>, b: State, a: Action, attempts: seq<Response>,
                                           stored: seq<Pointer>, done: Option<Call>)
    requires Inv(b) && Completes(b, a, Producer, done) && ThreadOf(a) != Consumer
    requires WritesAlone(q, b, attempts, stored)
    ensures WritesAlone(q, Step(b, a), Extend(attempts, AttemptBy(done)), Extend(stored, StoredBy(done)))
    ensures Step(b, a).consumer == b.consumer
  {
    if !a.ProducerStep? {
      OthersWriteAlone(q, b, a, attempts, stored);
    } else if done.None? {
      ProducerStepAlone(q, b, attempts, stored);
    } else {
      WriteReturnsAlone(q, b, attempts, stored, done);
    }
  }

  /** What the producer has stored after `i` actions is what a queue that nobody empties takes. */
  ghost predicate ProducerIsAlone(s: State, sched: Schedule, i: nat) {
    var calls := Calls(Log(s, sched, i), Producer);
    && WritesAlone(Contents(s), At(s, sched, i), Attempts(calls), Stored(calls))
    && At(s, sched, i).consumer == s.consumer
  }

  lemma {:induction false} ProducerAloneNext(s: State, sched: Schedule, i: nat)
    requires Inv(s) && s.producer.PIdle? && ThreadOf(sched(i)) != Consumer && ProducerIsAlone(s, sched, i)
    ensures ProducerIsAlone(s, sched, i + 1)
  {
    var done := CallsAt(s, sched, i, Producer);
    AtNext(s, sched, i);
    var calls := Calls(Log(s, sched, i), Producer);
    AttemptsGrow(calls, done);
    StoredGrows(calls, done);
    WritesAloneStep(Contents(s), At(s, sched, i), sched(i), Attempts(calls), Stored(calls), done);
  }

  lemma {:induction false} ProducerStaysAlone(s: State, sched: Schedule, i: nat)
    requires Inv(s) && s.producer.PIdle? && Stalled(sched, Consumer, i)
    ensures ProducerIsAlone(s, sched, i)
  {
    if i == 0 {
      assert Stored([]) == [] && Attempts([]) == [];
    } else {
      ProducerStaysAlone(s, sched, i - 1);
      ProducerAloneNext(s, sched, i - 1);
    }
  }

  /**
   With the consumer stopped anywhere, a producer that starts between its calls gets
   exactly `size - n` successes before -1, and what it stored is behind what was there.
   */
  lemma {:induction false} ProducerAlone(s: State, sched: Schedule, i: nat)
    requires Inv(s) && s.producer.PIdle? && forall j: nat | j < i :: ThreadOf(sched(j)) != Consumer
    ensures At(s, sched, i).consumer == s.consumer
    ensures var calls := Calls(Log(s, sched, i), Producer);
            && (forall m | 0 <= m < |Attempts(calls)| ::
                  Attempts(calls)[m] == Status(if m < s.mem.size - s.mem.n then STORED else FULL))
            && (At(s, sched, i).producer.PIdle? ==> Contents(At(s, sched, i)) == Contents(s) + Stored(calls))
  {
    ProducerStaysAlone(s, sched, i);
    Reachable(s, sched, i);
  }
}
