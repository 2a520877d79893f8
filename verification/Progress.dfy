/** What one side can rely on, however the other side is scheduled. */
module Progress {
  import opened Pointers
  import opened Machine
  import opened Invariant
  import opened AtomicQueue
  import opened Serialisation
  import opened Refinement
  import opened Tickets
  import opened HappensBefore

  // ----- Wait-freedom

  /** How many steps of its own `t` is away from the end of its call. */
  function StepsLeft(s: State, t: Thread): (r: nat)
    ensures r == 0 <==> CallOf(s, t) == Idle
    ensures r <= 6
  {
    match t
    case Producer => (
      match s.producer
      case PIdle => 0
      case PEnter(_) => 6
      case PLoad(_) => 5
      case PStore(_) => 4
      case PAdvance(_) => 3
      case PIncrement(_) => 2
      case PReturn(_, _) => 1)
    case Consumer => (
      match s.consumer
      case CIdle => 0
      case CLoad => 5
      case CFetch => 4
      case CAdvance(_) => 3
      case CDecrement(_) => 2
      case CReturn(_) => 1)
    case Observer(id) =>
      if id !in s.observers then 0 else if s.observers[id].OLoad? then 2 else 1
  }

  predicate IsStepOf(a: Action, t: Thread) {
    (a.ProducerStep? || a.ConsumerStep? || a.ObserverStep?) && ThreadOf(a) == t
  }

  /** How many steps `t` takes in the actions from `i` to `j`. */
  function OwnSteps(sched: Schedule, t: Thread, i: nat, j: nat): nat
    requires i <= j
  {
    if i == j then 0 else OwnSteps(sched, t, i, j - 1) + if IsStepOf(sched(j - 1), t) then 1 else 0
  }

  /** Every step that a thread takes on its own counts, whichever thread it is. */
  lemma {:induction false} OwnStepsAreSteps(sched: Schedule, t: Thread, a: Action, i: nat, j: nat)
    requires i <= j && forall k | i <= k < j :: sched(k) == a
    requires a == match t
                  case Producer => ProducerStep
                  case Consumer => ConsumerStep
                  case Observer(id) => ObserverStep(id)
    ensures OwnSteps(sched, t, i, j) == j - i
  {
    if i == j {
    } else {
      OwnStepsAreSteps(sched, t, a, i, j - 1);
    }
  }

  lemma {:induction false} StepsLeftDrops(s: State, a: Action, t: Thread)
    requires StepsLeft(s, t) > 0
    ensures StepsLeft(Step(s, a), t) <= StepsLeft(s, t) - if IsStepOf(a, t) then 1 else 0
  {
  }

  lemma {:induction false} Approaches(s: State, sched: Schedule, t: Thread, i: nat, j: nat) returns (k: nat)
    requires i <= j
    ensures i <= k <= j
    ensures CallOf(At(s, sched, k), t) == Idle
         || (k == j && StepsLeft(At(s, sched, j), t) + OwnSteps(sched, t, i, j) <= StepsLeft(At(s, sched, i), t))
  {
    if i == j {
      k := j;
    } else {
      k := Approaches(s, sched, t, i, j - 1);
      if CallOf(At(s, sched, k), t) != Idle {
        StepsLeftDrops(At(s, sched, j - 1), sched(j - 1), t);
        k := j;
      }
    }
  }

  /**
   A call returns when its own thread has taken the steps that were left, six at most,
   whatever the other threads do or do not do.
   */
  lemma {:induction false} WaitFree(s: State, sched: Schedule, t: Thread, i: nat, j: nat)
    requires i <= j && OwnSteps(sched, t, i, j) >= StepsLeft(At(s, sched, i), t)
    ensures exists k | i <= k <= j :: CallOf(At(s, sched, k), t) == Idle
  {
    var k := Approaches(s, sched, t, i, j);
  }

  // ----- The window lemma: the two sides cannot both fail forever

  ghost predicate Changes(s: State, sched: Schedule, x: nat) {
    Releases(At(s, sched, x), sched(x))
  }

  /** Action `x` is the load of `n` by which a write finds the FIFO full. */
  ghost predicate FindsFull(s: State, sched: Schedule, x: nat) {
    sched(x).ProducerStep? && At(s, sched, x).producer.PLoad? && At(s, sched, x).mem.n == At(s, sched, x).mem.size
  }

  /** Action `x` is the load of `n` by which a read finds the FIFO empty. */
  ghost predicate FindsEmpty(s: State, sched: Schedule, x: nat) {
    sched(x).ConsumerStep? && At(s, sched, x).consumer.CLoad? && At(s, sched, x).mem.n == 0
  }

  /** A write of a pointer either increments `n` or finds it equal to `size`. */
  lemma {:induction false} WriteOutcome(s: State, sched: Schedule, i: nat, j: nat) returns (x: nat)
    requires i <= j && At(s, sched, j).producer.PIdle?
    requires CallOf(At(s, sched, i), Producer).Pending? && At(s, sched, i).producer.pointer != NULL
    ensures i <= x < j && (Changes(s, sched, x) || FindsFull(s, sched, x))
    decreases j - i
  {
    if Changes(s, sched, i) || FindsFull(s, sched, i) {
      x := i;
    } else {
      assert At(s, sched, i + 1) == Step(At(s, sched, i), sched(i));
      x := WriteOutcome(s, sched, i + 1, j);
    }
  }

  /** A read either decrements `n` or finds it zero. */
  lemma {:induction false} ReadOutcome(s: State, sched: Schedule, i: nat, j: nat) returns (x: nat)
    requires i <= j && At(s, sched, j).consumer.CIdle?
    requires CallOf(At(s, sched, i), Consumer).Pending?
    ensures i <= x < j && (Changes(s, sched, x) || FindsEmpty(s, sched, x))
    decreases j - i
  {
    if Changes(s, sched, i) || FindsEmpty(s, sched, i) {
      x := i;
    } else {
      assert At(s, sched, i + 1) == Step(At(s, sched, i), sched(i));
      x := ReadOutcome(s, sched, i + 1, j);
    }
  }

  lemma {:induction false} CountChanges(s: State, sched: Schedule, i: nat, j: nat) returns (x: nat)
    requires i <= j && At(s, sched, i).mem.n != At(s, sched, j).mem.n
    ensures i <= x < j && Changes(s, sched, x)
  {
    if At(s, sched, j - 1).mem.n == At(s, sched, j).mem.n {
      x := CountChanges(s, sched, i, j - 1);
    } else {
      x := j - 1;
    }
  }

  /** Between finding it full and finding it empty, in whichever order, somebody changed the count. */
  lemma {:induction false} FullToEmpty(s: State, sched: Schedule, x: nat, y: nat) returns (z: nat)
    requires FindsFull(s, sched, x) && FindsEmpty(s, sched, y)
    ensures (x <= z < y || y <= z < x) && Changes(s, sched, z)
  {
    if x <= y {
      z := CountChanges(s, sched, x, y);
    } else {
      z := CountChanges(s, sched, y, x);
    }
  }

  lemma {:induction false} EnteredWrite(s: State, sched: Schedule, w: nat, w': nat) returns (x: nat)
    requires w < w' && sched(w).ProducerCall? && sched(w).pointer != NULL
    requires At(s, sched, w).producer.PIdle? && At(s, sched, w').producer.PIdle?
    ensures w <= x < w' && (Changes(s, sched, x) || FindsFull(s, sched, x))
  {
    assert At(s, sched, w + 1).producer == PEnter(sched(w).pointer);
    x := WriteOutcome(s, sched, w + 1, w');
  }

  lemma {:induction false} EnteredRead(s: State, sched: Schedule, r: nat, r': nat) returns (x: nat)
    requires r < r' && sched(r).ConsumerCall?
    requires At(s, sched, r).consumer.CIdle? && At(s, sched, r').consumer.CIdle?
    ensures r <= x < r' && (Changes(s, sched, x) || FindsEmpty(s, sched, x))
  {
    assert At(s, sched, r + 1).consumer == CLoad;
    x := ReadOutcome(s, sched, r + 1, r');
  }

  /**
   Any stretch of a run that contains one whole write of a pointer (from `w` to `w'`)
   and one whole read (from `r` to `r'`) contains a change of the counter.
   */
  lemma {:induction false} Window(s: State, sched: Schedule, a: nat, b: nat, w: nat, w': nat, r: nat, r': nat)
    requires a <= w < w' <= b && a <= r < r' <= b
    requires sched(w).ProducerCall? && sched(w).pointer != NULL
    requires At(s, sched, w).producer.PIdle? && At(s, sched, w').producer.PIdle?
    requires sched(r).ConsumerCall?
    requires At(s, sched, r).consumer.CIdle? && At(s, sched, r').consumer.CIdle?
    ensures exists x | a <= x < b :: Changes(s, sched, x)
  {
    var x := EnteredWrite(s, sched, w, w');
    var y := EnteredRead(s, sched, r, r');
    if !Changes(s, sched, x) && !Changes(s, sched, y) {
      var z := FullToEmpty(s, sched, x, y);
    }
  }

  /** A read returns NULL only because its own load of `n` found the queue empty; no slot ever yields NULL. */
  lemma {:induction false} NullMeansEmpty(s: State, sched: Schedule, i: nat) returns (l: nat)
    requires Initial(s) && At(s, sched, i).consumer == CReturn(NULL)
    ensures l < i && FindsEmpty(s, sched, l) && Contents(At(s, sched, l)) == []
    ensures forall j | l < j <= i :: At(s, sched, j).consumer == CReturn(NULL)
  {
    assert i > 0;
    AtNext(s, sched, i - 1);
    RunInv(s, sched, i - 1);
    var b := At(s, sched, i - 1);
    if b.consumer == CReturn(NULL) {
      l := NullMeansEmpty(s, sched, i - 1);
    } else {
      if b.consumer.CDecrement? {
        ReadNotNull(b);
      }
      l := i - 1;
    }
  }

  /** The read past its load has, or is about to fetch, the pointer `p`. */
  ghost predicate Carries(b: State, p: Pointer) {
    match b.consumer
    case CIdle => false
    case CLoad => false
    case CFetch => Contents(b) != [] && Contents(b)[0] == p
    case pc => pc.pointer == p
  }

  /** Nothing that anybody does before the read returns can change what it carries. */
  lemma {:induction false} CarriesStep(b: State, a: Action, p: Pointer)
    requires Inv(b) && Carries(b, p) && !(a.ConsumerStep? && b.consumer.CReturn?)
    ensures Carries(Step(b, a), p)
  {
    StepKeepsInv(b, a);
    if b.consumer.CFetch? {
      ContentsAt(b, 0);
    }
  }

  /** What a read gets that looks at `n` while the queue is `q`. */
  function FrontOf(q: seq<Pointer>): Pointer {
    if q == [] then NULL else q[0]
  }

  lemma {:induction false} LoadDecides(b: State)
    requires Inv(b) && b.consumer.CLoad?
    ensures Carries(Step(b, ConsumerStep), FrontOf(Contents(b)))
  {
    ConsumerKeepsInv(b);
  }

  lemma {:induction false} CarriedFromLoad(s: State, sched: Schedule, i: nat, j: nat)
    requires Initial(s) && i < j && sched(i).ConsumerStep? && At(s, sched, i).consumer.CLoad?
    requires forall k | i < k < j :: !(sched(k).ConsumerStep? && At(s, sched, k).consumer.CReturn?)
    ensures Carries(At(s, sched, j), FrontOf(Contents(At(s, sched, i))))
  {
    RunInv(s, sched, j - 1);
    AtNext(s, sched, j - 1);
    if j == i + 1 {
      LoadDecides(At(s, sched, i));
    } else {
      CarriedFromLoad(s, sched, i, j - 1);
      CarriesStep(At(s, sched, j - 1), sched(j - 1), FrontOf(Contents(At(s, sched, i))));
    }
  }

  /**
   A read returns the pointer that was the oldest at its own load of `n`, or NULL if there
   was none, whatever the producer does before it returns.
   */
  lemma {:induction false} ReadReturnsOldest(s: State, sched: Schedule, i: nat, j: nat)
    requires Initial(s) && i < j && sched(i).ConsumerStep? && At(s, sched, i).consumer.CLoad?
    requires sched(j).ConsumerStep? && At(s, sched, j).consumer.CReturn?
    requires forall k | i < k < j :: !(sched(k).ConsumerStep? && At(s, sched, k).consumer.CReturn?)
    ensures EventOf(At(s, sched, j), sched(j)) == Some(Return(Consumer, Value(FrontOf(Contents(At(s, sched, i))))))
  {
    CarriedFromLoad(s, sched, i, j);
  }

  // ----- Credit: a stale count is still good for something

  /** The count falls only by what was retired and rises only by what was published. */
  lemma {:induction false} CountKept(s: State, sched: Schedule, i: nat, j: nat)
    requires Initial(s) && i <= j
    ensures At(s, sched, j).mem.n >= At(s, sched, i).mem.n - (Retired(s, sched, j) - Retired(s, sched, i))
    ensures At(s, sched, j).mem.n <= At(s, sched, i).mem.n + (Published(s, sched, j) - Published(s, sched, i))
    ensures At(s, sched, j).mem.size == s.mem.size
  {
    CountAt(s, sched, i);
    CountAt(s, sched, j);
    Monotone(s, sched, i, j);
    RunInv(s, sched, j);
  }

  predicate ReadSomething(c: Call) {
    c.op == Read && c.response.Value? && c.response.pointer != NULL
  }

  /** What the consumer may still rely on after seeing `credit` with `before` calls and `retired` tickets behind it. */
  ghost predicate ReadCredit(b: State, calls: seq<Call>, before: nat, credit: nat, retired: nat, retiredNow: nat) {
    && before <= |calls|
    && (forall m | before <= m < before + credit && m < |calls| :: ReadSomething(calls[m]))
    && (|calls| - before <= credit ==> retiredNow - retired == |calls| - before + Size(ReadInFlight(b)))
    && (b.consumer == CReturn(NULL) ==> |calls| - before >= credit)
  }

  lemma {:induction false} ReadCreditStep(b: State, a: Action, calls: seq<Call>, done: Option<Call>,
                                          before: nat, credit: nat, retired: nat, retiredNow: nat)
    requires Inv(b) && Completes(b, a, Consumer, done)
    requires ReadCredit(b, calls, before, credit, retired, retiredNow)
    requires b.mem.n >= credit - (retiredNow - retired)
    ensures ReadCredit(Step(b, a), Extend(calls, done), before, credit, retired, retiredNow + Size(Retires(b, a)))
  {
    if b.consumer.CDecrement? {
      ReadNotNull(b);
    }
  }

  lemma {:induction false} ReadCreditGrows(b: State, a: Action, log: seq<Event>, before: nat, credit: nat,
                                           retired: nat, retiredNow: nat)
    requires Inv(b) && Agrees(log, Consumer, CallOf(b, Consumer))
    requires ReadCredit(b, Calls(log, Consumer), before, credit, retired, retiredNow)
    requires b.mem.n >= credit - (retiredNow - retired)
    ensures ReadCredit(Step(b, a), Calls(Extend(log, EventOf(b, a)), Consumer), before, credit, retired,
                       retiredNow + Size(Retires(b, a)))
  {
    var done := CallsGrow(b, a, log, Consumer);
    ReadCreditStep(b, a, Calls(log, Consumer), done, before, credit, retired, retiredNow);
  }

  /** The credit that the consumer has at `j` from the count it could see at `i`. */
  ghost predicate ConsumerMayRead(s: State, sched: Schedule, i: nat, j: nat) {
    && At(s, sched, i).mem.n >= 0
    && ReadCredit(At(s, sched, j), Calls(Log(s, sched, j), Consumer), |Calls(Log(s, sched, i), Consumer)|,
                  At(s, sched, i).mem.n, Retired(s, sched, i), Retired(s, sched, j))
  }

  lemma {:induction false} ReadCreditNext(s: State, sched: Schedule, i: nat, j: nat)
    requires Initial(s) && i <= j && ConsumerMayRead(s, sched, i, j)
    ensures ConsumerMayRead(s, sched, i, j + 1)
  {
    AgreesFrom(s, sched, j, Consumer);
    RunInv(s, sched, j);
    CountKept(s, sched, i, j);
    OneMoreAction(s, sched, j);
    ReadCreditGrows(At(s, sched, j), sched(j), Log(s, sched, j), |Calls(Log(s, sched, i), Consumer)|,
                    At(s, sched, i).mem.n, Retired(s, sched, i), Retired(s, sched, j));
  }

  lemma {:induction false} ReadCreditStarts(s: State, sched: Schedule, i: nat)
    requires Initial(s) && At(s, sched, i).consumer.CIdle?
    ensures ConsumerMayRead(s, sched, i, i)
  {
    RunInv(s, sched, i);
  }

  lemma {:induction false} ConsumerCreditHolds(s: State, sched: Schedule, i: nat, j: nat)
    requires Initial(s) && i <= j && ConsumerMayRead(s, sched, i, i)
    ensures ConsumerMayRead(s, sched, i, j)
  {
    if i == j {
    } else {
      ConsumerCreditHolds(s, sched, i, j - 1);
      ReadCreditNext(s, sched, i, j - 1);
    }
  }

  /**
   If the count is `c` while the consumer is between calls, its next `c` reads all
   return a pointer, however the producer interferes.
   */
  lemma {:induction false} ConsumerCredit(s: State, sched: Schedule, i: nat, j: nat)
    requires Initial(s) && i <= j && At(s, sched, i).consumer.CIdle?
    ensures var calls, before := Calls(Log(s, sched, j), Consumer), |Calls(Log(s, sched, i), Consumer)|;
            forall m | before <= m < before + At(s, sched, i).mem.n && m < |calls| ::
              calls[m].op == Read && calls[m].response.Value? && calls[m].response.pointer != NULL
  {
    ReadCreditStarts(s, sched, i);
    ConsumerCreditHolds(s, sched, i, j);
  }

  /** The response to a call that is a write of something other than NULL. */
  function AttemptBy(done: Option<Call>): Option<Response> {
    if done.Some? && done.value.op.Write? && done.value.op.pointer != NULL then Some(done.value.response) else None
  }

  /** The responses to the writes of something other than NULL. */
  function Attempts(calls: seq<Call>): seq<Response> {
    if calls == [] then []
    else Extend(Attempts(calls[..|calls| - 1]), AttemptBy(Some(calls[|calls| - 1])))
  }

  lemma {:induction false} AttemptsGrow(calls: seq<Call>, done: Option<Call>)
    ensures Attempts(Extend(calls, done)) == Extend(Attempts(calls), AttemptBy(done))
  {
    if done.Some? {
      assert Extend(calls, done)[..|calls|] == calls;
    }
  }

  /** Every write of something other than NULL is an attempt, with the response that it had, and nothing else is. */
  lemma {:induction false} AttemptsAreWrites(calls: seq<Call>, c: Call)
    ensures Attempts([]) == []
    ensures Attempts(calls + [c]) ==
            if c.op.Write? && c.op.pointer != NULL then Attempts(calls) + [c.response] else Attempts(calls)
  {
    AttemptsGrow(calls, Some(c));
  }

  ghost predicate WriteCredit(b: State, attempts: seq<Response>, before: nat, credit: nat,
                              published: nat, publishedNow: nat)
  {
    && before <= |attempts|
    && (forall m | before <= m < before + credit && m < |attempts| :: attempts[m] == Status(STORED))
    && (|attempts| - before <= credit ==> publishedNow - published == |attempts| - before + Size(WriteInFlight(b)))
    && (b.producer.PReturn? && b.producer.status == FULL ==> |attempts| - before >= credit)
  }

  lemma {:induction false} WriteCreditStep(b: State, a: Action, attempts: seq<Response>, done: Option<Call>,
                                           before: nat, credit: nat, published: nat, publishedNow: nat)
    requires Inv(b) && Completes(b, a, Producer, done)
    requires WriteCredit(b, attempts, before, credit, published, publishedNow)
    requires b.mem.size - b.mem.n >= credit - (publishedNow - published)
    ensures WriteCredit(Step(b, a), Extend(attempts, AttemptBy(done)),
                        before, credit, published, publishedNow + Size(Publishes(b, a)))
  {
  }

  lemma {:induction false} WriteCreditGrows(b: State, a: Action, log: seq<Event>, before: nat, credit: nat,
                                            published: nat, publishedNow: nat)
    requires Inv(b) && Agrees(log, Producer, CallOf(b, Producer))
    requires WriteCredit(b, Attempts(Calls(log, Producer)), before, credit, published, publishedNow)
    requires b.mem.size - b.mem.n >= credit - (publishedNow - published)
    ensures WriteCredit(Step(b, a), Attempts(Calls(Extend(log, EventOf(b, a)), Producer)), before, credit, published,
                        publishedNow + Size(Publishes(b, a)))
  {
    var done := CallsGrow(b, a, log, Producer);
    AttemptsGrow(Calls(log, Producer), done);
    WriteCreditStep(b, a, Attempts(Calls(log, Producer)), done, before, credit, published, publishedNow);
  }

  /** The credit that the producer has at `j` from the count it could see at `i`. */
  ghost predicate ProducerMayWrite(s: State, sched: Schedule, i: nat, j: nat) {
    && At(s, sched, i).mem.n <= s.mem.size
    && WriteCredit(At(s, sched, j), Attempts(Calls(Log(s, sched, j), Producer)),
                   |Attempts(Calls(Log(s, sched, i), Producer))|, s.mem.size - At(s, sched, i).mem.n,
                   Published(s, sched, i), Published(s, sched, j))
  }

  lemma {:induction false} WriteCreditNext(s: State, sched: Schedule, i: nat, j: nat)
    requires Initial(s) && i <= j && ProducerMayWrite(s, sched, i, j)
    ensures ProducerMayWrite(s, sched, i, j + 1)
  {
    AgreesFrom(s, sched, j, Producer);
    RunInv(s, sched, j);
    CountKept(s, sched, i, j);
    OneMoreAction(s, sched, j);
    WriteCreditGrows(At(s, sched, j), sched(j), Log(s, sched, j), |Attempts(Calls(Log(s, sched, i), Producer))|,
                     s.mem.size - At(s, sched, i).mem.n, Published(s, sched, i), Published(s, sched, j));
  }

  lemma {:induction false} WriteCreditStarts(s: State, sched: Schedule, i: nat)
    requires Initial(s) && At(s, sched, i).producer.PIdle?
    ensures ProducerMayWrite(s, sched, i, i)
  {
    RunInv(s, sched, i);
  }

  lemma {:induction false} ProducerCreditHolds(s: State, sched: Schedule, i: nat, j: nat)
    requires Initial(s) && i <= j && ProducerMayWrite(s, sched, i, i)
    ensures ProducerMayWrite(s, sched, i, j)
  {
    if i == j {
    } else {
      ProducerCreditHolds(s, sched, i, j - 1);
      WriteCreditNext(s, sched, i, j - 1);
    }
  }

  /**
   If the count is `c` while the producer is between calls, its next `size - c` writes
   of something other than NULL all return 0, however the consumer interferes.
   */
  lemma {:induction false} ProducerCredit(s: State, sched: Schedule, i: nat, j: nat)
    requires Initial(s) && i <= j && At(s, sched, i).producer.PIdle?
    ensures var attempts := Attempts(Calls(Log(s, sched, j), Producer));
            var before := |Attempts(Calls(Log(s, sched, i), Producer))|;
            forall m | before <= m < before + s.mem.size - At(s, sched, i).mem.n && m < |attempts| ::
              attempts[m] == Status(STORED)
  {
    WriteCreditStarts(s, sched, i);
    ProducerCreditHolds(s, sched, i, j);
  }
}
