/**
 The FIFO as a machine of atomic steps (src/mulle-pointerfifo.h).

 One producer, one consumer and any number of observers run `write`, `read` and
 `get_count`.  Each call is cut at every access to shared memory and at every update
 of a private index, and any thread may move between any two cuts.  Loads, stores and
 the increment and decrement of `n` are indivisible and sequentially consistent.
 */
module Machine {
  import opened Pointers

  // ----- Memory: the fields of `struct mulle_pointerfifo`

  datatype RawMemory = Memory(size: nat, n: int, storage: seq<Pointer>, write: nat, read: nat)

  predicate WellFormed(m: RawMemory) {
    && m.size >= 2
    && |m.storage| == m.size
    && m.write < m.size
    && m.read < m.size
  }

  type Memory = m: RawMemory | WellFormed(m) witness Memory(2, 0, [NULL, NULL], 0, 0)

  /** What `init` leaves behind.  It does not clear the slots, so `garbage` is arbitrary. */
  function Init(size: nat, garbage: seq<Pointer>): Memory
    requires size >= 2 && |garbage| == size
  {
    Memory(size, 0, garbage, 0, 0)
  }

  // ----- Arithmetic: mathematical integers, or machine words that wrap around

  type Modulus = x: nat | x > 0 witness 1

  /** `Words(u, w)`: `unsigned int` counts modulo `u`, `uintptr_t` modulo `w`. */
  datatype Arithmetic = Exact | Words(uintModulus: Modulus, wordModulus: Modulus)
  {
    function UInt(x: int): int {
      if Exact? then x else x % uintModulus
    }

    function Word(x: int): int {
      if Exact? then x else x % wordModulus
    }
  }

  // ----- The accesses, one function each

  function GetCount(ar: Arithmetic, m: Memory): int {
    ar.UInt(m.n)
  }

  function StoreSlot(m: Memory, p: Pointer): Memory {
    m.(storage := m.storage[m.write := p])
  }

  function LoadSlot(m: Memory): Pointer {
    m.storage[m.read]
  }

  function AdvanceWrite(ar: Arithmetic, m: Memory): Memory {
    m.(write := ar.UInt(m.write + 1) % m.size)
  }

  function AdvanceRead(ar: Arithmetic, m: Memory): Memory {
    m.(read := ar.UInt(m.read + 1) % m.size)
  }

  function Increment(ar: Arithmetic, m: Memory): Memory {
    m.(n := ar.Word(m.n + 1))
  }

  function Decrement(ar: Arithmetic, m: Memory): Memory {
    m.(n := ar.Word(m.n - 1))
  }

  // ----- Threads

  /** Where the producer is inside `write(pointer)`: the constructor names its next step. */
  datatype ProducerPc =
    | PIdle
    | PEnter(pointer: Pointer)
    | PLoad(pointer: Pointer)
    | PStore(pointer: Pointer)
    | PAdvance(pointer: Pointer)
    | PIncrement(pointer: Pointer)
    | PReturn(pointer: Pointer, status: int)

  /** Where the consumer is inside `read()`. */
  datatype ConsumerPc =
    | CIdle
    | CLoad
    | CFetch
    | CAdvance(pointer: Pointer)
    | CDecrement(pointer: Pointer)
    | CReturn(pointer: Pointer)

  /** Where an observer is inside `get_count()`. */
  datatype ObserverPc = OLoad | OReturn(count: int)

  /** `observers` holds the observers that are inside a call. */
  datatype State = State(mem: Memory, producer: ProducerPc, consumer: ConsumerPc,
                         observers: map<nat, ObserverPc>)

  const STORED := 0
  const FULL := -1
  const REJECTED := -2

  /** Two threads and any observers about to use a FIFO fresh from `init`. */
  function FirstState(size: nat, garbage: seq<Pointer>): State
    requires size >= 2 && |garbage| == size
  {
    State(Init(size, garbage), PIdle, CIdle, map[])
  }

  predicate Initial(s: State) {
    s == FirstState(s.mem.size, s.mem.storage)
  }

  /** `Call` enters a function, `Step` does the next step of it, `Work` is the thread's own code. */
  datatype Action =
    | ProducerCall(pointer: Pointer) | ProducerStep | ProducerWork
    | ConsumerCall | ConsumerStep | ConsumerWork
    | ObserverCall(id: nat) | ObserverStep(id: nat)

  /** src/mulle-pointerfifo.h:146-156 */
  function MoveProducer(ar: Arithmetic, s: State): State {
    match s.producer
    case PIdle => s
    case PEnter(p) => s.(producer := if p == NULL then PReturn(p, REJECTED) else PLoad(p))
    case PLoad(p) => s.(producer := if GetCount(ar, s.mem) == s.mem.size then PReturn(p, FULL) else PStore(p))
    case PStore(p) => s.(mem := StoreSlot(s.mem, p), producer := PAdvance(p))
    case PAdvance(p) => s.(mem := AdvanceWrite(ar, s.mem), producer := PIncrement(p))
    case PIncrement(p) => s.(mem := Increment(ar, s.mem), producer := PReturn(p, STORED))
    case PReturn(_, _) => s.(producer := PIdle)
  }

  /** src/mulle-pointerfifo.h:122-129 */
  function MoveConsumer(ar: Arithmetic, s: State): State {
    match s.consumer
    case CIdle => s
    case CLoad => s.(consumer := if GetCount(ar, s.mem) == 0 then CReturn(NULL) else CFetch)
    case CFetch => s.(consumer := CAdvance(LoadSlot(s.mem)))
    case CAdvance(p) => s.(mem := AdvanceRead(ar, s.mem), consumer := CDecrement(p))
    case CDecrement(p) => s.(mem := Decrement(ar, s.mem), consumer := CReturn(p))
    case CReturn(_) => s.(consumer := CIdle)
  }

  /** src/mulle-pointerfifo.h:104 */
  function MoveObserver(ar: Arithmetic, s: State, id: nat): State {
    if id !in s.observers then s
    else if s.observers[id].OLoad? then s.(observers := s.observers[id := OReturn(GetCount(ar, s.mem))])
    else s.(observers := s.observers - {id})
  }

  /** One step of one thread.  An action that does not apply leaves the state as it is. */
  function StepIn(ar: Arithmetic, s: State, a: Action): State {
    match a
    case ProducerCall(p) => if s.producer.PIdle? then s.(producer := PEnter(p)) else s
    case ProducerStep => MoveProducer(ar, s)
    case ConsumerCall => if s.consumer.CIdle? then s.(consumer := CLoad) else s
    case ConsumerStep => MoveConsumer(ar, s)
    case ObserverCall(id) => if id in s.observers then s else s.(observers := s.observers[id := OLoad])
    case ObserverStep(id) => MoveObserver(ar, s, id)
    case ProducerWork => s
    case ConsumerWork => s
  }

  function Step(s: State, a: Action): State {
    StepIn(Exact, s, a)
  }

  // ----- Runs

  /** Who moves when, and what calls are made: every interleaving is one schedule. */
  type Schedule = nat -> Action

  /** The state before action `i` of `sched`, that is, after the first `i` actions. */
  function At(s: State, sched: Schedule, i: nat): State
    decreases i, 0
  {
    if i == 0 then s else After(s, sched, i - 1)
  }

  /** The state after action `i`. */
  function After(s: State, sched: Schedule, i: nat): State
    decreases i, 1
  {
    Step(At(s, sched, i), sched(i))
  }

  lemma {:induction false} AtNext(s: State, sched: Schedule, i: nat)
    ensures At(s, sched, i + 1) == Step(At(s, sched, i), sched(i))
  {
  }

  ghost predicate Follows(moments: nat -> State, sched: Schedule, i: nat) {
    moments(i + 1) == Step(moments(i), sched(i))
  }

  /** The FIFO inside any larger system that moves it one action at a time goes through a run. */
  lemma {:induction false} FollowsIsRun(moments: nat -> State, sched: Schedule, i: nat)
    requires forall k: nat :: Follows(moments, sched, k)
    ensures moments(i) == At(moments(0), sched, i)
  {
    if i == 0 {
    } else {
      FollowsIsRun(moments, sched, i - 1);
      assert Follows(moments, sched, i - 1);
      AtNext(moments(0), sched, i - 1);
    }
  }

  /** The same on machine words. */
  function AtIn(ar: Arithmetic, s: State, sched: Schedule, i: nat): State {
    if i == 0 then s else StepIn(ar, AtIn(ar, s, sched, i - 1), sched(i - 1))
  }

  // ----- What a run did, read off its steps

  /** The pointer that this action publishes by incrementing `n`, if it does. */
  function Publishes(s: State, a: Action): Option<Pointer> {
    if a.ProducerStep? && s.producer.PIncrement? then Some(s.producer.pointer) else None
  }

  /** The pointer that this action retires by decrementing `n`, if it does. */
  function Retires(s: State, a: Action): Option<Pointer> {
    if a.ConsumerStep? && s.consumer.CDecrement? then Some(s.consumer.pointer) else None
  }

  /** All pointers published in the first `i` actions, in order. */
  function Accepted(s: State, sched: Schedule, i: nat): seq<Pointer> {
    if i == 0 then [] else Extend(Accepted(s, sched, i - 1), Publishes(At(s, sched, i - 1), sched(i - 1)))
  }

  /** All pointers retired in the first `i` actions, in order. */
  function Delivered(s: State, sched: Schedule, i: nat): seq<Pointer> {
    if i == 0 then [] else Extend(Delivered(s, sched, i - 1), Retires(At(s, sched, i - 1), sched(i - 1)))
  }
}
