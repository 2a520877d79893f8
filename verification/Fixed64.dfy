/**
 The fixed form (src/mulle--pointerfifo64.h): no `size` field, the constant 64 in its
 place, the slots inside the struct.
 */
module Fixed64 {
  import opened Pointers
  import opened Machine
  import opened Refinement
  import opened Tickets
  import opened MachineWords

  const SLOTS: nat := 64

  datatype RawFixed = Fixed(n: int, write: nat, read: nat, storage: seq<Pointer>)

  predicate FixedWellFormed(f: RawFixed) {
    |f.storage| == SLOTS && f.write < SLOTS && f.read < SLOTS
  }

  type FixedMemory = f: RawFixed | FixedWellFormed(f) witness Fixed(0, 0, 0, seq(64, _ => NULL))

  datatype FixedState = FixedState(mem: FixedMemory, producer: ProducerPc, consumer: ConsumerPc,
                                   observers: map<nat, ObserverPc>)

  /** src/mulle--pointerfifo64.h:60-65 */
  function FixedInit(garbage: seq<Pointer>): FixedMemory
    requires |garbage| == SLOTS
  {
    Fixed(0, 0, 0, garbage)
  }

  /** src/mulle--pointerfifo64.h:125-135 */
  function MoveFixedProducer(ar: Arithmetic, s: FixedState): FixedState {
    match s.producer
    case PIdle => s
    case PEnter(p) => s.(producer := if p == NULL then PReturn(p, REJECTED) else PLoad(p))
    case PLoad(p) => s.(producer := if ar.UInt(s.mem.n) == 64 then PReturn(p, FULL) else PStore(p))
    case PStore(p) => s.(mem := s.mem.(storage := s.mem.storage[s.mem.write := p]), producer := PAdvance(p))
    case PAdvance(p) => s.(mem := s.mem.(write := ar.UInt(s.mem.write + 1) % 64), producer := PIncrement(p))
    case PIncrement(p) => s.(mem := s.mem.(n := ar.Word(s.mem.n + 1)), producer := PReturn(p, STORED))
    case PReturn(_, _) => s.(producer := PIdle)
  }

  /** src/mulle--pointerfifo64.h:85-92 */
  function MoveFixedConsumer(ar: Arithmetic, s: FixedState): FixedState {
    match s.consumer
    case CIdle => s
    case CLoad => s.(consumer := if ar.UInt(s.mem.n) == 0 then CReturn(NULL) else CFetch)
    case CFetch => s.(consumer := CAdvance(s.mem.storage[s.mem.read]))
    case CAdvance(p) => s.(mem := s.mem.(read := ar.UInt(s.mem.read + 1) % 64), consumer := CDecrement(p))
    case CDecrement(p) => s.(mem := s.mem.(n := ar.Word(s.mem.n - 1)), consumer := CReturn(p))
    case CReturn(_) => s.(consumer := CIdle)
  }

  /** src/mulle--pointerfifo64.h:76 */
  function MoveFixedObserver(ar: Arithmetic, s: FixedState, id: nat): FixedState {
    if id !in s.observers then s
    else if s.observers[id].OLoad? then s.(observers := s.observers[id := OReturn(ar.UInt(s.mem.n))])
    else s.(observers := s.observers - {id})
  }

  function FixedStep(ar: Arithmetic, s: FixedState, a: Action): FixedState {
    match a
    case ProducerCall(p) => if s.producer.PIdle? then s.(producer := PEnter(p)) else s
    case ProducerStep => MoveFixedProducer(ar, s)
    case ConsumerCall => if s.consumer.CIdle? then s.(consumer := CLoad) else s
    case ConsumerStep => MoveFixedConsumer(ar, s)
    case ObserverCall(id) => if id in s.observers then s else s.(observers := s.observers[id := OLoad])
    case ObserverStep(id) => MoveFixedObserver(ar, s, id)
    case ProducerWork => s
    case ConsumerWork => s
  }

  function FixedAt(ar: Arithmetic, s: FixedState, sched: Schedule, i: nat): FixedState {
    if i == 0 then s else FixedStep(ar, FixedAt(ar, s, sched, i - 1), sched(i - 1))
  }

  /** The dynamic FIFO of size 64 in the same situation. */
  function Widen(s: FixedState): State {
    State(Memory(SLOTS, s.mem.n, s.mem.storage, s.mem.write, s.mem.read), s.producer, s.consumer, s.observers)
  }

  lemma {:induction false} StepAgrees(ar: Arithmetic, s: FixedState, a: Action)
    ensures Widen(FixedStep(ar, s, a)) == StepIn(ar, Widen(s), a)
  {
  }

  /** On any arithmetic, from any state and under any schedule, the two forms move in lockstep. */
  lemma {:induction false} FormsAgree(ar: Arithmetic, s: FixedState, sched: Schedule, i: nat)
    ensures Widen(FixedAt(ar, s, sched, i)) == AtIn(ar, Widen(s), sched, i)
  {
    if i == 0 {
    } else {
      FormsAgree(ar, s, sched, i - 1);
      StepAgrees(ar, FixedAt(ar, s, sched, i - 1), sched(i - 1));
    }
  }

  /** Two threads and any observers about to use a fixed FIFO fresh from `init`. */
  function FirstFixedState(garbage: seq<Pointer>): FixedState
    requires |garbage| == SLOTS
  {
    FixedState(FixedInit(garbage), PIdle, CIdle, map[])
  }

  /**
   From `init` on, on machine words, and whatever is in the slots that `init` leaves unset
   in either, the 64-slot FIFO and the dynamic FIFO of size 64 show their callers the same
   events in every run.
   */
  lemma {:induction false} FormsReturnAlike(u: Modulus, w: Modulus, garbage: seq<Pointer>, garbage': seq<Pointer>,
                                            sched: Schedule, i: nat)
    requires |garbage| == |garbage'| == SLOTS < u <= w
    ensures EventOf(Widen(FixedAt(Words(u, w), FirstFixedState(garbage), sched, i)), sched(i))
         == EventOf(AtIn(Words(u, w), FirstState(SLOTS, garbage'), sched, i), sched(i))
  {
    var s, d := FirstFixedState(garbage), FirstState(SLOTS, garbage');
    FormsAgree(Words(u, w), s, sched, i);
    WordsAreExact(u, w, Widen(s), sched, i);
    WordsAreExact(u, w, d, sched, i);
    SameRuns(Widen(s), d, sched, i);
  }
}
