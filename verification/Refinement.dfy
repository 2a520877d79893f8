/** The machine of atomic steps refines the atomic queue, and is therefore linearizable. */
module Refinement {
  import opened Pointers
  import opened Machine
  import opened Invariant
  import opened AtomicQueue
  import opened Serialisation

  /** The abstract call that a thread of the machine is in. */
  function CallOf(s: State, t: Thread): CallState {
    match t
    case Producer => (
      match s.producer
      case PIdle => Idle
      case PReturn(p, status) => Done(Write(p), Status(status))
      case pc => Pending(Write(pc.pointer)))
    case Consumer => (
      match s.consumer
      case CIdle => Idle
      case CReturn(p) => Done(Read, Value(p))
      case _ => Pending(Read))
    case Observer(id) =>
      if id !in s.observers then Idle
      else match s.observers[id]
           case OLoad => Pending(GetCount)
           case OReturn(c) => Done(GetCount, Count(c))
  }

  function Abstraction(s: State): Queue {
    Queue(s.mem.size, Contents(s), t => CallOf(s, t))
  }

  function ThreadOf(a: Action): Thread {
    match a
    case ProducerCall(_) => Producer
    case ProducerStep => Producer
    case ProducerWork => Producer
    case ConsumerCall => Consumer
    case ConsumerStep => Consumer
    case ConsumerWork => Consumer
    case ObserverCall(id) => Observer(id)
    case ObserverStep(id) => Observer(id)
  }

  /** What the callers see of an action: a call that begins, or one that returns. */
  function EventOf(s: State, a: Action): Option<Event> {
    match a
    case ProducerCall(p) => if s.producer.PIdle? then Some(Invoke(Producer, Write(p))) else None
    case ConsumerCall => if s.consumer.CIdle? then Some(Invoke(Consumer, Read)) else None
    case ObserverCall(id) => if id in s.observers then None else Some(Invoke(Observer(id), GetCount))
    case ProducerStep => if s.producer.PReturn? then Some(Return(Producer, Status(s.producer.status))) else None
    case ConsumerStep => if s.consumer.CReturn? then Some(Return(Consumer, Value(s.consumer.pointer))) else None
    case ObserverStep(id) =>
      if id in s.observers && s.observers[id].OReturn?
      then Some(Return(Observer(id), Count(s.observers[id].count))) else None
    case _ => None
  }

  function Log(s: State, sched: Schedule, i: nat): seq<Event> {
    if i == 0 then [] else Extend(Log(s, sched, i - 1), EventOf(At(s, sched, i - 1), sched(i - 1)))
  }

  ghost predicate Simulates(s: State, a: Action) {
    AtomicStep(Abstraction(s), Abstraction(Step(s, a)), ThreadOf(a), EventOf(s, a))
  }

  lemma {:induction false} ProducerRefines(s: State)
    requires Inv(s)
    ensures Simulates(s, ProducerStep)
  {
    var q, q' := Abstraction(s), Abstraction(Step(s, ProducerStep));
    ProducerKeepsInv(s);
    assert forall u | u != Producer :: q'.calls(u) == q.calls(u);
    if q.calls(Producer).Pending? && q'.calls(Producer).Done? {
      assert TakesEffect(q, q', Producer, None);
    }
  }

  lemma {:induction false} ConsumerRefines(s: State)
    requires Inv(s)
    ensures Simulates(s, ConsumerStep)
  {
    var q, q' := Abstraction(s), Abstraction(Step(s, ConsumerStep));
    ConsumerKeepsInv(s);
    assert forall u | u != Consumer :: q'.calls(u) == q.calls(u);
    if q.calls(Consumer).Pending? && q'.calls(Consumer).Done? {
      assert TakesEffect(q, q', Consumer, None);
    }
  }

  lemma {:induction false} ObserverRefines(s: State, id: nat)
    requires Inv(s)
    ensures Simulates(s, ObserverStep(id))
  {
    ObserverKeepsInv(s, id);
    assert forall u | u != Observer(id) :: CallOf(MoveObserver(Exact, s, id), u) == CallOf(s, u);
  }

  /**
   Forward simulation.  -2, -1, NULL and a count take effect at the test or load that
   decides them, a successful write at its increment, a successful read at its decrement;
   every other step is invisible.
   */
  lemma {:induction false} StepRefines(s: State, a: Action)
    requires Inv(s)
    ensures Inv(Step(s, a))
    ensures AtomicStep(Abstraction(s), Abstraction(Step(s, a)), ThreadOf(a), EventOf(s, a))
  {
    StepKeepsInv(s, a);
    match a
    case ProducerStep => ProducerRefines(s);
    case ConsumerStep => ConsumerRefines(s);
    case ObserverStep(id) => ObserverRefines(s, id);
    case _ =>
      OthersKeepInv(s, a);
      assert forall u | u != ThreadOf(a) :: CallOf(Step(s, a), u) == CallOf(s, u);
  }

  /** Every run of the machine is, action by action, a run of the atomic queue with the same events. */
  lemma {:induction false} RunRefines(s: State, sched: Schedule, i: nat)
    requires Initial(s)
    ensures AtomicStep(Abstraction(At(s, sched, i)), Abstraction(At(s, sched, i + 1)),
                       ThreadOf(sched(i)), EventOf(At(s, sched, i), sched(i)))
    ensures Abstraction(At(s, sched, 0)).items == [] && forall t :: Abstraction(At(s, sched, 0)).calls(t) == Idle
  {
    InitialInv(s);
    Reachable(s, sched, i);
    StepRefines(At(s, sched, i), sched(i));
    AtNext(s, sched, i);
  }

  lemma {:induction false} CallMoves(s: State, a: Action, t: Thread)
    ensures match EventOf(s, a)
            case Some(Invoke(u, op)) => u == t ==> CallOf(s, t) == Idle && CallOf(Step(s, a), t) == Pending(op)
            case Some(Return(u, r)) => u == t ==> CallOf(s, t).Done? && CallOf(Step(s, a), t) == Idle
            case None => true
    ensures EventOf(s, a).None? || EventOf(s, a).value.thread != t ==>
              var c, c' := CallOf(s, t), CallOf(Step(s, a), t); if c.Idle? then c'.Idle? else !c'.Idle? && c'.op == c.op
  {
  }

  /** The history and the state agree on what `t` is doing, in every run that starts with `t` between calls. */
  lemma {:induction false} AgreesFrom(s: State, sched: Schedule, i: nat, t: Thread)
    requires CallOf(s, t) == Idle
    ensures Agrees(Log(s, sched, i), t, CallOf(At(s, sched, i), t))
  {
    if i == 0 {
    } else {
      AgreesFrom(s, sched, i - 1, t);
      var b, a := At(s, sched, i - 1), sched(i - 1);
      CallMoves(b, a, t);
      if EventOf(b, a).Some? {
        OneMoreEvent(Log(s, sched, i - 1), EventOf(b, a).value, t);
      }
    }
  }

  /** The call of `t` that this action completes, if it does; where it stands in the history is left open. */
  ghost predicate Completes(s: State, a: Action, t: Thread, done: Option<Call>) {
    match EventOf(s, a)
    case Some(Return(u, r)) =>
      if u == t then done.Some? && done.value.op == CallOf(s, t).op && done.value.response == r else done.None?
    case _ => done.None?
  }

  lemma {:induction false} CallsGrow(s: State, a: Action, log: seq<Event>, t: Thread) returns (done: Option<Call>)
    requires Agrees(log, t, CallOf(s, t))
    ensures Completes(s, a, t, done) && Calls(Extend(log, EventOf(s, a)), t) == Extend(Calls(log, t), done)
  {
    done := None;
    CallMoves(s, a, t);
    if EventOf(s, a).Some? {
      var e := EventOf(s, a).value;
      OneMoreEvent(log, e, t);
      if e.Return? && e.thread == t {
        done := Some(Call(t, OpenCall(log, t).value.0, e.response, OpenCall(log, t).value.1, Some(|log|)));
      }
    }
  }

  /** What `t` has got back grows by at most one call per action. */
  lemma {:induction false} CallsAt(s: State, sched: Schedule, i: nat, t: Thread) returns (done: Option<Call>)
    requires CallOf(s, t) == Idle && Inv(s)
    ensures Inv(At(s, sched, i))
    ensures Completes(At(s, sched, i), sched(i), t, done)
    ensures Calls(Log(s, sched, i + 1), t) == Extend(Calls(Log(s, sched, i), t), done)
  {
    Reachable(s, sched, i);
    AgreesFrom(s, sched, i, t);
    done := CallsGrow(At(s, sched, i), sched(i), Log(s, sched, i), t);
  }

  lemma {:induction false} Serialise(s: State, sched: Schedule, i: nat) returns (serial: seq<Call>)
    requires Initial(s)
    ensures Inv(At(s, sched, i))
    ensures Serial(Abstraction(At(s, sched, i)), Log(s, sched, i), serial)
  {
    InitialInv(s);
    serial := [];
    if i == 0 {
    } else {
      var before := Serialise(s, sched, i - 1);
      var b, a := At(s, sched, i - 1), sched(i - 1);
      StepRefines(b, a);
      serial := StepKeepsSerial(Abstraction(b), Abstraction(Step(b, a)), ThreadOf(a), EventOf(b, a),
                                Log(s, sched, i - 1), before);
    }
  }

  /** Linearizability of every run, at every moment of it. */
  lemma {:induction false} Linearizable(s: State, sched: Schedule, i: nat)
    requires Initial(s)
    ensures exists serial :: Explains(serial, Log(s, sched, i), s.mem.size, Contents(At(s, sched, i)))
  {
    InitialInv(s);
    Reachable(s, sched, i);
    var serial := Serialise(s, sched, i);
    SerialExplains(Abstraction(At(s, sched, i)), Log(s, sched, i), serial);
  }

  /** When all calls have returned, the serial order consists of exactly those calls. */
  lemma {:induction false} LinearizableWhenQuiet(s: State, sched: Schedule, i: nat)
    requires Initial(s)
    requires forall t :: CallOf(At(s, sched, i), t) == Idle
    ensures exists serial ::
      && Explains(serial, Log(s, sched, i), s.mem.size, Contents(At(s, sched, i)))
      && forall t :: Project(serial, t) == Calls(Log(s, sched, i), t)
  {
    InitialInv(s);
    Reachable(s, sched, i);
    var serial := Serialise(s, sched, i);
    SerialExplains(Abstraction(At(s, sched, i)), Log(s, sched, i), serial);
    assert forall t :: Abstraction(At(s, sched, i)).calls(t) == CallOf(At(s, sched, i), t);
  }
}
