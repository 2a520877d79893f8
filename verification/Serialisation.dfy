/** The atomic queue is serialisable: a serial order can be kept up to date step by step. */
module Serialisation {
  import opened Pointers
  import opened AtomicQueue

  /** What the serial order must contain for a thread whose call is in state `c`. */
  function Expected(log: seq<Event>, t: Thread, c: CallState): seq<Call> {
    Extend(Calls(log, t), if c.Done? && OpenCall(log, t).Some?
                          then Some(Call(t, c.op, c.response, OpenCall(log, t).value.1, None)) else None)
  }

  /** The history and the state agree on the call that `t` is in. */
  predicate Agrees(log: seq<Event>, t: Thread, c: CallState) {
    match OpenCall(log, t)
    case None => c.Idle?
    case Some(open) => !c.Idle? && c.op == open.0 && open.1 < |log|
  }

  ghost predicate Serial(q: Queue, log: seq<Event>, serial: seq<Call>) {
    && (forall t :: Agrees(log, t, q.calls(t)))
    && (forall t :: Project(serial, t) == Expected(log, t, q.calls(t)))
    && (forall k | 0 <= k < |serial| :: serial[k].invoked < |log|)
    && RespectsRealTime(serial)
    && Replay(q.capacity, serial) == Some(q.items)
  }

  /** Notes the return of the last call of `t`. */
  function Close(serial: seq<Call>, t: Thread, position: nat): (r: seq<Call>)
    ensures |r| == |serial|
    ensures forall k | 0 <= k < |serial| ::
      r[k] == serial[k] || (r[k] == serial[k].(returned := Some(position)) && serial[k].thread == t)
  {
    if serial == [] then []
    else
      var last := |serial| - 1;
      if serial[last].thread == t then serial[..last] + [serial[last].(returned := Some(position))]
      else Close(serial[..last], t, position) + [serial[last]]
  }

  lemma {:induction false} ProjectClose(serial: seq<Call>, t: Thread, position: nat, u: Thread)
    ensures Project(Close(serial, t, position), u) ==
            var p := Project(serial, u);
            if u == t && p != [] then p[..|p| - 1] + [p[|p| - 1].(returned := Some(position))] else p
  {
    if serial == [] {
    } else {
      var last := |serial| - 1;
      var closed := Close(serial, t, position);
      ProjectClose(serial[..last], t, position, u);
      if serial[last].thread == t {
        assert closed[..last] == serial[..last];
      } else {
        assert closed[..last] == Close(serial[..last], t, position);
      }
    }
  }

  lemma {:induction false} ReplayClose(capacity: nat, serial: seq<Call>, t: Thread, position: nat)
    ensures Replay(capacity, Close(serial, t, position)) == Replay(capacity, serial)
  {
    if serial == [] {
    } else {
      var last := |serial| - 1;
      var closed := Close(serial, t, position);
      if serial[last].thread == t {
        assert closed[..last] == serial[..last];
      } else {
        assert closed[..last] == Close(serial[..last], t, position);
        ReplayClose(capacity, serial[..last], t, position);
      }
    }
  }

  lemma {:induction false} OneMoreEvent(log: seq<Event>, e: Event, t: Thread)
    ensures OpenCall(log + [e], t) ==
            if e.thread != t then OpenCall(log, t) else if e.Invoke? then Some((e.op, |log|)) else None
    ensures Calls(log + [e], t) == Extend(Calls(log, t),
            if e.Return? && e.thread == t && OpenCall(log, t).Some?
            then Some(Call(t, OpenCall(log, t).value.0, e.response, OpenCall(log, t).value.1, Some(|log|))) else None)
  {
    assert (log + [e])[..|log|] == log;
  }

  lemma {:induction false} OneMoreCall(capacity: nat, serial: seq<Call>, c: Call, t: Thread)
    ensures Project(serial + [c], t) == Extend(Project(serial, t), if c.thread == t then Some(c) else None)
    ensures Replay(capacity, serial).Some? && Apply(capacity, Replay(capacity, serial).value, c.op).1 == c.response
            ==> Replay(capacity, serial + [c]) == Some(Apply(capacity, Replay(capacity, serial).value, c.op).0)
  {
    assert (serial + [c])[..|serial|] == serial;
  }

  lemma {:induction false} EnterKeepsSerial(q: Queue, q': Queue, t: Thread, event: Option<Event>,
                                            log: seq<Event>, serial: seq<Call>)
    requires Serial(q, log, serial) && AtomicStep(q, q', t, event) && Enters(q, q', t, event)
    ensures Serial(q', Extend(log, event), serial)
  {
    forall u
      ensures Agrees(Extend(log, event), u, q'.calls(u))
      ensures Project(serial, u) == Expected(Extend(log, event), u, q'.calls(u))
    {
      OneMoreEvent(log, event.value, u);
      assert Agrees(log, u, q.calls(u));
      assert Project(serial, u) == Expected(log, u, q.calls(u));
    }
  }

  lemma {:induction false} EffectKeepsSerial(q: Queue, q': Queue, t: Thread, event: Option<Event>,
                                             log: seq<Event>, serial: seq<Call>)
    returns (serial': seq<Call>)
    requires Serial(q, log, serial) && AtomicStep(q, q', t, event) && TakesEffect(q, q', t, event)
    ensures Serial(q', Extend(log, event), serial')
  {
    assert Agrees(log, t, q.calls(t));
    var c := Call(t, q.calls(t).op, q'.calls(t).response, OpenCall(log, t).value.1, None);
    serial' := serial + [c];
    forall u ensures Agrees(log, u, q'.calls(u)) && Project(serial', u) == Expected(log, u, q'.calls(u)) {
      OneMoreCall(q.capacity, serial, c, u);
      assert Agrees(log, u, q.calls(u));
      assert Project(serial, u) == Expected(log, u, q.calls(u));
    }
    OneMoreCall(q.capacity, serial, c, t);
  }

  lemma {:induction false} LeaveKeepsSerial(q: Queue, q': Queue, t: Thread, event: Option<Event>,
                                            log: seq<Event>, serial: seq<Call>)
    requires Serial(q, log, serial) && AtomicStep(q, q', t, event) && Leaves(q, q', t, event)
    ensures Serial(q', Extend(log, event), Close(serial, t, |log|))
  {
    forall u
      ensures Agrees(Extend(log, event), u, q'.calls(u))
      ensures Project(Close(serial, t, |log|), u) == Expected(Extend(log, event), u, q'.calls(u))
    {
      OneMoreEvent(log, event.value, u);
      ProjectClose(serial, t, |log|, u);
      assert Agrees(log, u, q.calls(u));
      assert Project(serial, u) == Expected(log, u, q.calls(u));
    }
    ReplayClose(q.capacity, serial, t, |log|);
  }

  /** One step of the atomic queue, whichever it is. */
  lemma {:induction false} StepKeepsSerial(q: Queue, q': Queue, t: Thread, event: Option<Event>,
                                           log: seq<Event>, serial: seq<Call>)
    returns (serial': seq<Call>)
    requires Serial(q, log, serial) && AtomicStep(q, q', t, event)
    ensures Serial(q', Extend(log, event), serial')
  {
    serial' := serial;
    if Enters(q, q', t, event) {
      EnterKeepsSerial(q, q', t, event, log, serial);
    } else if TakesEffect(q, q', t, event) {
      serial' := EffectKeepsSerial(q, q', t, event, log, serial);
    } else if Leaves(q, q', t, event) {
      LeaveKeepsSerial(q, q', t, event, log, serial);
      serial' := Close(serial, t, |log|);
    } else {
        assert forall u :: q'.calls(u) == q.calls(u);
    }
  }

  lemma {:induction false} SerialExplains(q: Queue, log: seq<Event>, serial: seq<Call>)
    requires Serial(q, log, serial)
    ensures Explains(serial, log, q.capacity, q.items)
    ensures forall t | q.calls(t).Idle? :: Project(serial, t) == Calls(log, t)
  {
    forall t ensures OrdersCallsOf(serial, log, t) && (q.calls(t).Idle? ==> Project(serial, t) == Calls(log, t)) {
      assert Agrees(log, t, q.calls(t));
      assert Project(serial, t) == Expected(log, t, q.calls(t));
      if !q.calls(t).Done? {
        assert Expected(log, t, q.calls(t)) == Calls(log, t);
      }
    }
  }
}
