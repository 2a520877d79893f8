/**
 The specification: a bounded queue whose operations happen all at once, what its
 callers see, and what it means to put overlapping calls into one order.
 */
module AtomicQueue {
  import opened Pointers

  datatype Thread = Producer | Consumer | Observer(id: nat)

  datatype Op = Write(pointer: Pointer) | Read | GetCount

  datatype Response = Status(status: int) | Value(pointer: Pointer) | Count(count: int)

  /** The contract of README.md:20-29: -2 for NULL, -1 when full, NULL when empty, else in order. */
  function Apply(capacity: nat, items: seq<Pointer>, op: Op): (seq<Pointer>, Response) {
    match op
    case Write(p) =>
      if p == NULL then (items, Status(-2))
      else if |items| == capacity then (items, Status(-1))
      else (items + [p], Status(0))
    case Read =>
      if items == [] then (items, Value(NULL)) else (items[1..], Value(items[0]))
    case GetCount =>
      (items, Count(|items|))
  }

  // ----- The atomic machine

  datatype CallState = Idle | Pending(op: Op) | Done(op: Op, response: Response)

  datatype Queue = Queue(capacity: nat, items: seq<Pointer>, calls: Thread -> CallState)

  /** What a caller can see. */
  datatype Event = Invoke(thread: Thread, op: Op) | Return(thread: Thread, response: Response)

  ghost predicate Enters(q: Queue, q': Queue, t: Thread, event: Option<Event>) {
    && q.calls(t).Idle? && q'.calls(t).Pending? && q'.items == q.items
    && event == Some(Invoke(t, q'.calls(t).op))
  }

  ghost predicate TakesEffect(q: Queue, q': Queue, t: Thread, event: Option<Event>) {
    && q.calls(t).Pending?
    && var (items, response) := Apply(q.capacity, q.items, q.calls(t).op);
    && q'.items == items && q'.calls(t) == Done(q.calls(t).op, response)
    && event == None
  }

  ghost predicate Leaves(q: Queue, q': Queue, t: Thread, event: Option<Event>) {
    && q.calls(t).Done? && q'.calls(t).Idle? && q'.items == q.items
    && event == Some(Return(t, q.calls(t).response))
  }

  ghost predicate Stutters(q: Queue, q': Queue, t: Thread, event: Option<Event>) {
    q'.items == q.items && q'.calls(t) == q.calls(t) && event == None
  }

  /** Thread `t` moves: it enters a call, has its whole effect at once, leaves, or does nothing. */
  ghost predicate AtomicStep(q: Queue, q': Queue, t: Thread, event: Option<Event>) {
    && q'.capacity == q.capacity
    && (forall u | u != t :: q'.calls(u) == q.calls(u))
    && (Enters(q, q', t, event) || TakesEffect(q, q', t, event) || Leaves(q, q', t, event) || Stutters(q, q', t, event))
  }

  // ----- Histories

  /** A call with the positions in the history of its invocation and, once it is there, its return. */
  datatype Call = Call(thread: Thread, op: Op, response: Response, invoked: nat, returned: Option<nat>)

  /** The call of `t` that is open at the end of `log`: what was called, and where. */
  function OpenCall(log: seq<Event>, t: Thread): Option<(Op, nat)> {
    if log == [] then None
    else
      var last := |log| - 1;
      if log[last].thread != t then OpenCall(log[..last], t)
      else if log[last].Invoke? then Some((log[last].op, last))
      else None
  }

  /** The calls of `t` that returned in `log`. */
  function Calls(log: seq<Event>, t: Thread): seq<Call> {
    if log == [] then []
    else
      var last := |log| - 1;
      var before := Calls(log[..last], t);
      match log[last]
      case Invoke(_, _) => before
      case Return(u, r) =>
        var open := OpenCall(log[..last], t);
        if u == t && open.Some? then before + [Call(t, open.value.0, r, open.value.1, Some(last))] else before
  }

  /** The calls of `t` in a serial order. */
  function Project(serial: seq<Call>, t: Thread): seq<Call> {
    if serial == [] then []
    else
      var last := |serial| - 1;
      Extend(Project(serial[..last], t), if serial[last].thread == t then Some(serial[last]) else None)
  }

  /** Runs a serial order on the sequential queue, from empty; `None` if some response differs. */
  function Replay(capacity: nat, serial: seq<Call>): Option<seq<Pointer>> {
    if serial == [] then Some([])
    else
      var last := |serial| - 1;
      var before := Replay(capacity, serial[..last]);
      if before.None? then None
      else
        var (items, response) := Apply(capacity, before.value, serial[last].op);
        if response == serial[last].response then Some(items) else None
  }

  /** No call stands behind one that was invoked only after it had returned. */
  ghost predicate RespectsRealTime(serial: seq<Call>) {
    forall j, k | 0 <= j < k < |serial| && serial[k].returned.Some? :: serial[j].invoked < serial[k].returned.value
  }

  /** Every call that has returned, as the history has it, and possibly the open one. */
  ghost predicate OrdersCallsOf(serial: seq<Call>, log: seq<Event>, t: Thread) {
    || Project(serial, t) == Calls(log, t)
    || (&& OpenCall(log, t).Some?
        && exists r :: Project(serial, t) ==
                       Calls(log, t) + [Call(t, OpenCall(log, t).value.0, r, OpenCall(log, t).value.1, None)])
  }

  /**
   `serial` explains `log`: it has every call that returned, with its response, and maybe
   calls that took effect but are still open; it respects real time; and run one call after
   the other on the sequential queue it gives the same responses and ends with `items`.
   */
  ghost predicate Explains(serial: seq<Call>, log: seq<Event>, capacity: nat, items: seq<Pointer>) {
    && (forall t :: OrdersCallsOf(serial, log, t))
    && RespectsRealTime(serial)
    && Replay(capacity, serial) == Some(items)
  }

  // ----- What these words mean

  lemma {:induction false} OpenCallIsReal(log: seq<Event>, t: Thread)
    ensures match OpenCall(log, t)
            case Some((op, i)) => i < |log| && log[i] == Invoke(t, op) && forall k | i < k < |log| :: log[k].thread != t
            case None => true
  {
    if log == [] {
    } else {
      OpenCallIsReal(log[..|log| - 1], t);
    }
  }

  /** A call of the history is an invocation and the next event of its thread, the return. */
  lemma {:induction false} CallsAreReal(log: seq<Event>, t: Thread, c: Call)
    requires c in Calls(log, t)
    ensures c.thread == t && c.returned.Some? && c.invoked < c.returned.value < |log|
    ensures log[c.invoked] == Invoke(t, c.op) && log[c.returned.value] == Return(t, c.response)
    ensures forall k | c.invoked < k < c.returned.value :: log[k].thread != t
  {
    var before := log[..|log| - 1];
    if c in Calls(before, t) {
      CallsAreReal(before, t, c);
    } else {
      OpenCallIsReal(before, t);
    }
  }

  /** No return is missing. */
  lemma {:induction false} EveryReturnIsACall(log: seq<Event>, t: Thread, k: nat)
    requires k < |log| && log[k].thread == t && log[k].Return? && OpenCall(log[..k], t).Some?
    ensures exists c :: c in Calls(log, t) && c.returned == Some(k)
  {
    var before := log[..|log| - 1];
    if k == |log| - 1 {
      assert Calls(log, t)[|Calls(before, t)|].returned == Some(k);
    } else {
      assert before[..k] == log[..k];
      EveryReturnIsACall(before, t, k);
      var c :| c in Calls(before, t) && c.returned == Some(k);
      assert c in Calls(log, t);
    }
  }

  /** Each call of a replayed order got what the sequential queue gives at that point. */
  lemma {:induction false} ReplayMeans(capacity: nat, serial: seq<Call>, k: nat)
    requires Replay(capacity, serial).Some? && k < |serial|
    ensures Replay(capacity, serial[..0]) == Some([])
    ensures Replay(capacity, serial[..k]).Some?
    ensures var (items, response) := Apply(capacity, Replay(capacity, serial[..k]).value, serial[k].op);
            response == serial[k].response && Replay(capacity, serial[..k + 1]) == Some(items)
  {
    var last := |serial| - 1;
    if k == last {
      assert serial[..k + 1] == serial;
    } else {
      ReplayMeans(capacity, serial[..last], k);
      assert serial[..last][..k] == serial[..k] && serial[..last][..k + 1] == serial[..k + 1];
    }
  }

  /** An explanation has all returned calls of each thread in order, at most one more, and ends with `items`. */
  lemma {:induction false} ExplanationIsComplete(serial: seq<Call>, log: seq<Event>, capacity: nat, items: seq<Pointer>,
                                                 t: Thread)
    requires Explains(serial, log, capacity, items)
    ensures Calls(log, t) <= Project(serial, t) && |Project(serial, t)| <= |Calls(log, t)| + 1
    ensures Replay(capacity, serial) == Some(items)
  {
    assert OrdersCallsOf(serial, log, t);
  }

  /** In an explanation a call that returned before another was invoked stands before it. */
  lemma {:induction false} ExplanationKeepsOrder(serial: seq<Call>, log: seq<Event>, capacity: nat, items: seq<Pointer>,
                                                 j: nat, k: nat)
    requires Explains(serial, log, capacity, items)
    requires j < |serial| && k < |serial| && j != k
    requires serial[j].returned.Some? && serial[j].returned.value <= serial[k].invoked
    ensures j < k
  {
  }
}
