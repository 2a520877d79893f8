/** The stress test on objects in memory: the FIFO, the items and the loop variables are updated in place. */
module StressTests {
  import opened Pointers
  import opened Machine
  import opened Invariant
  import opened MachineWords
  import opened PointerFifos
  import opened Interleavings
  import opened Stress
  import opened StressResults
  import opened StressTermination

  class StressTest {
    const run: Interleaving
    const items: array<Payload>
    var producing: ProducerClient
    var i: nat
    var consuming: ConsumerClient
    var received: nat
    var expected: nat
    var corrupt: nat

    ghost predicate Ready()
      reads this, run, run.fifo
    {
      run.Ready()
    }

    ghost function View(): System
      reads this, run, run.fifo, run.fifo.storage, items
      requires Ready()
    {
      System(run.View(), items[..], producing, i, consuming, received, expected, corrupt)
    }

    /** stress.c:145-151; the items start out as whatever they are. */
    constructor Begin(fifo: PointerFifo, items: array<Payload>)
      requires fifo.Allocated() && Initial(Quiet(fifo.View()))
      ensures Ready() && Start(View()) && fresh(run) && run.fifo == fifo && this.items == items
    {
      run := new Interleaving.Start(fifo);
      this.items := items;
      i, received, expected, corrupt := 0, 0, 0, 0;
      producing := NextItem(0, items.Length);
      consuming := NextRead(0, items.Length);
    }

    /** One step of the FIFO on machine words is the exact one. */
    method PerformExactly(a: Action)
      requires Ready() && Inv(run.View()) && run.fifo.size <= UINT_MAX
      modifies run, run.fifo`n, run.fifo`write, run.fifo`read, run.fifo.storage
      ensures Ready() && run.View() == Step(old(run.View()), a)
    {
      StepExact(PLATFORM.uintModulus, PLATFORM.wordModulus, run.View(), a);
      run.Perform(a);
    }

    method ProducerMoves()
      requires Ready() && Inv(run.View())
      modifies this`producing, this`i, items, run, run.fifo`n, run.fifo`write, run.fifo`read, run.fifo.storage
      ensures Ready() && View() == MoveProducing(old(View()))
    {
      match producing
      case Filling(field) =>
        if i < items.Length {
          items[i] := SetField(items[i], field, i);
          producing := if field + 1 < FIELDS then Filling(field + 1) else Writing;
        }
      case Writing =>
        if run.producer.PIdle? {
          PerformExactly(ProducerCall(Address(i)));
        } else {
          var stored := run.producer.PReturn? && run.producer.status != FULL;
          PerformExactly(ProducerStep);
          if stored {
            i := i + 1;
            producing := NextItem(i, items.Length);
          }
        }
      case ProducerDone =>
    }

    method ConsumerMoves()
      requires Ready() && Inv(run.View())
      modifies this`consuming, this`received, this`expected, this`corrupt
      modifies run, run.fifo`n, run.fifo`write, run.fifo`read, run.fifo.storage
      ensures Ready() && View() == MoveConsuming(old(View()))
    {
      match consuming
      case Reading =>
        if run.consumer.CIdle? {
          PerformExactly(ConsumerCall);
        } else {
          var result := if run.consumer.CReturn? then run.consumer.pointer else NULL;
          PerformExactly(ConsumerStep);
          if result != NULL {
            consuming := Checking(result, 0);
          }
        }
      case Checking(p, field) =>
        var item := if 0 < p <= items.Length then items[p - 1] else Payload(0, 0, 0, 0);
        if !FieldPasses(item, field, expected) {
          corrupt := corrupt + 1;
        }
        if field + 1 < FIELDS {
          consuming := Checking(p, field + 1);
        } else {
          expected := expected + 1;
          received := received + 1;
          consuming := NextRead(received, items.Length);
        }
      case ConsumerDone =>
    }

    method TakeTurn(turn: Turn)
      requires Ready() && Inv(run.View())
      modifies this, items, run, run.fifo`n, run.fifo`write, run.fifo`read, run.fifo.storage
      ensures Ready() && View() == Move(old(View()), turn)
    {
      match turn
      case ProducerTurn => ProducerMoves();
      case ConsumerTurn => ConsumerMoves();
    }

    /** Turn `t` of the run that started in `start`. */
    method Continue(ghost start: System, turns: Turns, t: nat)
      requires Start(start) && Ready() && View() == SystemAt(start, turns, t)
      modifies this, items, run, run.fifo`n, run.fifo`write, run.fifo`read, run.fifo.storage
      ensures Ready() && View() == SystemAt(start, turns, t + 1)
    {
      CoreInv(start, turns, t);
      SystemNext(start, turns, t);
      TakeTurn(turns(t));
    }

    /** Takes turns until both loops have ended, which they do unless a thread is starved. */
    method RunToEnd(turns: Turns) returns (t: nat)
      requires Ready() && Start(View()) && NobodyStarves(turns)
      modifies this, items, run, run.fifo`n, run.fifo`write, run.fifo`read, run.fifo.storage
      ensures Ready() && View() == SystemAt(old(View()), turns, t) && Finished(View())
      ensures Stream(old(View()), turns, t) == Addresses(items.Length)
      ensures forall k | 0 <= k < items.Length :: items[k] == Payload(k, -k - 1, 3 * k, 7 * k)
      ensures received == items.Length && corrupt == 0
    {
      ghost var start := View();
      ghost var end: int := FairRunsEnd(start, turns);
      t := 0;
      while !(producing.ProducerDone? && consuming.ConsumerDone?)
        invariant Ready() && View() == SystemAt(start, turns, t)
        decreases end - t
      {
        assert t >= end ==> Finished(SystemAt(start, turns, t));
        Continue(start, turns, t);
        t := t + 1;
      }
      FinishedMeansAll(start, turns, t);
      InvAt(start, turns, t);
    }
  }

  /** The whole test: set up, run, tear down. */
  method RunTest(allocator: Allocator, count: nat, size: nat, turns: Turns)
    returns (items: array<Payload>, received: nat, corrupt: nat)
    requires 2 <= size <= UINT_MAX && NobodyStarves(turns)
    modifies allocator
    ensures items.Length == count && forall k | 0 <= k < count :: items[k] == Payload(k, -k - 1, 3 * k, 7 * k)
    ensures received == count && corrupt == 0
    ensures allocator.live == old(allocator.live)
  {
    var fifo := new PointerFifo.Init(size, allocator);
    items := new Payload[count];
    var test := new StressTest.Begin(fifo, items);
    var _ := test.RunToEnd(turns);
    received, corrupt := test.received, test.corrupt;
    fifo.Done();
  }
}
