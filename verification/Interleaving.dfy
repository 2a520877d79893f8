/** The object under two threads and observers that take turns access by access, updating it in place. */
module Interleavings {
  import opened Pointers
  import opened Machine
  import opened PointerFifos
  import opened Invariant
  import opened MachineWords

  class Interleaving {
    const fifo: PointerFifo
    var producer: ProducerPc
    var consumer: ConsumerPc
    var observers: map<nat, ObserverPc>

    ghost predicate Ready()
      reads this, fifo
    {
      fifo.Allocated()
    }

    ghost function View(): State
      reads this, fifo, fifo.storage
      requires Ready()
    {
      State(fifo.View(), producer, consumer, observers)
    }

    /** Two threads start on a FIFO that `init` has just set up. */
    constructor Start(fifo: PointerFifo)
      requires fifo.Allocated() && Initial(Quiet(fifo.View()))
      ensures this.fifo == fifo && Ready() && Initial(View())
    {
      this.fifo := fifo;
      producer, consumer, observers := PIdle, CIdle, map[];
    }

    method PerformProducerStep()
      requires Ready()
      modifies this`producer, fifo`n, fifo`write, fifo.storage
      ensures Ready() && View() == MoveProducer(PLATFORM, old(View()))
    {
      match producer
      case PIdle =>
      case PEnter(p) =>
        producer := if p == NULL then PReturn(p, REJECTED) else PLoad(p);
      case PLoad(p) =>
        var count := fifo.GetCount();
        producer := if count == fifo.size then PReturn(p, FULL) else PStore(p);
      case PStore(p) =>
        fifo.StoreSlot(p);
        producer := PAdvance(p);
      case PAdvance(p) =>
        fifo.AdvanceWrite();
        producer := PIncrement(p);
      case PIncrement(p) =>
        fifo.Increment();
        producer := PReturn(p, STORED);
      case PReturn(_, _) =>
        producer := PIdle;
    }

    method PerformConsumerStep()
      requires Ready()
      modifies this`consumer, fifo`n, fifo`read
      ensures Ready() && View() == MoveConsumer(PLATFORM, old(View()))
    {
      match consumer
      case CIdle =>
      case CLoad =>
        var count := fifo.GetCount();
        consumer := if count == 0 then CReturn(NULL) else CFetch;
      case CFetch =>
        var p := fifo.LoadSlot();
        consumer := CAdvance(p);
      case CAdvance(p) =>
        fifo.AdvanceRead();
        consumer := CDecrement(p);
      case CDecrement(p) =>
        fifo.Decrement();
        consumer := CReturn(p);
      case CReturn(_) =>
        consumer := CIdle;
    }

    method Perform(a: Action)
      requires Ready()
      modifies this, fifo`n, fifo`write, fifo`read, fifo.storage
      ensures Ready() && View() == StepIn(PLATFORM, old(View()), a)
    {
      match a
      case ProducerCall(p) =>
        if producer.PIdle? {
          producer := PEnter(p);
        }
      case ProducerStep => PerformProducerStep();
      case ConsumerCall =>
        if consumer.CIdle? {
          consumer := CLoad;
        }
      case ConsumerStep => PerformConsumerStep();
      case ObserverCall(id) =>
        if id !in observers {
          observers := observers[id := OLoad];
        }
      case ObserverStep(id) =>
        if id in observers && observers[id].OLoad? {
          var count := fifo.GetCount();
          observers := observers[id := OReturn(count)];
        } else {
          observers := observers - {id};
        }
      case ProducerWork =>
      case ConsumerWork =>
    }

    /** Any run of the object in memory is the run of the machine on exact integers. */
    method Execute(sched: Schedule, steps: nat)
      requires Ready() && Initial(View())
      modifies this, fifo`n, fifo`write, fifo`read, fifo.storage
      ensures Ready() && View() == At(old(View()), sched, steps)
      ensures Inv(View())
    {
      ghost var start := View();
      for i := 0 to steps
        invariant Ready() && View() == At(start, sched, i)
      {
        RunInv(start, sched, i);
        StepExact(PLATFORM.uintModulus, PLATFORM.wordModulus, At(start, sched, i), sched(i));
        Perform(sched(i));
        AtNext(start, sched, i);
      }
      RunInv(start, sched, steps);
    }
  }
}
