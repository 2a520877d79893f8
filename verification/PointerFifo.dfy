/**
 The FIFO as the object it is: fields and slots updated in place (src/mulle-pointerfifo.h
 and src/mulle--pointerfifo64.h), on 32-bit `unsigned int` and 64-bit `uintptr_t`.
 */
module PointerFifos {
  import opened Pointers
  import opened Machine
  import Invariant
  import opened AtomicQueue
  import opened MachineWords

  const UINT_MAX: nat := 0xFFFF_FFFF
  const PLATFORM: Arithmetic := Words(0x1_0000_0000, 0x1_0000_0000_0000_0000)

  /** 32-bit `unsigned int` and 64-bit `uintptr_t`. */
  lemma {:induction false} PlatformWraps()
    ensures PLATFORM.UInt(0x1_0000_0000) == 0 && PLATFORM.UInt(UINT_MAX) == UINT_MAX == 0xFFFF_FFFF
    ensures PLATFORM.Word(0x1_0000_0000_0000_0000) == 0 && PLATFORM.Word(-1) == 0xFFFF_FFFF_FFFF_FFFF
  {
    WordsWrap(0x1_0000_0000, 0x1_0000_0000_0000_0000, UINT_MAX);
  }

  /** The memory while neither thread is inside a call. */
  function Quiet(m: Memory): State {
    State(m, PIdle, CIdle, map[])
  }

  /** What the memory stands for between calls: the queue of the step machine. */
  function QueueOf(m: Memory): seq<Pointer> {
    Invariant.Contents(Quiet(m))
  }

  ghost predicate Sound(m: Memory) {
    m.size <= UINT_MAX && Invariant.Inv(Quiet(m))
  }

  /** A thread that has changed no index it has not also counted leaves the queue as it is at rest. */
  lemma {:induction false} AtRest(s: State)
    requires !s.producer.PIncrement? && !s.consumer.CDecrement?
    ensures Invariant.Contents(s) == QueueOf(s.mem)
    ensures Invariant.Inv(s) ==> Invariant.Inv(Quiet(s.mem))
  {
    Invariant.SameContents(s, Quiet(s.mem));
  }

  lemma {:induction false} ProducerMoves(s: State)
    requires Invariant.Inv(s) && s.mem.size <= UINT_MAX
    ensures var s' := MoveProducer(PLATFORM, s);
            Invariant.Inv(s') && Invariant.Contents(s') == Extend(Invariant.Contents(s), Publishes(s, ProducerStep))
  {
    StepExact(PLATFORM.uintModulus, PLATFORM.wordModulus, s, ProducerStep);
    Invariant.ProducerKeepsInv(s);
  }

  lemma {:induction false} ConsumerMoves(s: State)
    requires Invariant.Inv(s) && s.mem.size <= UINT_MAX
    ensures var s' := MoveConsumer(PLATFORM, s);
            Invariant.Inv(s') && Invariant.Contents(s) == Prepend(Retires(s, ConsumerStep), Invariant.Contents(s'))
  {
    StepExact(PLATFORM.uintModulus, PLATFORM.wordModulus, s, ConsumerStep);
    Invariant.ConsumerKeepsInv(s);
  }

  /** The three accesses of a successful write append the pointer. */
  lemma {:induction false} WholeWrite(m: Memory, p: Pointer)
    requires Sound(m) && p != NULL && m.n < m.size
    ensures var m' := Increment(PLATFORM, AdvanceWrite(PLATFORM, StoreSlot(m, p)));
            Sound(m') && QueueOf(m') == QueueOf(m) + [p]
  {
    var s0 := Quiet(m).(producer := PStore(p));
    AtRest(s0);
    ProducerMoves(s0);
    var s1 := MoveProducer(PLATFORM, s0);
    ProducerMoves(s1);
    var s2 := MoveProducer(PLATFORM, s1);
    ProducerMoves(s2);
    AtRest(MoveProducer(PLATFORM, s2));
  }

  /** The three accesses of a successful read take the oldest pointer. */
  lemma {:induction false} WholeRead(m: Memory)
    requires Sound(m) && m.n > 0
    ensures var m' := Decrement(PLATFORM, AdvanceRead(PLATFORM, m));
            Sound(m') && QueueOf(m) == [LoadSlot(m)] + QueueOf(m')
  {
    var s0 := Quiet(m).(consumer := CFetch);
    AtRest(s0);
    ConsumerMoves(s0);
    var s1 := MoveConsumer(PLATFORM, s0);
    ConsumerMoves(s1);
    var s2 := MoveConsumer(PLATFORM, s1);
    ConsumerMoves(s2);
    AtRest(MoveConsumer(PLATFORM, s2));
  }

  lemma {:induction false} CountIsLength(m: Memory)
    requires Sound(m)
    ensures Machine.GetCount(PLATFORM, m) == m.n == |QueueOf(m)|
    ensures NULL !in QueueOf(m)
  {
    ModSmall(m.n, PLATFORM.uintModulus);
  }

  // ----- The dynamic form

  /** `struct mulle_allocator`, as far as it matters here: which blocks are in use. */
  class Allocator {
    ghost var live: set<array<Pointer>>

    constructor ()
      ensures live == {}
    {
      live := {};
    }

    /** A block with anything in it. */
    method Malloc(length: nat) returns (block: array<Pointer>)
      modifies this
      ensures fresh(block) && block.Length == length
      ensures live == old(live) + {block}
    {
      block := new Pointer[length];
      live := live + {block};
    }

    method Free(block: array<Pointer>)
      requires block in live
      modifies this
      ensures live == old(live) - {block}
    {
      live := live - {block};
    }
  }

  class PointerFifo {
    const allocator: Allocator
    var n: int
    var write: nat
    var read: nat
    var size: nat
    var storage: array?<Pointer>

    ghost predicate Allocated()
      reads this
    {
      && storage != null && storage.Length == size
      && 2 <= size <= UINT_MAX && write < size && read < size
    }

    /** The fields and the slots as a value. */
    ghost function View(): Memory
      reads this, storage
      requires Allocated()
    {
      Memory(size, n, storage[..], write, read)
    }

    /** Between calls of either thread. */
    ghost predicate Valid()
      reads this, storage
    {
      Allocated() && Sound(View())
    }

    ghost function Contents(): seq<Pointer>
      reads this, storage
      requires Allocated()
    {
      QueueOf(View())
    }

    /** The storage is a block of the allocator that has not been freed. */
    ghost predicate Owns()
      reads this, allocator
    {
      storage != null && storage in allocator.live
    }

    /** The assertions of `init`; with 64-bit `size_t` the one about the allocation always holds. */
    constructor Init(size: nat, allocator: Allocator)
      requires 2 <= size <= UINT_MAX
      modifies allocator
      ensures Valid() && fresh(storage) && this.size == size && this.allocator == allocator
      ensures View() == Machine.Init(size, storage[..]) && Contents() == []
      ensures Owns() && allocator.live == old(allocator.live) + {storage}
    {
      write := 0;
      read := 0;
      this.size := size;
      n := 0;
      this.allocator := allocator;
      var block := allocator.Malloc(size);
      storage := block;
      new;
      Invariant.InitialInv(Quiet(View()));
    }

    /** Hands the storage back, once: a second call finds the pointer null and frees nothing. */
    method Done()
      requires storage != null ==> Owns()
      modifies this`storage, allocator
      ensures storage == null
      ensures allocator.live ==
              if old(storage) == null then old(allocator.live) else old(allocator.live) - {old(storage)}
    {
      if storage != null {
        allocator.Free(storage);
        storage := null;
      }
    }

    // The accesses, one at a time

    method GetCount() returns (count: int)
      requires Allocated()
      ensures count == Machine.GetCount(PLATFORM, View())
      ensures Valid() ==> count == |Contents()|
    {
      count := PLATFORM.UInt(n);
      if Valid() {
        CountIsLength(View());
      }
    }

    method StoreSlot(p: Pointer)
      requires Allocated()
      modifies storage
      ensures View() == Machine.StoreSlot(old(View()), p)
    {
      storage[write] := p;
    }

    method LoadSlot() returns (p: Pointer)
      requires Allocated()
      ensures p == Machine.LoadSlot(View())
    {
      p := storage[read];
    }

    method AdvanceWrite()
      requires Allocated()
      modifies this`write
      ensures Allocated() && View() == Machine.AdvanceWrite(PLATFORM, old(View()))
    {
      write := PLATFORM.UInt(write + 1) % size;
    }

    method AdvanceRead()
      requires Allocated()
      modifies this`read
      ensures Allocated() && View() == Machine.AdvanceRead(PLATFORM, old(View()))
    {
      read := PLATFORM.UInt(read + 1) % size;
    }

    method Increment()
      requires Allocated()
      modifies this`n
      ensures View() == Machine.Increment(PLATFORM, old(View()))
    {
      n := PLATFORM.Word(n + 1);
    }

    method Decrement()
      requires Allocated()
      modifies this`n
      ensures View() == Machine.Decrement(PLATFORM, old(View()))
    {
      n := PLATFORM.Word(n - 1);
    }

    // Whole calls: the object is the sequential bounded queue

    method Write(pointer: Pointer) returns (status: int)
      requires Valid()
      modifies this`n, this`write, storage
      ensures Valid()
      ensures (Contents(), Status(status)) == Apply(size, old(Contents()), AtomicQueue.Write(pointer))
    {
      CountIsLength(View());
      if pointer == NULL {
        return REJECTED;
      }
      var count := GetCount();
      if count == size {
        return FULL;
      }
      WholeWrite(View(), pointer);
      StoreSlot(pointer);
      AdvanceWrite();
      Increment();
      status := STORED;
    }

    method Read() returns (pointer: Pointer)
      requires Valid()
      modifies this`n, this`read
      ensures Valid()
      ensures (Contents(), Value(pointer)) == Apply(size, old(Contents()), AtomicQueue.Read)
    {
      CountIsLength(View());
      var count := GetCount();
      if count == 0 {
        return NULL;
      }
      WholeRead(View());
      pointer := LoadSlot();
      AdvanceRead();
      Decrement();
    }
  }

  // ----- The fixed form

  class PointerFifo64 {
    var n: int
    var write: nat
    var read: nat
    const storage: array<Pointer>

    ghost predicate Shaped()
      reads this
    {
      storage.Length == 64 && write < 64 && read < 64
    }

    ghost function View(): Memory
      reads this, storage
      requires Shaped()
    {
      Memory(64, n, storage[..], write, read)
    }

    ghost predicate Valid()
      reads this, storage
    {
      Shaped() && Sound(View())
    }

    ghost function Contents(): seq<Pointer>
      reads this, storage
      requires Shaped()
    {
      QueueOf(View())
    }

    constructor Init()
      ensures Valid() && fresh(storage)
      ensures View() == Machine.Init(64, storage[..]) && Contents() == []
    {
      storage := new Pointer[64];
      write := 0;
      read := 0;
      n := 0;
      new;
      Invariant.InitialInv(Quiet(View()));
    }

    method GetCount() returns (count: int)
      requires Valid()
      ensures count == |Contents()|
    {
      CountIsLength(View());
      count := PLATFORM.UInt(n);
    }

    /** The same contract as the dynamic form with 64 for its size. */
    method Write(pointer: Pointer) returns (status: int)
      requires Valid()
      modifies this`n, this`write, storage
      ensures Valid()
      ensures (Contents(), Status(status)) == Apply(64, old(Contents()), AtomicQueue.Write(pointer))
    {
      CountIsLength(View());
      if pointer == NULL {
        return REJECTED;
      }
      var count := GetCount();
      if count == 64 {
        return FULL;
      }
      ghost var before := View();
      WholeWrite(before, pointer);
      storage[write] := pointer;
      write := PLATFORM.UInt(write + 1) % 64;
      n := PLATFORM.Word(n + 1);
      assert View() == Increment(PLATFORM, AdvanceWrite(PLATFORM, StoreSlot(before, pointer)));
      status := STORED;
    }

    method Read() returns (pointer: Pointer)
      requires Valid()
      modifies this`n, this`read
      ensures Valid()
      ensures (Contents(), Value(pointer)) == Apply(64, old(Contents()), AtomicQueue.Read)
    {
      CountIsLength(View());
      var count := GetCount();
      if count == 0 {
        return NULL;
      }
      WholeRead(View());
      pointer := storage[read];
      read := PLATFORM.UInt(read + 1) % 64;
      n := PLATFORM.Word(n - 1);
    }
  }
}
