/** The single-threaded contract test (test/10-singlethread/contract.c), for every size and round count. */
module Contract {
  import opened Pointers
  import opened PointerFifos

  /** Writes `items` one after the other and notes what each write returns. */
  method Fill(fifo: PointerFifo, items: seq<Pointer>) returns (statuses: seq<int>)
    requires fifo.Valid() && NULL !in items && |fifo.Contents()| + |items| <= fifo.size
    modifies fifo`n, fifo`write, fifo.storage
    ensures fifo.Valid() && fifo.Contents() == old(fifo.Contents()) + items
    ensures |statuses| == |items| && forall k | 0 <= k < |statuses| :: statuses[k] == 0
  {
    statuses := [];
    for i := 0 to |items|
      invariant fifo.Valid()
      invariant fifo.Contents() == old(fifo.Contents()) + items[..i]
      invariant |statuses| == i && forall k | 0 <= k < i :: statuses[k] == 0
    {
      var status := fifo.Write(items[i]);
      statuses := statuses + [status];
    }
    assert items[..|items|] == items;
  }

  /** Reads `count` times and notes what comes back: the queue in order, then NULL. */
  method Drain(fifo: PointerFifo, count: nat) returns (out: seq<Pointer>)
    requires fifo.Valid()
    modifies fifo`n, fifo`read
    ensures fifo.Valid()
    ensures |out| == count
    ensures forall k | 0 <= k < count :: out[k] == if k < |old(fifo.Contents())| then old(fifo.Contents())[k] else NULL
    ensures fifo.Contents() == if count < |old(fifo.Contents())| then old(fifo.Contents())[count..] else []
  {
    ghost var q := fifo.Contents();
    out := [];
    for i := 0 to count
      invariant fifo.Valid() && |out| == i
      invariant forall k | 0 <= k < i :: out[k] == if k < |q| then q[k] else NULL
      invariant fifo.Contents() == if i < |q| then q[i..] else []
    {
      var pointer := fifo.Read();
      out := out + [pointer];
    }
  }

  /** The pointers `from`, `from + 1`, ... up to but without `to`. */
  function Numbers(from: nat, to: nat): (r: seq<Pointer>)
    requires 0 < from <= to
    ensures |r| == to - from && NULL !in r
    ensures forall i | 0 <= i < |r| :: r[i] == from + i
  {
    seq(to - from, i requires 0 <= i => from + i)
  }

  /** Round trip: what was there, then what was written, comes out in that order, across any wraparound. */
  method FillAndDrain(fifo: PointerFifo, items: seq<Pointer>) returns (out: seq<Pointer>)
    requires fifo.Valid() && NULL !in items && |fifo.Contents()| + |items| <= fifo.size
    modifies fifo`n, fifo`write, fifo`read, fifo.storage
    ensures fifo.Valid() && fifo.Contents() == []
    ensures out == old(fifo.Contents()) + items
  {
    var _ := Fill(fifo, items);
    var count := fifo.GetCount();
    out := Drain(fifo, count);
  }

  /** Alternates one write and one read, `rounds` times, and notes what the calls return. */
  method Interleave(fifo: PointerFifo, rounds: nat) returns (statuses: seq<int>, echoed: seq<Pointer>)
    requires fifo.Valid() && fifo.Contents() == []
    modifies fifo`n, fifo`write, fifo`read, fifo.storage
    ensures fifo.Valid() && fifo.Contents() == []
    ensures |statuses| == rounds && forall k | 0 <= k < rounds :: statuses[k] == 0
    ensures echoed == Numbers(1, rounds + 1)
  {
    statuses, echoed := [], [];
    for i := 0 to rounds
      invariant fifo.Valid() && fifo.Contents() == []
      invariant |statuses| == |echoed| == i
      invariant forall k | 0 <= k < i :: statuses[k] == 0 && echoed[k] == 1 + k
    {
      var status := fifo.Write(1 + i);
      var pointer := fifo.Read();
      statuses := statuses + [status];
      echoed := echoed + [pointer];
    }
  }

  /** From empty: NULL is refused, `size` writes succeed, one more fails; each time with the count that results. */
  method CheckFilling(fifo: PointerFifo)
    returns (onNull: int, countOnNull: int, statuses: seq<int>, countFilled: int, onFull: int, countOnFull: int)
    requires fifo.Valid() && fifo.Contents() == []
    modifies fifo`n, fifo`write, fifo.storage
    ensures fifo.Valid() && fifo.Contents() == Numbers(1, fifo.size + 1)
    ensures onNull == -2 && countOnNull == 0
    ensures |statuses| == countFilled && forall k | 0 <= k < |statuses| :: statuses[k] == 0
    ensures onFull == -1 && countFilled == countOnFull == fifo.size
  {
    onNull := fifo.Write(NULL);
    countOnNull := fifo.GetCount();
    statuses := Fill(fifo, Numbers(1, fifo.size + 1));
    assert fifo.Contents() == Numbers(1, fifo.size + 1);
    countFilled := fifo.GetCount();
    onFull := fifo.Write(fifo.size + 1);
    countOnFull := fifo.GetCount();
  }

  /** From full: one read makes room for one write past the end of the storage, and all comes out in write order. */
  method CheckWraparound(fifo: PointerFifo)
    returns (first: Pointer, status: int, rest: seq<Pointer>, onEmpty: Pointer, countOnEmpty: int)
    requires fifo.Valid() && fifo.Contents() == Numbers(1, fifo.size + 1)
    modifies fifo`n, fifo`write, fifo`read, fifo.storage
    ensures fifo.Valid() && fifo.Contents() == []
    ensures first == 1 && status == 0 && rest == Numbers(2, fifo.size + 2) && onEmpty == NULL && countOnEmpty == 0
  {
    first := fifo.Read();
    status := fifo.Write(fifo.size + 1);
    assert fifo.Contents() == Numbers(2, fifo.size + 2);
    rest := Drain(fifo, fifo.size);
    onEmpty := fifo.Read();
    countOnEmpty := fifo.GetCount();
  }

  /**
   The whole test: what each call returns and what the count is after the NULL write, when
   full, after the failed write, after the drain and after the interleaving.  In the end
   the allocator is as it was.
   */
  method Check(allocator: Allocator, size: nat, rounds: nat)
    returns (onNull: int, filling: seq<int>, onFull: int, first: Pointer, status: int, rest: seq<Pointer>,
             onEmpty: Pointer, interleaved: seq<int>, echoed: seq<Pointer>, counts: seq<int>)
    requires 2 <= size <= UINT_MAX
    modifies allocator
    ensures onNull == -2 && onFull == -1
    ensures |filling| == size && forall k | 0 <= k < size :: filling[k] == 0
    ensures first == 1 && status == 0 && rest == Numbers(2, size + 2) && onEmpty == NULL
    ensures |interleaved| == rounds && forall k | 0 <= k < rounds :: interleaved[k] == 0
    ensures echoed == Numbers(1, rounds + 1)
    ensures counts == [0, size, size, 0, 0]
    ensures allocator.live == old(allocator.live)
  {
    var fifo := new PointerFifo.Init(size, allocator);
    var countOnNull, countFilled, countOnFull, countOnEmpty;
    onNull, countOnNull, filling, countFilled, onFull, countOnFull := CheckFilling(fifo);
    first, status, rest, onEmpty, countOnEmpty := CheckWraparound(fifo);
    interleaved, echoed := Interleave(fifo, rounds);
    var countAtEnd := fifo.GetCount();
    counts := [countOnNull, countFilled, countOnFull, countOnEmpty, countAtEnd];
    fifo.Done();
    fifo.Done();
  }
}
