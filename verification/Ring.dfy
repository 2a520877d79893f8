/** Slot arithmetic: tickets, and the indices they wrap to. */
module Ring {

  /** `x % size` for an `x` that is at most one lap too large. */
  function Wrap(x: int, size: int): (r: int) {
    if x >= size then x - size else x
  }

  /** The index before `i`. */
  function Back(i: nat, size: nat): (r: nat)
    requires i < size
  {
    if i == 0 then size - 1 else i - 1
  }

  /** The slot of a ticket: `ticket % size`, written so that laps can be peeled off one by one. */
  function Slot(ticket: nat, size: nat): (r: nat)
    requires size > 0
    ensures r < size
  {
    if ticket < size then ticket else Slot(ticket - size, size)
  }

  lemma {:induction false} OneLapLess(x: nat, size: nat)
    requires size > 0 && x >= size
    ensures x % size == (x - size) % size
  {
    var q, r := (x - size) / size, (x - size) % size;
    assert x == size * (q + 1) + r;
    var d := x / size - (q + 1);
    assert d * size == r - x % size;
  }

  lemma {:induction false} SlotIsMod(ticket: nat, size: nat)
    requires size > 0
    ensures Slot(ticket, size) == ticket % size
  {
    if ticket < size {
    } else {
      SlotIsMod(ticket - size, size);
      OneLapLess(ticket, size);
    }
  }

  lemma {:induction false} SlotIsWrap(x: nat, size: nat)
    requires x < 2 * size
    ensures Slot(x, size) == Wrap(x, size)
  {
  }

  lemma {:induction false} WrapIsMod(x: nat, size: nat)
    requires x < 2 * size
    ensures x % size == Wrap(x, size)
  {
    SlotIsMod(x, size);
  }

  /** Reducing before adding changes nothing. */
  lemma {:induction false} SlotAdd(ticket: nat, d: nat, size: nat)
    requires size > 0
    ensures Slot(Slot(ticket, size) + d, size) == Slot(ticket + d, size)
  {
    if ticket < size {
    } else {
      SlotAdd(ticket - size, d, size);
      assert Slot(ticket + d, size) == Slot(ticket - size + d, size);
    }
  }

  /** Two tickets in the same slot are a whole lap apart. */
  lemma {:induction false} SameSlot(a: nat, b: nat, size: nat)
    requires size > 0 && a < b && Slot(a, size) == Slot(b, size)
    ensures b - a >= size
  {
    if a >= size {
      SameSlot(a - size, b - size, size);
    } else if b < size {
      assert false;
    }
  }
}
