/**
 Why two retry loops around one FIFO come to an end.  A writer has a number of items to
 write and a reader reads them; each calls again whenever a call fails.  All that matters
 of such a program is the run of the FIFO inside it and how far each loop is from its next
 look at the counter.
 */
module RetryLoops {
  import opened Machine
  import opened Invariant
  import opened Tickets
  import opened HappensBefore
  import opened Progress

  datatype Side = Writer | Reader

  /**
   A loop at some moment: whether the next move is its own, whether it has ended, and how
   many moves of its own it is away from changing `n`, looking at `n` in vain, or ending.
   */
  datatype Standing = Standing(moves: bool, ended: bool, rank: nat)

  datatype Client = Client(first: State, sched: Schedule, items: nat, writer: nat -> Standing, reader: nat -> Standing)
  {
    function Of(side: Side, t: nat): Standing {
      if side.Writer? then writer(t) else reader(t)
    }

    function Written(t: nat): nat {
      Published(first, sched, t)
    }

    function Taken(t: nat): nat {
      Retired(first, sched, t)
    }

    /** The measure: how often the counter has yet to change. */
    function ChangesLeft(t: nat): int {
      2 * items - Written(t) - Taken(t)
    }

    ghost predicate ChangesAt(t: nat) {
      Changes(first, sched, t)
    }

    /** At `t` the loop has ended, or the counter changes, or the loop finds that it cannot go on. */
    ghost predicate Settled(side: Side, t: nat) {
      || Of(side, t).ended
      || ChangesAt(t)
      || (if side.Writer? then FindsFull(first, sched, t) else FindsEmpty(first, sched, t))
    }

    /** A move of its own that settles nothing brings a loop nearer, and no other takes it further away. */
    ghost predicate Advances(side: Side, t: nat) {
      var now, next := Of(side, t), Of(side, t + 1);
      && now.rank <= 11
      && (now.ended ==> next.ended)
      && (!Settled(side, t) ==> if now.moves then next.rank < now.rank else next.rank <= now.rank)
    }

    /** No loop ends early, and the reader does not read on after the last item. */
    ghost predicate Counts(t: nat) {
      && Written(t) <= items
      && (writer(t).ended ==> Written(t) == items)
      && (reader(t).ended ==> Taken(t) == items)
      && (FindsEmpty(first, sched, t) ==> Taken(t) < items)
    }

    ghost predicate Retries() {
      && Initial(first)
      && (forall t: nat :: Counts(t))
      && (forall t: nat, side: Side :: Advances(side, t))
    }

    ghost predicate EndedAt(t: nat) {
      writer(t).ended && reader(t).ended
    }
  }

  lemma {:induction false} StaysEnded(c: Client, side: Side, t: nat, u: nat)
    requires c.Retries() && t <= u && c.Of(side, t).ended
    ensures c.Of(side, u).ended
  {
    if t == u {
    } else {
      StaysEnded(c, side, t, u - 1);
      assert c.Advances(side, u - 1);
    }
  }

  lemma {:induction false} BothStayEnded(c: Client, x: nat, z: nat, u: nat)
    requires c.Retries() && c.writer(x).ended && c.reader(z).ended && x <= u && z <= u
    ensures c.EndedAt(u)
  {
    StaysEnded(c, Writer, x, u);
    StaysEnded(c, Reader, z, u);
  }

  lemma {:induction false} Counters(c: Client, t: nat)
    requires c.Retries()
    ensures c.Taken(t) <= c.Written(t) <= c.items && c.Counts(t)
    ensures FindsFull(c.first, c.sched, t) ==> c.Taken(t) < c.Written(t)
    ensures FindsEmpty(c.first, c.sched, t) ==> c.Taken(t) == c.Written(t)
  {
    CountAt(c.first, c.sched, t);
    RunInv(c.first, c.sched, t);
    assert c.Counts(t);
  }

  /** If one loop has ended, or both are stuck, the other one can be stuck only next to a change of the counter. */
  lemma {:induction false} BothSettled(c: Client, x: nat, z: nat) returns (w: nat)
    requires c.Retries() && c.Settled(Writer, x) && c.Settled(Reader, z)
    ensures ((x <= w <= z || z <= w <= x) && c.ChangesAt(w)) || (c.writer(x).ended && c.reader(z).ended)
  {
    w := x;
    Counters(c, x);
    Counters(c, z);
    if c.ChangesAt(x) {
    } else if c.ChangesAt(z) {
      w := z;
    } else if c.writer(x).ended {
      if !c.reader(z).ended {
        if x <= z {
          Monotone(c.first, c.sched, x, z);
        }
        w := FindIncrement(c.first, c.sched, z, x, c.Written(z));
      }
    } else if c.reader(z).ended {
      if z <= x {
        Monotone(c.first, c.sched, z, x);
      }
      w := FindDecrement(c.first, c.sched, x, z, c.Taken(x));
    } else {
      w := FullToEmpty(c.first, c.sched, x, z);
    }
  }

  lemma {:induction false} ChangeCounts(c: Client, t: nat, w: nat, u: nat)
    requires t <= w < u && c.ChangesAt(w)
    ensures c.ChangesLeft(u) < c.ChangesLeft(t)
  {
    Monotone(c.first, c.sched, t, w);
    Monotone(c.first, c.sched, w + 1, u);
  }

  /** Once both sides have settled the counter has changed, or nothing is left to do. */
  lemma {:induction false} SettledMeansChange(c: Client, t: nat, x: nat, z: nat, u: nat)
    requires c.Retries() && c.Settled(Writer, x) && c.Settled(Reader, z) && t <= x < u && t <= z < u
    ensures c.EndedAt(u) || c.ChangesLeft(u) < c.ChangesLeft(t)
  {
    var w := BothSettled(c, x, z);
    if (x <= w <= z || z <= w <= x) && c.ChangesAt(w) {
      ChangeCounts(c, t, w, u);
    } else {
      BothStayEnded(c, x, z, u);
    }
  }

  // ----- Each side moves at least once in any `bound` moves

  ghost predicate MovesWithin(c: Client, side: Side, t: nat, bound: nat) {
    exists u: nat :: t <= u < t + bound && c.Of(side, u).moves
  }

  ghost predicate Fair(c: Client, bound: nat) {
    forall t: nat, side: Side :: MovesWithin(c, side, t, bound)
  }

  lemma {:induction false} Times(a: nat, b: nat, c: nat)
    requires a <= b
    ensures a * c <= b * c && (b + 1) * c == b * c + c
  {
  }

  /** `rank * bound`, one `bound` at a time. */
  function Budget(rank: nat, bound: nat): nat {
    if rank == 0 then 0 else Budget(rank - 1, bound) + bound
  }

  lemma {:induction false} BudgetGrows(rank: nat, larger: nat, bound: nat)
    requires rank <= larger
    ensures Budget(rank, bound) <= Budget(larger, bound) == larger * bound
  {
    if larger == 0 {
    } else {
      BudgetGrows(if rank == larger then rank - 1 else rank, larger - 1, bound);
      Times(larger - 1, larger - 1, bound);
    }
  }

  /** A loop settles after at most `rank` moves of its own; `u` is its next one. */
  lemma {:induction false} Settles(c: Client, bound: nat, side: Side, t: nat, u: nat) returns (x: nat)
    requires c.Retries() && Fair(c, bound) && t <= u && c.Of(side, u).moves
    ensures t <= x <= u + Budget(c.Of(side, t).rank, bound) && c.Settled(side, x)
    decreases c.Of(side, t).rank, u - t
  {
    if c.Settled(side, t) {
      x := t;
    } else {
      assert c.Advances(side, t);
      var r, r' := c.Of(side, t).rank, c.Of(side, t + 1).rank;
      if c.Of(side, t).moves {
        assert MovesWithin(c, side, t + 1, bound);
        var u': nat :| t + 1 <= u' < t + 1 + bound && c.Of(side, u').moves;
        x := Settles(c, bound, side, t + 1, u');
        BudgetGrows(r', r - 1, bound);
      } else {
        x := Settles(c, bound, side, t + 1, u);
        BudgetGrows(r', r, bound);
      }
    }
  }

  lemma {:induction false} SettlesSoon(c: Client, bound: nat, side: Side, t: nat) returns (x: nat)
    requires c.Retries() && Fair(c, bound)
    ensures t <= x < t + 12 * bound && c.Settled(side, x)
  {
    assert MovesWithin(c, side, t, bound);
    var u: nat :| t <= u < t + bound && c.Of(side, u).moves;
    x := Settles(c, bound, side, t, u);
    assert c.Advances(side, t);
    BudgetGrows(c.Of(side, t).rank, 11, bound);
  }

  /** Twelve rounds of moves see a change of the counter or the end. */
  lemma {:induction false} OneWindow(c: Client, bound: nat, t: nat)
    requires c.Retries() && Fair(c, bound)
    ensures c.EndedAt(t + 12 * bound) || c.ChangesLeft(t + 12 * bound) < c.ChangesLeft(t)
  {
    var x := SettlesSoon(c, bound, Writer, t);
    var z := SettlesSoon(c, bound, Reader, t);
    SettledMeansChange(c, t, x, z, t + 12 * bound);
  }

  /** Both loops have ended by the time every change of the counter has had its window. */
  lemma {:induction false} EndInTime(c: Client, bound: nat, t: nat, end: nat)
    requires c.Retries() && Fair(c, bound)
    requires end >= t + (c.ChangesLeft(t) + 1) * (12 * bound)
    ensures c.EndedAt(end)
    decreases c.ChangesLeft(t)
  {
    Counters(c, t);
    var t' := t + 12 * bound;
    Counters(c, t');
    Times(0, c.ChangesLeft(t), 12 * bound);
    OneWindow(c, bound, t);
    if c.EndedAt(t') {
      BothStayEnded(c, t', t', end);
    } else {
      Times(c.ChangesLeft(t') + 1, c.ChangesLeft(t), 12 * bound);
      EndInTime(c, bound, t', end);
    }
  }

  // ----- Each side moves again and again, without any bound

  ghost predicate MovesAgain(c: Client, side: Side, t: nat) {
    exists u: nat :: u >= t && c.Of(side, u).moves
  }

  /** No side is passed over for ever. */
  ghost predicate NobodyStarves(c: Client) {
    forall t: nat, side: Side :: MovesAgain(c, side, t)
  }

  lemma {:induction false} SettlesSometime(c: Client, side: Side, t: nat, u: nat) returns (x: nat)
    requires c.Retries() && NobodyStarves(c) && t <= u && c.Of(side, u).moves
    ensures t <= x && c.Settled(side, x)
    decreases c.Of(side, t).rank, u - t
  {
    if c.Settled(side, t) {
      x := t;
    } else {
      assert c.Advances(side, t);
      var u' := u;
      if c.Of(side, t).moves {
        assert MovesAgain(c, side, t + 1);
        u' :| t + 1 <= u' && c.Of(side, u').moves;
      }
      x := SettlesSometime(c, side, t + 1, u');
    }
  }

  /** A moment by which the counter has changed again or both loops have ended. */
  lemma {:induction false} NextChange(c: Client, t: nat) returns (u: nat)
    requires c.Retries() && NobodyStarves(c)
    ensures c.EndedAt(u) || c.ChangesLeft(u) < c.ChangesLeft(t)
  {
    assert MovesAgain(c, Writer, t) && MovesAgain(c, Reader, t);
    var p: nat :| t <= p && c.Of(Writer, p).moves;
    var q: nat :| t <= q && c.Of(Reader, q).moves;
    var x := SettlesSometime(c, Writer, t, p);
    var z := SettlesSometime(c, Reader, t, q);
    u := if x <= z then z + 1 else x + 1;
    SettledMeansChange(c, t, x, z, u);
  }

  ghost predicate EndedFrom(c: Client, end: nat) {
    forall t: nat | t >= end :: c.EndedAt(t)
  }

  /** Both loops end, and stay ended, under every schedule that starves neither. */
  lemma {:induction false} EndSometime(c: Client, t: nat) returns (end: nat)
    requires c.Retries() && NobodyStarves(c)
    ensures EndedFrom(c, end)
    decreases c.ChangesLeft(t)
  {
    end := NextChange(c, t);
    Counters(c, t);
    if c.EndedAt(end) {
      forall u: nat | u >= end ensures c.EndedAt(u) {
        BothStayEnded(c, end, end, u);
      }
    } else {
      Counters(c, end);
      end := EndSometime(c, end);
    }
  }
}
