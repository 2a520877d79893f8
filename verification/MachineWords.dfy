/** The machine on `unsigned int` and `uintptr_t` never notices that its words wrap around. */
module MachineWords {
  import opened Machine
  import opened Invariant

  lemma {:induction false} ModSmall(x: nat, m: nat)
    requires x < m
    ensures x % m == x
  {
  }

  lemma {:induction false} Wraps(x: int, m: nat)
    requires m > 0
    ensures 0 <= x % m < m && x == (x / m) * m + x % m
    ensures m % m == 0 && -1 % m == m - 1
  {
    var d := -1 / m + 1;
    assert d * m == m - 1 - -1 % m;
  }

  /** Words are what they are called: in range, a multiple away from the number, and 0 one past the largest. */
  lemma {:induction false} WordsWrap(u: Modulus, w: Modulus, x: int)
    ensures 0 <= Words(u, w).UInt(x) < u && x == (x / u) * u + Words(u, w).UInt(x)
    ensures 0 <= Words(u, w).Word(x) < w && x == (x / w) * w + Words(u, w).Word(x)
    ensures Words(u, w).UInt(u) == 0 && Words(u, w).Word(w) == 0 && Words(u, w).Word(-1) == w - 1
  {
    Wraps(x, u);
    Wraps(x, w);
  }

  /** A word-level step from a reachable state is the exact step. */
  lemma {:induction false} StepExact(u: Modulus, w: Modulus, s: State, a: Action)
    requires Inv(s) && s.mem.size < u <= w
    ensures StepIn(Words(u, w), s, a) == Step(s, a)
  {
    ModSmall(s.mem.n, u);
    ModSmall(s.mem.write + 1, u);
    ModSmall(s.mem.read + 1, u);
    if s.producer.PIncrement? {
      ModSmall(s.mem.n + 1, w);
    }
    if s.consumer.CDecrement? {
      ModSmall(s.mem.n - 1, w);
    }
  }

  /**
   For every size that an `unsigned int` can hold, the machine with wrapping words and the
   machine with unbounded integers are in the same state at every moment of every run.
   */
  lemma {:induction false} WordsAreExact(u: Modulus, w: Modulus, s: State, sched: Schedule, i: nat)
    requires Initial(s) && s.mem.size < u <= w
    ensures AtIn(Words(u, w), s, sched, i) == At(s, sched, i)
  {
    if i == 0 {
    } else {
      WordsAreExact(u, w, s, sched, i - 1);
      RunInv(s, sched, i - 1);
      StepExact(u, w, At(s, sched, i - 1), sched(i - 1));
    }
  }

  /** In no run does a word wrap: the count fits `unsigned int`, and so does the sum before each `%`. */
  lemma {:induction false} NothingWraps(u: Modulus, w: Modulus, s: State, sched: Schedule, i: nat)
    requires Initial(s) && s.mem.size < u <= w
    ensures var m := AtIn(Words(u, w), s, sched, i).mem;
            && 0 <= m.n <= m.size < u
            && m.write + 1 < u && m.read + 1 < u
            && (GetCount(Words(u, w), m) == m.size <==> GetCount(Words(u, w), m) >= m.size)
            && GetCount(Words(u, w), m) == |Contents(At(s, sched, i))|
  {
    WordsAreExact(u, w, s, sched, i);
    RunInv(s, sched, i);
    ModSmall(At(s, sched, i).mem.n, u);
  }

  lemma {:induction false} ProductMonotone(a: nat, b: nat, c: nat)
    requires a <= b
    ensures a * c <= b * c
  {
  }

  lemma {:induction false} QuotientBounds(x: nat, d: nat)
    requires d > 0
    ensures (x / d) * d <= x < (x / d + 1) * d
  {
  }

  /**
   The second assertion of `init` holds exactly when the byte count handed to the
   allocator, computed modulo the range of `size_t`, is the true one.
   */
  lemma {:induction false} AllocationIsExact(size: nat, pointerBytes: nat, sizeModulus: nat)
    requires pointerBytes > 0 && sizeModulus > 0
    ensures size <= (sizeModulus - 1) / pointerBytes <==> (size * pointerBytes) % sizeModulus == size * pointerBytes
  {
    var q, bytes := (sizeModulus - 1) / pointerBytes, size * pointerBytes;
    QuotientBounds(sizeModulus - 1, pointerBytes);
    if size <= q {
      ProductMonotone(size, q, pointerBytes);
      ModSmall(bytes, sizeModulus);
    } else {
      ProductMonotone(q + 1, size, pointerBytes);
      assert bytes >= sizeModulus > bytes % sizeModulus;
    }
  }
}
