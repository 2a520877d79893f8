/** What the stress test promises, for every item count, every size and every schedule. */
module StressResults {
  import opened Pointers
  import opened Machine
  import opened Invariant
  import opened AtomicQueue
  import opened Refinement
  import opened Tickets
  import opened HappensBefore
  import opened Stress

  function AcceptedBy(y: System, turns: Turns, t: nat): seq<Pointer> {
    Accepted(y.core, CoreSchedule(y, turns), t)
  }

  function RetiredBy(y: System, turns: Turns, t: nat): nat {
    Retired(y.core, CoreSchedule(y, turns), t)
  }

  lemma {:induction false} MoveKeepsInv(b: System, turn: Turn, accepted: seq<Pointer>, retired: nat)
    requires Inv(b.core) && SystemInv(b, accepted, retired)
    requires b.core.consumer.CDecrement? ==> b.core.consumer.pointer == Address(retired)
    ensures ProducingInv(Move(b, turn), Extend(accepted, Publishes(b.core, CoreAction(b, turn))))
    ensures ConsumingInv(Move(b, turn), retired + Size(Retires(b.core, CoreAction(b, turn))))
  {
    match turn
    case ProducerTurn => ProducingKeepsInv(b, accepted, retired);
    case ConsumerTurn => ConsumingKeepsInv(b, accepted, retired);
  }

  lemma {:induction false} CoreInv(y: System, turns: Turns, t: nat)
    requires Start(y)
    ensures Inv(SystemAt(y, turns, t).core) && SystemAt(y, turns, t).core.mem.size == y.core.mem.size
    ensures RetiredBy(y, turns, t) <= |AcceptedBy(y, turns, t)|
    ensures SystemAt(y, turns, t).core.mem.n == |AcceptedBy(y, turns, t)| - RetiredBy(y, turns, t)
  {
    RunInv(y.core, CoreSchedule(y, turns), t);
    CoreRuns(y, turns, t);
    CountAt(y.core, CoreSchedule(y, turns), t);
  }

  lemma {:induction false} OneMoreTurn(y: System, turns: Turns, t: nat)
    ensures var b, a := SystemAt(y, turns, t), CoreAction(SystemAt(y, turns, t), turns(t));
            && AcceptedBy(y, turns, t + 1) == Extend(AcceptedBy(y, turns, t), Publishes(b.core, a))
            && RetiredBy(y, turns, t + 1) == RetiredBy(y, turns, t) + Size(Retires(b.core, a))
  {
    CoreRuns(y, turns, t);
  }

  lemma {:induction false} InvNext(y: System, turns: Turns, t: nat)
    requires Start(y) && SystemInv(SystemAt(y, turns, t), AcceptedBy(y, turns, t), RetiredBy(y, turns, t))
    ensures SystemInv(SystemAt(y, turns, t + 1), AcceptedBy(y, turns, t + 1), RetiredBy(y, turns, t + 1))
  {
    CoreInv(y, turns, t);
    CoreInv(y, turns, t + 1);
    SystemNext(y, turns, t);
    OneMoreTurn(y, turns, t);
    var b := SystemAt(y, turns, t);
    if b.core.consumer.CDecrement? {
      CoreRuns(y, turns, t);
      RetiresNext(y.core, CoreSchedule(y, turns), t);
    }
    MoveKeepsInv(b, turns(t), AcceptedBy(y, turns, t), RetiredBy(y, turns, t));
  }

  /** The invariant holds at every moment of every run. */
  lemma {:induction false} InvAt(y: System, turns: Turns, t: nat)
    requires Start(y)
    ensures SystemInv(SystemAt(y, turns, t), AcceptedBy(y, turns, t), RetiredBy(y, turns, t))
  {
    if t == 0 {
    } else {
      InvAt(y, turns, t - 1);
      InvNext(y, turns, t - 1);
    }
  }

  // ----- Intact, in order, complete

  predicate Finished(y: System) {
    y.producing.ProducerDone? && y.consuming.ConsumerDone?
  }

  /** The addresses of the first `count` items. */
  function Addresses(count: nat): seq<Pointer> {
    seq(count, i requires 0 <= i => Address(i))
  }

  /** What the reads of the consumer have returned so far, NULL aside. */
  function Stream(y: System, turns: Turns, t: nat): seq<Pointer> {
    Fetched(Calls(Log(y.core, CoreSchedule(y, turns), t), Consumer))
  }

  lemma {:induction false} StreamPrefix(accepted: seq<Pointer>, delivered: seq<Pointer>, held: seq<Pointer>,
                                        stream: seq<Pointer>, last: Option<Pointer>)
    requires accepted == delivered + held && delivered == Extend(stream, last)
    requires forall k | 0 <= k < |accepted| :: accepted[k] == Address(k)
    ensures stream == Addresses(|stream|)
  {
    forall k | 0 <= k < |stream| ensures stream[k] == Address(k) {
      assert accepted[k] == delivered[k] == stream[k];
    }
  }

  lemma {:induction false} PrefixOf(whole: seq<Pointer>, first: seq<Pointer>, next: Option<Pointer>, rest: seq<Pointer>)
    requires whole == Extend(first, next) + rest
    ensures first <= whole
  {
  }

  /**
   In every run, under every schedule and for every size, what has come out so far is
   exactly the first items in order, each with its payload intact.
   */
  lemma {:induction false} StreamIsIntact(y: System, turns: Turns, t: nat)
    requires Start(y)
    ensures SystemAt(y, turns, t).corrupt == 0
    ensures Stream(y, turns, t) == Addresses(|Stream(y, turns, t)|)
    ensures Stream(y, turns, t) <= AcceptedBy(y, turns, t)
    ensures var b := SystemAt(y, turns, t);
            |Stream(y, turns, t)| == b.received + if b.consuming.Checking? then 1 else 0
  {
    var sched := CoreSchedule(y, turns);
    InvAt(y, turns, t);
    CoreRuns(y, turns, t);
    DeliveredReturns(y.core, sched, t);
    Deliveries(y.core, sched, t);
    StreamPrefix(AcceptedBy(y, turns, t), Delivered(y.core, sched, t), Contents(At(y.core, sched, t)),
                 Stream(y, turns, t), ReadInFlight(At(y.core, sched, t)));
    PrefixOf(AcceptedBy(y, turns, t), Stream(y, turns, t), ReadInFlight(At(y.core, sched, t)),
             Contents(At(y.core, sched, t)));
  }

  lemma {:induction false} ItemCount(y: System, turns: Turns, t: nat)
    ensures |SystemAt(y, turns, t).items| == |y.items|
  {
    if t == 0 {
    } else {
      ItemCount(y, turns, t - 1);
      SystemNext(y, turns, t - 1);
    }
  }

  /** A run that has finished has delivered items 0 to N-1, once each, in order, all intact. */
  lemma {:induction false} FinishedMeansAll(y: System, turns: Turns, t: nat)
    requires Start(y) && Finished(SystemAt(y, turns, t))
    ensures Stream(y, turns, t) == Addresses(|y.items|)
    ensures SystemAt(y, turns, t).received == |y.items| && SystemAt(y, turns, t).corrupt == 0
    ensures SystemAt(y, turns, t).core.mem.n == 0
    ensures var items := SystemAt(y, turns, t).items;
            |items| == |y.items| && forall k | 0 <= k < |items| :: items[k] == Payload(k, -k - 1, 3 * k, 7 * k)
  {
    StreamIsIntact(y, turns, t);
    InvAt(y, turns, t);
    ItemCount(y, turns, t);
    CoreInv(y, turns, t);
    CoreRuns(y, turns, t);
    DeliveredReturns(y.core, CoreSchedule(y, turns), t);
  }

  /** Neither the capacity nor the schedule nor the garbage in the slots can be told from the outcome. */
  lemma {:induction false} OutcomeIsUnique(y: System, turns: Turns, t: nat, y': System, turns': Turns, t': nat)
    requires Start(y) && Finished(SystemAt(y, turns, t))
    requires Start(y') && Finished(SystemAt(y', turns', t'))
    requires |y.items| == |y'.items|
    ensures Stream(y, turns, t) == Stream(y', turns', t')
    ensures SystemAt(y, turns, t).received == SystemAt(y', turns', t').received
    ensures SystemAt(y, turns, t).corrupt == SystemAt(y', turns', t').corrupt
  {
    FinishedMeansAll(y, turns, t);
    FinishedMeansAll(y', turns', t');
  }

  // ----- The payload needs no synchronisation of its own

  /** Every store into an item happens before every load from it; in particular it comes first. */
  lemma {:induction false} PayloadIsRaceFree(y: System, turns: Turns, t: nat, u: nat, k: nat)
    requires Start(y)
    requires ItemAccess(SystemAt(y, turns, t), turns(t)) == Some((k, true))
    requires ItemAccess(SystemAt(y, turns, u), turns(u)) == Some((k, false))
    ensures t < u && Before(y.core, CoreSchedule(y, turns), t, u)
  {
    InvAt(y, turns, t);
    InvAt(y, turns, u);
    Publication(y.core, CoreSchedule(y, turns), t, u, k);
  }
}
