/** Neither retry loop of the stress test can spin for ever. */
module StressTermination {
  import opened Pointers
  import opened Machine
  import opened Invariant
  import opened HappensBefore
  import opened Progress
  import opened Stress
  import opened StressResults
  import RetryLoops

  // ----- How far each loop is from its next look at the counter

  /** Turns of its own that the producer is away from its next increment, or its next look at `n`. */
  function ProducerRank(y: System): (r: nat)
    ensures r <= 11
  {
    match y.producing
    case ProducerDone => 0
    case Filling(field) => if field < FIELDS then 10 - field else 10
    case Writing =>
      match y.core.producer
      case PIdle => 6
      case PEnter(_) => 5
      case PLoad(_) => 4
      case PStore(_) => 3
      case PAdvance(_) => 2
      case PIncrement(_) => 1
      case PReturn(_, status) => if status == FULL then 7 else 11
  }

  function ConsumerRank(y: System): (r: nat)
    ensures r <= 10
  {
    match y.consuming
    case ConsumerDone => 0
    case Checking(_, field) => if field < FIELDS then 9 - field else 9
    case Reading =>
      match y.core.consumer
      case CIdle => 5
      case CLoad => 4
      case CFetch => 3
      case CAdvance(_) => 2
      case CDecrement(_) => 1
      case CReturn(p) => if p == NULL then 6 else 10
  }

  /** The look at `n` that makes a call fail. */
  predicate Fails(y: System, turn: Turn) {
    match turn
    case ProducerTurn => y.producing.Writing? && y.core.producer.PLoad? && y.core.mem.n == y.core.mem.size
    case ConsumerTurn => y.consuming.Reading? && y.core.consumer.CLoad? && y.core.mem.n == 0
  }

  lemma {:induction false} ProducerAdvances(y: System, accepted: seq<Pointer>, retired: nat, turn: Turn)
    requires Inv(y.core) && SystemInv(y, accepted, retired) && !y.producing.ProducerDone?
    ensures turn.ProducerTurn? && !Releases(y.core, CoreAction(y, turn)) && !Fails(y, turn)
            ==> ProducerRank(Move(y, turn)) < ProducerRank(y)
    ensures turn.ConsumerTurn? ==> ProducerRank(Move(y, turn)) == ProducerRank(y)
  {
  }

  lemma {:induction false} ConsumerAdvances(y: System, accepted: seq<Pointer>, retired: nat, turn: Turn)
    requires Inv(y.core) && SystemInv(y, accepted, retired) && !y.consuming.ConsumerDone?
    ensures turn.ConsumerTurn? && !Releases(y.core, CoreAction(y, turn)) && !Fails(y, turn)
            ==> ConsumerRank(Move(y, turn)) < ConsumerRank(y)
    ensures turn.ProducerTurn? ==> ConsumerRank(Move(y, turn)) == ConsumerRank(y)
  {
  }

  // ----- The two programs as retry loops

  function ProducerStanding(y: System, turn: Turn): RetryLoops.Standing {
    RetryLoops.Standing(turn.ProducerTurn?, y.producing.ProducerDone?, ProducerRank(y))
  }

  function ConsumerStanding(y: System, turn: Turn): RetryLoops.Standing {
    RetryLoops.Standing(turn.ConsumerTurn?, y.consuming.ConsumerDone?, ConsumerRank(y))
  }

  function Loops(y: System, turns: Turns): RetryLoops.Client {
    RetryLoops.Client(y.core, CoreSchedule(y, turns), |y.items|,
                      (t: nat) => ProducerStanding(SystemAt(y, turns, t), turns(t)),
                      (t: nat) => ConsumerStanding(SystemAt(y, turns, t), turns(t)))
  }

  lemma {:induction false} LoopsAt(y: System, turns: Turns, t: nat)
    ensures Loops(y, turns).writer(t) == ProducerStanding(SystemAt(y, turns, t), turns(t))
    ensures Loops(y, turns).reader(t) == ConsumerStanding(SystemAt(y, turns, t), turns(t))
  {
  }

  /** The core of the run and the core of the system are the same at `t`, and so is what they find. */
  lemma {:induction false} LooksAlike(y: System, turns: Turns, t: nat)
    requires Start(y)
    ensures Fails(SystemAt(y, turns, t), turns(t)) ==>
              if turns(t).ProducerTurn? then FindsFull(y.core, CoreSchedule(y, turns), t)
              else FindsEmpty(y.core, CoreSchedule(y, turns), t)
    ensures Releases(SystemAt(y, turns, t).core, CoreSchedule(y, turns)(t)) ==>
              Changes(y.core, CoreSchedule(y, turns), t)
  {
    CoreRuns(y, turns, t);
  }

  lemma {:induction false} LoopsAdvance(y: System, turns: Turns, side: RetryLoops.Side, t: nat)
    requires Start(y)
    ensures Loops(y, turns).Advances(side, t)
  {
    var b := SystemAt(y, turns, t);
    InvAt(y, turns, t);
    CoreInv(y, turns, t);
    SystemNext(y, turns, t);
    LooksAlike(y, turns, t);
    LoopsAt(y, turns, t);
    LoopsAt(y, turns, t + 1);
    if side.Writer? && !b.producing.ProducerDone? {
      ProducerAdvances(b, AcceptedBy(y, turns, t), RetiredBy(y, turns, t), turns(t));
    } else if side.Reader? && !b.consuming.ConsumerDone? {
      ConsumerAdvances(b, AcceptedBy(y, turns, t), RetiredBy(y, turns, t), turns(t));
    }
  }

  lemma {:induction false} LoopsCount(y: System, turns: Turns, t: nat)
    requires Start(y)
    ensures Loops(y, turns).Counts(t)
  {
    InvAt(y, turns, t);
    CoreRuns(y, turns, t);
    ItemCount(y, turns, t);
    LoopsAt(y, turns, t);
  }

  lemma {:induction false} LoopsRetry(y: System, turns: Turns)
    requires Start(y)
    ensures Loops(y, turns).Retries()
  {
    forall t: nat ensures Loops(y, turns).Counts(t) {
      LoopsCount(y, turns, t);
    }
    forall t: nat, side: RetryLoops.Side ensures Loops(y, turns).Advances(side, t) {
      LoopsAdvance(y, turns, side, t);
    }
  }

  // ----- Termination

  ghost predicate TurnWithin(turns: Turns, turn: Turn, t: nat, bound: nat) {
    exists u: nat :: t <= u < t + bound && turns(u) == turn
  }

  /** Each thread gets a turn in any `bound` consecutive turns. */
  ghost predicate Fair(turns: Turns, bound: nat) {
    forall t: nat, turn: Turn :: TurnWithin(turns, turn, t, bound)
  }

  /** It is enough to know of some next turn within the bound. */
  lemma {:induction false} FairIfWithin(turns: Turns, next: (nat, Turn) -> nat, bound: nat)
    requires forall t: nat, turn: Turn :: t <= next(t, turn) < t + bound && turns(next(t, turn)) == turn
    ensures Fair(turns, bound)
  {
    forall t: nat, turn: Turn ensures TurnWithin(turns, turn, t, bound) {
      assert t <= next(t, turn) < t + bound && turns(next(t, turn)) == turn;
    }
  }

  /**
   Termination: if each thread gets a turn in any `bound` turns, both loops have ended
   after at most `(2 N + 1) * 12 * bound` turns, whatever the size of the FIFO.
   */
  lemma {:induction false} RetryLoopsEnd(y: System, turns: Turns, bound: nat, end: nat)
    requires Start(y) && Fair(turns, bound)
    requires end >= (2 * |y.items| + 1) * (12 * bound)
    ensures Finished(SystemAt(y, turns, end))
    ensures Stream(y, turns, end) == Addresses(|y.items|) && SystemAt(y, turns, end).corrupt == 0
  {
    var c := Loops(y, turns);
    LoopsRetry(y, turns);
    forall t: nat, side: RetryLoops.Side ensures RetryLoops.MovesWithin(c, side, t, bound) {
      var turn := if side.Writer? then ProducerTurn else ConsumerTurn;
      assert TurnWithin(turns, turn, t, bound);
      var u: nat :| t <= u < t + bound && turns(u) == turn;
      LoopsAt(y, turns, u);
      assert c.Of(side, u).moves;
    }
    RetryLoops.EndInTime(c, bound, 0, end);
    LoopsAt(y, turns, end);
    FinishedMeansAll(y, turns, end);
  }

  ghost predicate TurnComes(turns: Turns, turn: Turn, t: nat) {
    exists u: nat :: u >= t && turns(u) == turn
  }

  /** No thread is passed over for ever. */
  ghost predicate NobodyStarves(turns: Turns) {
    forall t: nat, turn: Turn :: TurnComes(turns, turn, t)
  }

  /** It is enough to know of some later turn. */
  lemma {:induction false} NobodyStarvesIfLater(turns: Turns, next: (nat, Turn) -> nat)
    requires forall t: nat, turn: Turn :: t <= next(t, turn) && turns(next(t, turn)) == turn
    ensures NobodyStarves(turns)
  {
    forall t: nat, turn: Turn ensures TurnComes(turns, turn, t) {
      assert t <= next(t, turn) && turns(next(t, turn)) == turn;
    }
  }

  /** Termination under every schedule that starves neither thread, bounded or not: it ends and stays ended. */
  lemma {:induction false} FairRunsEnd(y: System, turns: Turns) returns (end: nat)
    requires Start(y) && NobodyStarves(turns)
    ensures forall t: nat | t >= end ::
              SystemAt(y, turns, t).producing.ProducerDone? && SystemAt(y, turns, t).consuming.ConsumerDone?
  {
    var c := Loops(y, turns);
    LoopsRetry(y, turns);
    forall t: nat, side: RetryLoops.Side ensures RetryLoops.MovesAgain(c, side, t) {
      var turn := if side.Writer? then ProducerTurn else ConsumerTurn;
      assert TurnComes(turns, turn, t);
      var u: nat :| u >= t && turns(u) == turn;
      LoopsAt(y, turns, u);
      assert c.Of(side, u).moves;
    }
    end := RetryLoops.EndSometime(c, 0);
    forall t: nat | t >= end ensures Finished(SystemAt(y, turns, t)) {
      assert c.EndedAt(t);
      LoopsAt(y, turns, t);
    }
  }
}
