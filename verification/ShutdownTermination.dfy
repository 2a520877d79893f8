/** If both threads of the threads test keep calling, the program comes to its end. */
module ShutdownTermination {
  import opened Pointers
  import opened Machine
  import opened Invariant
  import opened Tickets
  import opened HappensBefore
  import opened Progress
  import opened Shutdown
  import RetryLoops

  /** Turns of its own that the producer is away from its next increment, or its next look at `n`. */
  function ProducerRank(y: Program): (r: nat)
    ensures r <= 8
  {
    match y.producing
    case ProducerQuit => 0
    case Writing =>
      match y.core.producer
      case PIdle => 6
      case PEnter(_) => 5
      case PLoad(_) => 4
      case PStore(_) => 3
      case PAdvance(_) => 2
      case PIncrement(_) => 1
      case PReturn(_, status) => if status == FULL then 7 else 8
  }

  /** `done` counts as a few more turns after the last read. */
  function ConsumerRank(y: Program): (r: nat)
    ensures r <= 7
  {
    match y.consuming
    case ConsumerQuit => 0
    case DoneClear => 1
    case DoneFree => 2
    case DoneTest => 3
    case Reading =>
      match y.core.consumer
      case CIdle => 5
      case CLoad => 4
      case CFetch => 3
      case CAdvance(_) => 2
      case CDecrement(_) => 1
      case CReturn(p) => if p == NULL then 6 else 7
  }

  /** The look at `n` that makes the call of a thread fail. */
  predicate Fails(y: Program, turn: Turn) {
    match turn
    case ProducerTurn(_) => y.producing.Writing? && y.core.producer.PLoad? && y.core.mem.n == y.core.mem.size
    case ConsumerTurn(_) => y.consuming.Reading? && y.core.consumer.CLoad? && y.core.mem.n == 0
  }

  /**
   A turn that neither changes the counter nor fails takes no thread further away, and one
   that is not slept through brings it nearer.
   */
  lemma {:induction false} ProducerAdvances(y: Program, accepted: seq<Pointer>, turn: Turn)
    requires Inv(y.core) && ProducingInv(y, accepted) && y.producing.Writing?
    requires !Releases(y.core, CoreAction(y, turn)) && !Fails(y, turn)
    ensures ProducerRank(Move(y, turn)) <= ProducerRank(y)
    ensures turn == ProducerTurn(true) ==> ProducerRank(Move(y, turn)) < ProducerRank(y)
  {
  }

  lemma {:induction false} ConsumerAdvances(y: Program, retired: nat, turn: Turn)
    requires Inv(y.core) && ConsumingInv(y, retired) && !y.consuming.ConsumerQuit?
    requires !Releases(y.core, CoreAction(y, turn)) && !Fails(y, turn)
    ensures ConsumerRank(Move(y, turn)) <= ConsumerRank(y)
    ensures turn == ConsumerTurn(true) ==> ConsumerRank(Move(y, turn)) < ConsumerRank(y)
  {
  }

  // ----- The two programs as retry loops

  function ProducerStanding(y: Program, turn: Turn): RetryLoops.Standing {
    RetryLoops.Standing(turn == ProducerTurn(true), y.producing.ProducerQuit?, ProducerRank(y))
  }

  function ConsumerStanding(y: Program, turn: Turn): RetryLoops.Standing {
    RetryLoops.Standing(turn == ConsumerTurn(true), y.consuming.ConsumerQuit?, ConsumerRank(y))
  }

  function Loops(y: Program, turns: Turns): RetryLoops.Client {
    RetryLoops.Client(y.core, CoreSchedule(y, turns), y.last,
                      (t: nat) => ProducerStanding(ProgramAt(y, turns, t), turns(t)),
                      (t: nat) => ConsumerStanding(ProgramAt(y, turns, t), turns(t)))
  }

  lemma {:induction false} LoopsAt(y: Program, turns: Turns, t: nat)
    ensures Loops(y, turns).writer(t) == ProducerStanding(ProgramAt(y, turns, t), turns(t))
    ensures Loops(y, turns).reader(t) == ConsumerStanding(ProgramAt(y, turns, t), turns(t))
  {
  }

  /** What the program sees of the FIFO is what the run of the FIFO has there. */
  lemma {:induction false} LooksAlike(y: Program, turns: Turns, t: nat)
    requires Start(y)
    ensures Inv(ProgramAt(y, turns, t).core)
    ensures Fails(ProgramAt(y, turns, t), turns(t)) ==>
              if turns(t).ProducerTurn? then FindsFull(y.core, CoreSchedule(y, turns), t)
              else FindsEmpty(y.core, CoreSchedule(y, turns), t)
    ensures Releases(ProgramAt(y, turns, t).core, CoreSchedule(y, turns)(t)) ==>
              Changes(y.core, CoreSchedule(y, turns), t)
  {
    CoreRuns(y, turns, t);
    RunInv(y.core, CoreSchedule(y, turns), t);
  }

  lemma {:induction false} WriterAdvances(y: Program, turns: Turns, t: nat)
    requires Start(y)
    ensures Loops(y, turns).Advances(RetryLoops.Writer, t)
  {
    InvAt(y, turns, t);
    ProgramNext(y, turns, t);
    LooksAlike(y, turns, t);
    LoopsAt(y, turns, t);
    LoopsAt(y, turns, t + 1);
    if !Loops(y, turns).Settled(RetryLoops.Writer, t) && !Fails(ProgramAt(y, turns, t), turns(t)) {
      ProducerAdvances(ProgramAt(y, turns, t), Accepted(y.core, CoreSchedule(y, turns), t), turns(t));
    }
  }

  lemma {:induction false} ReaderAdvances(y: Program, turns: Turns, t: nat)
    requires Start(y)
    ensures Loops(y, turns).Advances(RetryLoops.Reader, t)
  {
    InvAt(y, turns, t);
    ProgramNext(y, turns, t);
    LooksAlike(y, turns, t);
    LoopsAt(y, turns, t);
    LoopsAt(y, turns, t + 1);
    if !Loops(y, turns).Settled(RetryLoops.Reader, t) && !Fails(ProgramAt(y, turns, t), turns(t)) {
      ConsumerAdvances(ProgramAt(y, turns, t), Retired(y.core, CoreSchedule(y, turns), t), turns(t));
    }
  }

  lemma {:induction false} LoopsCount(y: Program, turns: Turns, t: nat)
    requires Start(y)
    ensures Loops(y, turns).Counts(t)
  {
    InvAt(y, turns, t);
    CoreRuns(y, turns, t);
    LastStays(y, turns, t);
    LoopsAt(y, turns, t);
  }

  lemma {:induction false} LoopsRetry(y: Program, turns: Turns)
    requires Start(y)
    ensures Loops(y, turns).Retries()
  {
    forall t: nat ensures Loops(y, turns).Counts(t) {
      LoopsCount(y, turns, t);
    }
    forall t: nat, side: RetryLoops.Side ensures Loops(y, turns).Advances(side, t) {
      if side.Writer? {
        WriterAdvances(y, turns, t);
      } else {
        ReaderAdvances(y, turns, t);
      }
    }
  }

  // ----- The end

  ghost predicate TurnComes(turns: Turns, turn: Turn, t: nat) {
    exists u: nat :: u >= t && turns(u) == turn
  }

  /** Neither thread sleeps, or is passed over, for ever. */
  ghost predicate BothKeepCalling(turns: Turns) {
    forall t: nat :: TurnComes(turns, ProducerTurn(true), t) && TurnComes(turns, ConsumerTurn(true), t)
  }

  /** It is enough to know of some later turn of each thread in which it calls. */
  lemma {:induction false} KeepCallingIfLater(turns: Turns, next: (nat, bool) -> nat)
    requires forall t: nat :: t <= next(t, true) && turns(next(t, true)) == ProducerTurn(true)
    requires forall t: nat :: t <= next(t, false) && turns(next(t, false)) == ConsumerTurn(true)
    ensures BothKeepCalling(turns)
  {
    forall t: nat ensures TurnComes(turns, ProducerTurn(true), t) && TurnComes(turns, ConsumerTurn(true), t) {
      assert turns(next(t, true)) == ProducerTurn(true) && turns(next(t, false)) == ConsumerTurn(true);
    }
  }

  lemma {:induction false} LoopsKeepCalling(y: Program, turns: Turns)
    requires BothKeepCalling(turns)
    ensures RetryLoops.NobodyStarves(Loops(y, turns))
  {
    var c := Loops(y, turns);
    forall t: nat, side: RetryLoops.Side ensures RetryLoops.MovesAgain(c, side, t) {
      var turn := if side.Writer? then ProducerTurn(true) else ConsumerTurn(true);
      assert TurnComes(turns, turn, t);
      var u: nat :| u >= t && turns(u) == turn;
      LoopsAt(y, turns, u);
      assert c.Of(side, u).moves;
    }
  }

  lemma {:induction false} EndedIsOver(y: Program, turns: Turns, t: nat)
    requires Start(y) && Loops(y, turns).EndedAt(t)
    ensures var b := ProgramAt(y, turns, t);
            && b.producing.ProducerQuit? && b.consuming.ConsumerQuit?
            && b.frees == 1 && !b.live && !b.storageSet
    ensures |Stream(y, turns, t)| == y.last && forall k | 0 <= k < y.last :: Stream(y, turns, t)[k] == k + 1
  {
    LoopsAt(y, turns, t);
    InvAt(y, turns, t);
    AllIsRead(y, turns, t);
  }

  /**
   For any item count and any size: if both threads call again and again, both come to
   their ends and stay there, the consumer having read 1 to `last` in order and freed the
   storage once.
   */
  lemma {:induction false} ProgramEnds(y: Program, turns: Turns) returns (end: nat)
    requires Start(y) && BothKeepCalling(turns)
    ensures forall t: nat | t >= end ::
              && ProgramAt(y, turns, t).producing.ProducerQuit? && ProgramAt(y, turns, t).consuming.ConsumerQuit?
              && ProgramAt(y, turns, t).frees == 1 && !ProgramAt(y, turns, t).live
    ensures forall t: nat | t >= end ::
              && |Stream(y, turns, t)| == y.last
              && forall k | 0 <= k < y.last :: Stream(y, turns, t)[k] == k + 1
  {
    var c := Loops(y, turns);
    LoopsRetry(y, turns);
    LoopsKeepCalling(y, turns);
    end := RetryLoops.EndSometime(c, 0);
    forall t: nat | t >= end
      ensures ProgramAt(y, turns, t).producing.ProducerQuit? && ProgramAt(y, turns, t).consuming.ConsumerQuit?
      ensures ProgramAt(y, turns, t).frees == 1 && !ProgramAt(y, turns, t).live
      ensures |Stream(y, turns, t)| == y.last && forall k | 0 <= k < y.last :: Stream(y, turns, t)[k] == k + 1
    {
      assert c.EndedAt(t);
      EndedIsOver(y, turns, t);
    }
  }
}
