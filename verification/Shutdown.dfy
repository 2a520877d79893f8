/**
 The threads test (test/20-multithreaded/threads.c): the consumer frees the storage as
 soon as it has read the last item, without waiting for the producer.  README.md:18-19
 asks for `done` to be called only after both threads have stopped; this program calls
 it earlier, and is safe all the same.
 */
module Shutdown {
  import opened Pointers
  import opened Machine
  import opened Invariant
  import opened AtomicQueue
  import opened Refinement
  import opened Tickets
  import opened HappensBefore

  datatype ProducerMain = Writing | ProducerQuit

  /** `DoneTest`, `DoneFree` and `DoneClear` are the steps of `_mulle_pointerfifo_done`. */
  datatype ConsumerMain = Reading | DoneTest | DoneFree | DoneClear | ConsumerQuit

  /** The FIFO, the block behind `p->storage`, and the two programs; items are 1 to `last`. */
  datatype Program = Program(core: State, storageSet: bool, live: bool, frees: nat, last: nat,
                             producing: ProducerMain, i: nat, consuming: ConsumerMain)

  /** Between calls a thread may call again or sleep (`rand() % 8`). */
  datatype Turn = ProducerTurn(calls: bool) | ConsumerTurn(calls: bool)

  type Turns = nat -> Turn

  /** The program when both threads are about to start. */
  function FirstProgram(size: nat, garbage: seq<Pointer>, last: nat): Program
    requires size >= 2 && |garbage| == size && last >= 1
  {
    Program(FirstState(size, garbage), true, true, 0, last, Writing, 1, Reading)
  }

  ghost predicate Start(y: Program) {
    y.last >= 1 && y == FirstProgram(y.core.mem.size, y.core.mem.storage, y.last)
  }

  lemma {:induction false} FirstProgramStarts(size: nat, garbage: seq<Pointer>, last: nat)
    requires size >= 2 && |garbage| == size && last >= 1
    ensures var y := FirstProgram(size, garbage, last);
            Start(y) && y.last == last && y.core.mem.size == size && y.core.mem.storage == garbage
  {
  }

  function CoreAction(y: Program, turn: Turn): Action {
    match turn
    case ProducerTurn(calls) =>
      if y.producing.ProducerQuit? then ProducerWork
      else if !y.core.producer.PIdle? then ProducerStep
      else if calls then ProducerCall(y.i) else ProducerWork
    case ConsumerTurn(calls) =>
      if !y.consuming.Reading? then ConsumerWork
      else if !y.core.consumer.CIdle? then ConsumerStep
      else if calls then ConsumerCall else ConsumerWork
  }

  /** threads.c:16-34 */
  function MoveProducing(y: Program, turn: Turn): Program {
    var y' := y.(core := Step(y.core, CoreAction(y, turn)));
    if y.producing.Writing? && y.core.producer.PReturn? && y.core.producer.status != FULL then
      if y.i == y.last then y'.(producing := ProducerQuit) else y'.(i := y.i + 1)
    else y'
  }

  /** threads.c:64-94, with `done` (mulle-pointerfifo.h:84-91) step by step */
  function MoveConsuming(y: Program, turn: Turn): Program {
    match y.consuming
    case Reading =>
      var y' := y.(core := Step(y.core, CoreAction(y, turn)));
      if y.core.consumer.CReturn? && y.core.consumer.pointer == y.last then y'.(consuming := DoneTest) else y'
    case DoneTest => y.(consuming := if y.storageSet then DoneFree else ConsumerQuit)
    case DoneFree => y.(live := false, frees := y.frees + 1, consuming := DoneClear)
    case DoneClear => y.(storageSet := false, consuming := ConsumerQuit)
    case ConsumerQuit => y
  }

  function Move(y: Program, turn: Turn): Program {
    if turn.ProducerTurn? then MoveProducing(y, turn) else MoveConsuming(y, turn)
  }

  /** Between calls a thread calls exactly when its turn says so, with the next item, and otherwise sleeps. */
  lemma {:induction false} TurnsCallOrSleep(y: Program)
    ensures y.producing.Writing? && y.core.producer.PIdle? ==>
              && Move(y, ProducerTurn(false)) == y
              && Move(y, ProducerTurn(true)) == y.(core := y.core.(producer := PEnter(y.i)))
    ensures y.consuming.Reading? && y.core.consumer.CIdle? ==>
              && Move(y, ConsumerTurn(false)) == y
              && Move(y, ConsumerTurn(true)) == y.(core := y.core.(consumer := CLoad))
  {
  }

  /** `done` frees the block and then clears the pointer, if it is set, and does nothing otherwise. */
  lemma {:induction false} DoneFreesWhatIsSet(y: Program, calls: bool)
    requires y.consuming.DoneTest?
    ensures var y1 := Move(y, ConsumerTurn(calls));
            var y2 := Move(y1, ConsumerTurn(calls));
            var y3 := Move(y2, ConsumerTurn(calls));
            if y.storageSet then
              && y2 == y.(live := false, frees := y.frees + 1, consuming := DoneClear)
              && y3 == y2.(storageSet := false, consuming := ConsumerQuit)
            else y3 == y.(consuming := ConsumerQuit)
  {
  }

  /** A write that returns -1, and no other, is tried again with the same item, and only the last item ends the loop. */
  lemma {:induction false} OnlyFullIsRetried(y: Program, calls: bool)
    requires y.producing.Writing? && y.core.producer.PReturn?
    ensures var y' := Move(y, ProducerTurn(calls));
            if y.core.producer.status == -1 then y'.producing == Writing && y'.i == y.i
            else if y.i == y.last then y'.producing == ProducerQuit
            else y'.producing == Writing && y'.i == y.i + 1
  {
  }

  function ProgramAt(y: Program, turns: Turns, t: nat): Program
    decreases t, 0
  {
    if t == 0 then y else ProgramAfter(y, turns, t - 1)
  }

  function ProgramAfter(y: Program, turns: Turns, t: nat): Program
    decreases t, 1
  {
    Move(ProgramAt(y, turns, t), turns(t))
  }

  lemma {:induction false} ProgramNext(y: Program, turns: Turns, t: nat)
    ensures ProgramAt(y, turns, t + 1) == Move(ProgramAt(y, turns, t), turns(t))
  {
  }

  function CoreSchedule(y: Program, turns: Turns): Schedule {
    (t: nat) => CoreAction(ProgramAt(y, turns, t), turns(t))
  }

  lemma {:induction false} MoveIsCoreStep(y: Program, turn: Turn)
    ensures Move(y, turn).core == Step(y.core, CoreAction(y, turn))
    ensures Move(y, turn).last == y.last
  {
  }

  /** A run of the program is a run of the machine, turn by turn. */
  lemma {:induction false} CoreRuns(y: Program, turns: Turns, t: nat)
    ensures ProgramAt(y, turns, t).core == At(y.core, CoreSchedule(y, turns), t)
  {
    var cores := (k: nat) => ProgramAt(y, turns, k).core;
    forall k: nat ensures Follows(cores, CoreSchedule(y, turns), k) {
      ProgramNext(y, turns, k);
      MoveIsCoreStep(ProgramAt(y, turns, k), turns(k));
    }
    FollowsIsRun(cores, CoreSchedule(y, turns), t);
  }

  lemma {:induction false} LastStays(y: Program, turns: Turns, t: nat)
    ensures ProgramAt(y, turns, t).last == y.last
  {
    if t == 0 {
    } else {
      LastStays(y, turns, t - 1);
      ProgramNext(y, turns, t - 1);
    }
  }

  // ----- The invariant

  ghost predicate ProducingInv(y: Program, accepted: seq<Pointer>) {
    && (forall k | 0 <= k < |accepted| :: accepted[k] == k + 1)
    && match y.producing
       case Writing =>
         && 1 <= y.i <= y.last && |accepted| == y.i - 1 + Size(WriteInFlight(y.core))
         && (!y.core.producer.PIdle? ==> y.core.producer.pointer == y.i)
       case ProducerQuit =>
         y.core.producer.PIdle? && |accepted| == y.last
  }

  ghost predicate ConsumingInv(y: Program, retired: nat) {
    && (y.consuming.Reading? ==>
          if ReadInFlight(y.core).Some? then y.core.consumer.pointer == retired else retired < y.last)
    && (!y.consuming.Reading? ==> y.core.consumer.CIdle? && retired == y.last)
    && (y.live <==> y.consuming.Reading? || y.consuming.DoneTest? || y.consuming.DoneFree?)
    && (y.storageSet <==> !y.consuming.ConsumerQuit?)
    && y.frees == if y.live then 0 else 1
  }

  lemma {:induction false} ProducingKeepsInv(y: Program, turn: Turn, accepted: seq<Pointer>, retired: nat)
    requires Inv(y.core) && ProducingInv(y, accepted) && ConsumingInv(y, retired) && y.last >= 1 && turn.ProducerTurn?
    ensures ProducingInv(MoveProducing(y, turn), Extend(accepted, Publishes(y.core, CoreAction(y, turn))))
    ensures ConsumingInv(MoveProducing(y, turn), retired)
    ensures Retires(y.core, CoreAction(y, turn)) == None
  {
  }

  lemma {:induction false} ConsumingKeepsInv(y: Program, turn: Turn, accepted: seq<Pointer>, retired: nat)
    requires Inv(y.core) && ProducingInv(y, accepted) && ConsumingInv(y, retired) && y.last >= 1 && turn.ConsumerTurn?
    requires retired <= |accepted|
    requires y.core.consumer.CDecrement? ==> y.core.consumer.pointer == retired + 1
    ensures ProducingInv(MoveConsuming(y, turn), accepted)
    ensures ConsumingInv(MoveConsuming(y, turn), retired + Size(Retires(y.core, CoreAction(y, turn))))
    ensures Publishes(y.core, CoreAction(y, turn)) == None
  {
  }

  lemma {:induction false} MoveKeepsInv(y: Program, turn: Turn, accepted: seq<Pointer>, retired: nat)
    requires Inv(y.core) && ProducingInv(y, accepted) && ConsumingInv(y, retired) && y.last >= 1
    requires retired <= |accepted|
    requires y.core.consumer.CDecrement? ==> y.core.consumer.pointer == retired + 1
    ensures ProducingInv(Move(y, turn), Extend(accepted, Publishes(y.core, CoreAction(y, turn))))
    ensures ConsumingInv(Move(y, turn), retired + Size(Retires(y.core, CoreAction(y, turn))))
  {
    match turn
    case ProducerTurn(_) => ProducingKeepsInv(y, turn, accepted, retired);
    case ConsumerTurn(_) => ConsumingKeepsInv(y, turn, accepted, retired);
  }

  ghost predicate ProgramInv(y: Program, accepted: seq<Pointer>, retired: nat) {
    ProducingInv(y, accepted) && ConsumingInv(y, retired)
  }

  ghost predicate InvHolds(y: Program, turns: Turns, t: nat) {
    var s, sched := y.core, CoreSchedule(y, turns);
    ProgramInv(ProgramAt(y, turns, t), Accepted(s, sched, t), Retired(s, sched, t))
  }

  lemma {:induction false} InvNext(y: Program, turns: Turns, t: nat)
    requires Start(y)
    requires InvHolds(y, turns, t)
    ensures InvHolds(y, turns, t + 1)
  {
    var s, sched, b := y.core, CoreSchedule(y, turns), ProgramAt(y, turns, t);
    CoreRuns(y, turns, t);
    LastStays(y, turns, t);
    RunInv(s, sched, t);
    CountAt(s, sched, t);
    ProgramNext(y, turns, t);
    if b.core.consumer.CDecrement? {
      RetiresNext(s, sched, t);
    }
    MoveKeepsInv(b, turns(t), Accepted(s, sched, t), Retired(s, sched, t));
  }

  lemma {:induction false} InvAt(y: Program, turns: Turns, t: nat)
    requires Start(y)
    ensures InvHolds(y, turns, t)
    ensures Retired(y.core, CoreSchedule(y, turns), t) <= Published(y.core, CoreSchedule(y, turns), t)
  {
    if t == 0 {
    } else {
      InvAt(y, turns, t - 1);
      InvNext(y, turns, t - 1);
    }
    RunInv(y.core, CoreSchedule(y, turns), t);
    CountAt(y.core, CoreSchedule(y, turns), t);
  }

  /**
   Shutdown safety: in every run, whoever is about to access a slot finds `p->storage`
   set and its block not freed, and the block is freed at most once.
   */
  lemma {:induction false} NoUseAfterFree(y: Program, turns: Turns, t: nat)
    requires Start(y)
    ensures var b := ProgramAt(y, turns, t);
            && (SlotAccess(b.core, CoreAction(b, turns(t))).Some? ==> b.live && b.storageSet)
            && b.frees <= 1
            && (b.consuming.DoneFree? ==> b.live)
            && (b.consuming.ConsumerQuit? ==> b.frees == 1 && !b.storageSet)
  {
    InvAt(y, turns, t);
    CoreRuns(y, turns, t);
    RunInv(y.core, CoreSchedule(y, turns), t);
  }

  /**
   Why: from the moment the consumer enters `done`, all that can be left of the producer
   is the return of its last write, because the increment was its last shared access.
   */
  lemma {:induction false} OnlyTheReturnIsLeft(y: Program, turns: Turns, t: nat)
    requires Start(y) && !ProgramAt(y, turns, t).consuming.Reading?
    ensures var b := ProgramAt(y, turns, t);
            b.producing.ProducerQuit? || (b.i == b.last && b.core.producer == PReturn(b.last, STORED))
    ensures var b := ProgramAt(y, turns, t);
            !Releases(b.core, CoreAction(b, turns(t))) && !Acquires(b.core, CoreAction(b, turns(t)))
  {
    InvAt(y, turns, t);
    CoreRuns(y, turns, t);
  }

  // ----- Happens-before

  /** Turn `j` hands the block back or clears the pointer to it. */
  ghost predicate EndsStorage(y: Program, turns: Turns, j: nat) {
    && turns(j).ConsumerTurn?
    && (ProgramAt(y, turns, j).consuming.DoneFree? || ProgramAt(y, turns, j).consuming.DoneClear?)
  }

  /** Nothing else frees the block or clears the pointer to it, in any state. */
  lemma {:induction false} OnlyDoneEndsStorage(y: Program, turns: Turns, j: nat)
    ensures var b, b' := ProgramAt(y, turns, j), ProgramAt(y, turns, j + 1);
            b'.live != b.live || b'.storageSet != b.storageSet || b'.frees != b.frees ==> EndsStorage(y, turns, j)
  {
    ProgramNext(y, turns, j);
  }

  /** A slot is accessed while a ticket up to the last one is still to be published or retired. */
  lemma {:induction false} AccessIsInTime(y: Program, turns: Turns, i: nat)
    requires Start(y) && SlotAccess(At(y.core, CoreSchedule(y, turns), i), CoreSchedule(y, turns)(i)).Some?
    ensures ThreadOf(CoreSchedule(y, turns)(i)) == Producer ==> Published(y.core, CoreSchedule(y, turns), i) < y.last
    ensures ThreadOf(CoreSchedule(y, turns)(i)) == Consumer ==> Retired(y.core, CoreSchedule(y, turns), i) < y.last
    ensures ThreadOf(CoreSchedule(y, turns)(i)) in {Producer, Consumer}
  {
    InvAt(y, turns, i);
    CoreRuns(y, turns, i);
    LastStays(y, turns, i);
  }

  lemma {:induction false} EndIsLate(y: Program, turns: Turns, j: nat)
    requires Start(y) && EndsStorage(y, turns, j)
    ensures ThreadOf(CoreSchedule(y, turns)(j)) == Consumer && Retired(y.core, CoreSchedule(y, turns), j) == y.last
  {
    InvAt(y, turns, j);
    LastStays(y, turns, j);
  }

  /**
   The counter orders the end of the storage too: every access to a slot, with the load of
   `p->storage` that goes with it, comes and happens before the block is freed and the
   pointer to it cleared.
   */
  lemma {:induction false} AccessesBeforeDone(y: Program, turns: Turns, i: nat, j: nat)
    requires Start(y) && EndsStorage(y, turns, j)
    requires SlotAccess(ProgramAt(y, turns, i).core, CoreAction(ProgramAt(y, turns, i), turns(i))).Some?
    ensures i < j && Before(y.core, CoreSchedule(y, turns), i, j)
  {
    var s, sched := y.core, CoreSchedule(y, turns);
    CoreRuns(y, turns, i);
    AccessIsInTime(y, turns, i);
    EndIsLate(y, turns, j);
    if ThreadOf(sched(i)) == Producer {
      Publication(s, sched, i, j, y.last - 1);
    } else {
      if j <= i {
        Monotone(s, sched, j, i);
        assert false;
      }
      assert SequencedBefore(sched, i, j);
    }
  }

  // ----- What was read

  /** What the reads of the consumer have returned so far, NULL aside. */
  function Stream(y: Program, turns: Turns, t: nat): seq<Pointer> {
    Fetched(Calls(Log(y.core, CoreSchedule(y, turns), t), Consumer))
  }

  lemma {:induction false} CountsUp(accepted: seq<Pointer>, delivered: seq<Pointer>, held: seq<Pointer>)
    requires accepted == delivered + held
    requires forall k | 0 <= k < |accepted| :: accepted[k] == k + 1
    ensures forall k | 0 <= k < |delivered| :: delivered[k] == k + 1
  {
    forall k | 0 <= k < |delivered| ensures delivered[k] == k + 1 {
      assert accepted[k] == delivered[k];
    }
  }

  /** Whenever it is done reading, the consumer has read 1 to `last`, once each and in order. */
  lemma {:induction false} AllIsRead(y: Program, turns: Turns, t: nat)
    requires Start(y) && !ProgramAt(y, turns, t).consuming.Reading?
    ensures |Stream(y, turns, t)| == y.last && forall k | 0 <= k < y.last :: Stream(y, turns, t)[k] == k + 1
  {
    var s, sched := y.core, CoreSchedule(y, turns);
    InvAt(y, turns, t);
    CoreRuns(y, turns, t);
    LastStays(y, turns, t);
    Deliveries(s, sched, t);
    DeliveredReturns(s, sched, t);
    CountsUp(Accepted(s, sched, t), Delivered(s, sched, t), Contents(At(s, sched, t)));
  }
}
