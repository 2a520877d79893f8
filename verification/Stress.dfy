/**
 The stress test (test/20-multithreaded/stress.c) as a closed system: a producer that
 fills in item after item and retries each write until it is accepted, and a consumer
 that retries each read until it gets an item and then checks it, under any schedule.
 */
module Stress {
  import opened Pointers
  import opened Machine
  import opened Invariant
  import opened Tickets

  // ----- Items

  datatype Payload = Payload(sequence: int, check: int, pad0: int, pad5: int)

  /** `~x` */
  function Complement(x: int): int {
    -x - 1
  }

  /** What the producer makes of item `i`. */
  function Good(i: int): Payload {
    Payload(i, Complement(i), i * 3, i * 7)
  }

  const FIELDS: nat := 4

  /** One of the four stores of stress.c:49-52. */
  function SetField(p: Payload, field: nat, i: int): Payload {
    match field
    case 0 => p.(sequence := i)
    case 1 => p.(check := Complement(i))
    case 2 => p.(pad0 := i * 3)
    case _ => p.(pad5 := i * 7)
  }

  /** One of the four tests of stress.c:87-94. */
  predicate FieldPasses(p: Payload, field: nat, expected: int) {
    match field
    case 0 => p.sequence == expected
    case 1 => p.check == Complement(p.sequence)
    case 2 => p.pad0 == p.sequence * 3
    case _ => p.pad5 == p.sequence * 7
  }

  /** The four stores make item `i` of anything, and the four tests let nothing else through. */
  lemma {:induction false} StoresAndChecksMatch(p: Payload, i: int)
    ensures SetField(SetField(SetField(SetField(p, 0, i), 1, i), 2, i), 3, i) == Payload(i, -i - 1, 3 * i, 7 * i)
    ensures (forall field: nat | field < FIELDS :: FieldPasses(p, field, i)) <==> p == Payload(i, -i - 1, 3 * i, 7 * i)
    ensures Good(i) == Payload(i, -i - 1, 3 * i, 7 * i)
  {
    if forall field: nat | field < FIELDS :: FieldPasses(p, field, i) {
      assert FieldPasses(p, 0, i) && FieldPasses(p, 1, i) && FieldPasses(p, 2, i) && FieldPasses(p, 3, i);
    }
  }

  /** `&items[ i]` */
  function Address(i: nat): (p: Pointer)
    ensures p != NULL
  {
    i + 1
  }

  /** What a pointer points to; anything may be at an address that is not an item's. */
  function Pointee(items: seq<Payload>, p: Pointer): Payload {
    if 0 < p <= |items| then items[p - 1] else Payload(0, 0, 0, 0)
  }

  // ----- The two programs

  datatype ProducerClient = Filling(field: nat) | Writing | ProducerDone

  datatype ConsumerClient = Reading | Checking(pointer: Pointer, field: nat) | ConsumerDone

  datatype System = System(core: State, items: seq<Payload>,
                           producing: ProducerClient, i: nat,
                           consuming: ConsumerClient, received: nat, expected: nat, corrupt: nat)

  datatype Turn = ProducerTurn | ConsumerTurn

  type Turns = nat -> Turn

  function NextItem(i: nat, count: nat): ProducerClient {
    if i < count then Filling(0) else ProducerDone
  }

  function NextRead(received: nat, count: nat): ConsumerClient {
    if received < count then Reading else ConsumerDone
  }

  ghost predicate Start(y: System) {
    && Initial(y.core)
    && y.i == 0 && y.producing == NextItem(0, |y.items|)
    && y.received == 0 && y.expected == 0 && y.corrupt == 0 && y.consuming == NextRead(0, |y.items|)
  }

  /** What the thread whose turn it is does to the FIFO. */
  function CoreAction(y: System, turn: Turn): Action {
    match turn
    case ProducerTurn =>
      if !y.producing.Writing? then ProducerWork
      else if y.core.producer.PIdle? then ProducerCall(Address(y.i)) else ProducerStep
    case ConsumerTurn =>
      if !y.consuming.Reading? then ConsumerWork
      else if y.core.consumer.CIdle? then ConsumerCall else ConsumerStep
  }

  /** stress.c:46-56 */
  function MoveProducing(y: System): System {
    match y.producing
    case Filling(field) =>
      if y.i < |y.items| then
        y.(items := y.items[y.i := SetField(y.items[y.i], field, y.i)],
           producing := if field + 1 < FIELDS then Filling(field + 1) else Writing)
      else y
    case Writing =>
      var y' := y.(core := Step(y.core, CoreAction(y, ProducerTurn)));
      if y.core.producer.PReturn? && y.core.producer.status != FULL
      then y'.(i := y.i + 1, producing := NextItem(y.i + 1, |y.items|))
      else y'
    case ProducerDone => y
  }

  /** stress.c:78-98 */
  function MoveConsuming(y: System): System {
    match y.consuming
    case Reading =>
      var y' := y.(core := Step(y.core, CoreAction(y, ConsumerTurn)));
      if y.core.consumer.CReturn? && y.core.consumer.pointer != NULL
      then y'.(consuming := Checking(y.core.consumer.pointer, 0))
      else y'
    case Checking(p, field) =>
      var y' := y.(corrupt := if FieldPasses(Pointee(y.items, p), field, y.expected) then y.corrupt else y.corrupt + 1);
      if field + 1 < FIELDS then y'.(consuming := Checking(p, field + 1))
      else y'.(expected := y.expected + 1, received := y.received + 1, consuming := NextRead(y.received + 1, |y.items|))
    case ConsumerDone => y
  }

  function Move(y: System, turn: Turn): System {
    match turn
    case ProducerTurn => MoveProducing(y)
    case ConsumerTurn => MoveConsuming(y)
  }

  // ----- What the programs do with the items, in any state

  function WithItem(y: System, k: nat, p: Payload): System
    requires k < |y.items|
  {
    y.(items := y.items[k := p])
  }

  /** The item this turn accesses, and whether it stores. */
  function ItemAccess(y: System, turn: Turn): Option<(nat, bool)> {
    match turn
    case ProducerTurn => if y.producing.Filling? && y.i < |y.items| then Some((y.i, true)) else None
    case ConsumerTurn =>
      if y.consuming.Checking? && 0 < y.consuming.pointer <= |y.items|
      then Some((y.consuming.pointer - 1, false)) else None
  }

  /** Nothing but a store that is reported changes an item, in any state. */
  lemma {:induction false} ItemStoresAreReported(y: System, turn: Turn, k: nat)
    requires k < |y.items|
    ensures |Move(y, turn).items| == |y.items|
    ensures Move(y, turn).items[k] != y.items[k] ==> ItemAccess(y, turn) == Some((k, true))
  {
  }

  /** Nothing but a load that is reported depends on what is in an item, in any state. */
  lemma {:induction false} ItemLoadsAreReported(y: System, turn: Turn, k: nat, p: Payload)
    requires k < |y.items| && ItemAccess(y, turn) != Some((k, false))
    ensures var x, z := Move(WithItem(y, k, p), turn), Move(y, turn);
            |x.items| == |z.items| == |y.items| && x == WithItem(z, k, x.items[k])
  {
    var x, z := Move(WithItem(y, k, p), turn), Move(y, turn);
    assert x.items == z.items[k := x.items[k]];
  }

  /** Four turns fill in the item, whatever was there, and only then is it written to the FIFO. */
  lemma {:induction false} FourTurnsFill(y: System)
    requires y.producing == Filling(0) && y.i < |y.items|
    ensures var y' := Move(Move(Move(Move(y, ProducerTurn), ProducerTurn), ProducerTurn), ProducerTurn);
            var i: int := y.i;
            y' == y.(items := y.items[y.i := Payload(i, -i - 1, 3 * i, 7 * i)], producing := Writing)
  {
    var y1 := Move(y, ProducerTurn);
    var y2 := Move(y1, ProducerTurn);
    var y3 := Move(y2, ProducerTurn);
    var y4 := Move(y3, ProducerTurn);
    assert y4.items == y.items[y.i := y4.items[y.i]];
  }

  /** Four turns check the item, and exactly an item that is not what it should be raises `corrupt`. */
  lemma {:induction false} FourTurnsCheck(y: System, p: Pointer)
    requires y.consuming == Checking(p, 0)
    ensures var y' := Move(Move(Move(Move(y, ConsumerTurn), ConsumerTurn), ConsumerTurn), ConsumerTurn);
            var i: int := y.expected;
            && y'.received == y.received + 1 && y'.expected == y.expected + 1
            && y'.corrupt >= y.corrupt
            && (y'.corrupt == y.corrupt <==> Pointee(y.items, p) == Payload(i, -i - 1, 3 * i, 7 * i))
  {
    var y1 := Move(y, ConsumerTurn);
    var y2 := Move(y1, ConsumerTurn);
    var y3 := Move(y2, ConsumerTurn);
    var y4 := Move(y3, ConsumerTurn);
  }

  /** A write that returns -1, and no other, is tried again with the same item. */
  lemma {:induction false} OnlyFullIsRetried(y: System)
    requires y.producing.Writing? && y.core.producer.PReturn?
    ensures var y' := Move(y, ProducerTurn);
            if y.core.producer.status == -1 then y'.producing == Writing && y'.i == y.i
            else y'.i == y.i + 1 && y'.producing == if y'.i < |y.items| then Filling(0) else ProducerDone
  {
  }

  /** Each failed check counts, and nothing else does. */
  lemma {:induction false} FailedChecksCount(y: System, turn: Turn)
    ensures Move(y, turn).corrupt == y.corrupt +
            if turn.ConsumerTurn? && y.consuming.Checking?
               && !FieldPasses(Pointee(y.items, y.consuming.pointer), y.consuming.field, y.expected) then 1 else 0
  {
  }

  // ----- Runs

  /** The system before turn `t`. */
  function SystemAt(y: System, turns: Turns, t: nat): System
    decreases t, 0
  {
    if t == 0 then y else SystemAfter(y, turns, t - 1)
  }

  function SystemAfter(y: System, turns: Turns, t: nat): System
    decreases t, 1
  {
    Move(SystemAt(y, turns, t), turns(t))
  }

  lemma {:induction false} SystemNext(y: System, turns: Turns, t: nat)
    ensures SystemAt(y, turns, t + 1) == Move(SystemAt(y, turns, t), turns(t))
  {
  }

  /** The schedule of the FIFO that these turns amount to. */
  function CoreSchedule(y: System, turns: Turns): Schedule {
    (t: nat) => CoreAction(SystemAt(y, turns, t), turns(t))
  }

  lemma {:induction false} MoveIsCoreStep(y: System, turn: Turn)
    ensures Move(y, turn).core == Step(y.core, CoreAction(y, turn))
  {
  }

  /** A run of the system is a run of the machine, turn by turn. */
  lemma {:induction false} CoreRuns(y: System, turns: Turns, t: nat)
    ensures SystemAt(y, turns, t).core == At(y.core, CoreSchedule(y, turns), t)
  {
    var cores := (k: nat) => SystemAt(y, turns, k).core;
    forall k: nat ensures Follows(cores, CoreSchedule(y, turns), k) {
      SystemNext(y, turns, k);
      MoveIsCoreStep(SystemAt(y, turns, k), turns(k));
    }
    FollowsIsRun(cores, CoreSchedule(y, turns), t);
  }

  // ----- The invariant of the closed system

  predicate FilledUpTo(p: Payload, field: nat, i: int) {
    && (field > 0 ==> p.sequence == i)
    && (field > 1 ==> p.check == Complement(i))
    && (field > 2 ==> p.pad0 == i * 3)
    && (field > 3 ==> p.pad5 == i * 7)
  }

  ghost predicate ProducingInv(y: System, accepted: seq<Pointer>) {
    && (forall k | 0 <= k < |accepted| :: accepted[k] == Address(k))
    && y.i <= |y.items|
    && (forall k | 0 <= k < y.i :: y.items[k] == Good(k))
    && match y.producing
       case Filling(field) =>
         && y.i < |y.items| && field < FIELDS && y.core.producer.PIdle?
         && |accepted| == y.i && FilledUpTo(y.items[y.i], field, y.i)
       case Writing =>
         && y.i < |y.items| && y.items[y.i] == Good(y.i)
         && (!y.core.producer.PIdle? ==> y.core.producer.pointer == Address(y.i))
         && |accepted| == y.i + Size(WriteInFlight(y.core))
       case ProducerDone =>
         y.core.producer.PIdle? && |accepted| == y.i == |y.items|
  }

  ghost predicate ConsumingInv(y: System, retired: nat) {
    && y.expected == y.received && y.corrupt == 0
    && match y.consuming
       case Reading =>
         && y.received < |y.items| && retired == y.received + Size(ReadInFlight(y.core))
         && (y.core.consumer.CReturn? && y.core.consumer.pointer != NULL ==>
               y.core.consumer.pointer == Address(y.received))
       case Checking(p, field) =>
         && y.received < |y.items| && field < FIELDS && y.core.consumer.CIdle?
         && retired == y.received + 1 && p == Address(y.received)
       case ConsumerDone =>
         y.core.consumer.CIdle? && retired == y.received == |y.items|
  }

  ghost predicate SystemInv(y: System, accepted: seq<Pointer>, retired: nat) {
    ProducingInv(y, accepted) && ConsumingInv(y, retired) && retired <= |accepted|
  }

  lemma {:induction false} ProducingKeepsInv(y: System, accepted: seq<Pointer>, retired: nat)
    requires Inv(y.core) && SystemInv(y, accepted, retired)
    ensures ProducingInv(MoveProducing(y), Extend(accepted, Publishes(y.core, CoreAction(y, ProducerTurn))))
    ensures ConsumingInv(MoveProducing(y), retired)
    ensures Retires(y.core, CoreAction(y, ProducerTurn)) == None
  {
  }

  /** The item being checked has been filled in completely and not been touched since. */
  lemma {:induction false} CheckingKeepsInv(y: System, accepted: seq<Pointer>, retired: nat)
    requires SystemInv(y, accepted, retired) && y.consuming.Checking?
    ensures Pointee(y.items, y.consuming.pointer) == Good(y.received)
    ensures ProducingInv(MoveConsuming(y), accepted) && ConsumingInv(MoveConsuming(y), retired)
  {
    assert y.received < |accepted|;
  }

  lemma {:induction false} ConsumingKeepsInv(y: System, accepted: seq<Pointer>, retired: nat)
    requires Inv(y.core) && SystemInv(y, accepted, retired)
    requires y.core.consumer.CDecrement? ==> y.core.consumer.pointer == Address(retired)
    ensures ProducingInv(MoveConsuming(y), accepted)
    ensures ConsumingInv(MoveConsuming(y), retired + Size(Retires(y.core, CoreAction(y, ConsumerTurn))))
    ensures Publishes(y.core, CoreAction(y, ConsumerTurn)) == None
  {
    if y.consuming.Checking? {
      CheckingKeepsInv(y, accepted, retired);
    }
  }
}
