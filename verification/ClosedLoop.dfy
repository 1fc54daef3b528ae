/** The controller of main.go driving the simulated motor, with the floor sensor in between. */
module ClosedLoop {
  import opened Typedef
  import opened Cars
  import opened CarRun
  import opened Motors

  /** `seen` is the floor that the sensor goroutine reported last. */
  datatype Loop = Loop(car: Car, plant: Plant, seen: Floor)

  datatype LoopEvent = MotorTimer | Sample | Door | Other(e: Event)

  /** A floor has been reached that the controller has not been told of. */
  predicate ArrivalPending(l: Loop) {
    var r := l.plant.Reading();
    r.Some? && r.value != l.seen
  }

  /** The controller's motor command on a floor event: STOP if it stops, none if it passes. */
  function AfterFloor(l: Loop, f: Floor): Loop {
    Loop(l.car.FloorReached(f).0, if l.car.StopsAt(f) then l.plant.Drive(Stop) else l.plant, f)
  }

  /** On the door event a command is sent if and only if there are orders. */
  function AfterDoor(l: Loop): Loop {
    var c := l.car.DoorTimeout();
    var closed := l.car.view.(localState := l.car.view.localState.(doorIsOpen := false));
    Loop(c, if closed.HaveOrders() then l.plant.Drive(c.Heading()) else l.plant, l.seen)
  }

  /** The one assumption on speed: a floor event, and the STOP it may cause, is handled before the
      car has left the sensor again. */
  predicate LoopStep(l: Loop, e: LoopEvent, l': Loop) {
    match e
    case MotorTimer =>
      && l.plant.timer && !ArrivalPending(l)
      && l.plant.TimerExpired().Some? && l' == l.(plant := l.plant.TimerExpired().value)
    case Sample => ArrivalPending(l) && l' == AfterFloor(l, l.plant.Reading().value)
    case Door => l.car.doorTimer && l' == AfterDoor(l)
    case Other(ev) => !ev.Arrival? && !ev.DoorClosed? && Step(l.car, ev, l'.car) && l' == l.(car := l'.car)
  }

  /** After `IOInit` and the first floor event, which initialisation itself consumes (main.go:79). */
  predicate LoopInit(l: Loop) {
    && Init(l.car) && l.car.At() == 1 && l.seen == 1
    && l.plant == Plant(StoppedAtFloor, Stop, false, Stop, 0, 1, seq(N_FLOORS, f => f == 1))
  }

  // ---------------------------------------------------------------- the invariant

  predicate InsideSensor(m: MotorState) {
    m == StoppedAtFloor || m == MovingUpInsideSensor || m == MovingDownInsideSensor
  }

  /** Inside a sensor exactly that sensor is set, between floors none. */
  predicate SensorsExact(p: Plant) {
    forall g: Floor :: p.sensors[g] <==> g == p.lastFloor && InsideSensor(p.motorState)
  }

  predicate Drives(p: Plant, d: Direction) {
    && p.timer && p.speed != 0 && p.unfinished == d && p.direction == d
    && (d == Up ==> p.motorState == MovingUp || p.motorState == MovingUpInsideSensor)
    && (d == Down ==> p.motorState == MovingDown || p.motorState == MovingDownInsideSensor)
  }

  predicate Stands(p: Plant) {
    p.motorState == StoppedAtFloor && !p.timer && p.speed == 0 && p.unfinished == Stop
  }

  /** The floors of controller and motor differ only while an arrival is pending. */
  predicate FloorsAgree(l: Loop) {
    && l.seen == l.car.At()
    && (l.plant.lastFloor == l.car.At()
        || (l.car.Moving() && InsideSensor(l.plant.motorState)
            && l.plant.lastFloor == l.car.At() + l.car.Heading().Delta()))
  }

  predicate LoopInv(l: Loop) {
    && Sound(l.car)
    && SensorsExact(l.plant)
    && (if l.car.Moving() then Drives(l.plant, l.car.Heading()) else Stands(l.plant))
    && FloorsAgree(l)
  }

  lemma ReadingExact(p: Plant)
    requires SensorsExact(p)
    ensures p.Reading() == if InsideSensor(p.motorState) then Some(p.lastFloor) else None
  {
    assert InsideSensor(p.motorState) ==> p.sensors[p.lastFloor];
  }

  /** With the invariant, the motor timer never ends the process. */
  lemma TimerSafe(l: Loop)
    requires LoopInv(l) && l.plant.timer && !ArrivalPending(l)
    ensures l.plant.TimerExpired().Some?
    ensures LoopInv(l.(plant := l.plant.TimerExpired().value))
  {
    ReadingExact(l.plant);
  }

  lemma SampleSafe(l: Loop)
    requires LoopInv(l) && ArrivalPending(l)
    ensures var l' := AfterFloor(l, l.plant.Reading().value);
            LoopInv(l') && Step(l.car, Arrival, l'.car)
  {
    ReadingExact(l.plant);
    ArriveSound(l.car);
  }

  lemma DoorSafe(l: Loop)
    requires LoopInv(l) && l.car.doorTimer
    ensures LoopInv(AfterDoor(l)) && Step(l.car, DoorClosed, AfterDoor(l).car)
  {
    DoorSound(l.car);
    DoorFacts(l.car);
    var closed := l.car.view.(localState := l.car.view.localState.(doorIsOpen := false));
    assert forall g: Floor, b: Button :: closed.Own(g, b) == l.car.view.Own(g, b);
    OwnMonotone(closed, l.car.view, l.car.At());
  }

  lemma OtherSafe(l: Loop, ev: Event, l': Loop)
    requires LoopInv(l) && LoopStep(l, Other(ev), l')
    ensures LoopInv(l')
  {
    StepSound(l.car, ev, l'.car);
    OthersDoNotMove(l.car, ev, l'.car);
  }

  lemma LoopStepInv(l: Loop, e: LoopEvent, l': Loop)
    requires LoopInv(l) && LoopStep(l, e, l')
    ensures LoopInv(l')
  {
    match e
    case MotorTimer => TimerSafe(l);
    case Sample => SampleSafe(l);
    case Door => DoorSafe(l);
    case Other(ev) => OtherSafe(l, ev, l');
  }

  ghost predicate LoopRun(ls: seq<Loop>, es: seq<LoopEvent>) {
    && |ls| == |es| + 1
    && forall i :: 0 <= i < |es| ==> LoopStep(ls[i], es[i], ls[i + 1])
  }

  lemma {:induction false} LoopRunInv(ls: seq<Loop>, es: seq<LoopEvent>, n: nat)
    requires LoopRun(ls, es) && LoopInit(ls[0]) && n < |ls|
    ensures LoopInv(ls[n])
  {
    if n == 0 {
      InitInv(ls[0].car);
    } else {
      LoopRunInv(ls, es, n - 1);
      assert LoopStep(ls[n - 1], es[n - 1], ls[n]);
      LoopStepInv(ls[n - 1], es[n - 1], ls[n]);
    }
  }

  /** Motion safety. In every reachable state of controller and motor: the motor timer does not
      drive the car over the top or under the edge; inside a sensor exactly that floor's sensor is
      set and between floors none; controller and motor agree on the floor unless an arrival is
      pending; and the motor moves as the controller believes. */
  lemma MotionSafety(ls: seq<Loop>, es: seq<LoopEvent>, n: nat)
    requires LoopRun(ls, es) && LoopInit(ls[0]) && n < |ls|
    ensures var l := ls[n];
            && (l.plant.timer && !ArrivalPending(l) ==> l.plant.TimerExpired().Some?)
            && SensorsExact(l.plant)
            && (l.plant.lastFloor != l.car.At() ==>
                  ArrivalPending(l) && l.plant.lastFloor == l.car.At() + l.car.Heading().Delta())
            && (l.car.Moving() <==> l.plant.speed != 0)
            && (l.car.Moving() ==> Drives(l.plant, l.car.Heading()))
  {
    LoopRunInv(ls, es, n);
    var l := ls[n];
    ReadingExact(l.plant);
    if l.plant.timer && !ArrivalPending(l) {
      TimerSafe(l);
    }
  }

  /** And motion progress: from every such state in which the car moves and no arrival is pending, one
      or two expiries of the motor timer bring the car to the sensor of the next floor. */
  lemma MotorArrives(l: Loop) returns (ls: seq<Loop>)
    requires LoopInv(l) && l.car.Moving() && !ArrivalPending(l)
    ensures 2 <= |ls| <= 3 && ls[0] == l && forall k :: 0 <= k < |ls| - 1 ==> LoopStep(ls[k], MotorTimer, ls[k + 1])
    ensures var l' := ls[|ls| - 1];
            && l'.car == l.car && LoopInv(l') && ArrivalPending(l')
            && l'.plant.Reading() == Some(l.car.At() + l.car.Heading().Delta())
            && exists l'' :: LoopStep(l', Sample, l'')
  {
    var m := MotorTurns(l);
    if ArrivalPending(m) {
      ls := [l, m];
    } else {
      var m' := MotorTurns(m);
      ls := [l, m, m'];
    }
    var l' := ls[|ls| - 1];
    ReadingExact(l'.plant);
    assert LoopStep(l', Sample, AfterFloor(l', l'.plant.Reading().value));
  }

  /** Leaving the sensor of a floor, or entering that of the next. */
  lemma MotorTurns(l: Loop) returns (l': Loop)
    requires LoopInv(l) && l.car.Moving() && !ArrivalPending(l)
    ensures LoopStep(l, MotorTimer, l') && LoopInv(l') && l'.car == l.car
    ensures InsideSensor(l.plant.motorState) <==> !InsideSensor(l'.plant.motorState)
    ensures ArrivalPending(l') <==> InsideSensor(l'.plant.motorState)
    ensures ArrivalPending(l') ==> l'.plant.lastFloor == l.car.At() + l.car.Heading().Delta()
  {
    ReadingExact(l.plant);
    TimerSafe(l);
    l' := l.(plant := l.plant.TimerExpired().value);
    ReadingExact(l'.plant);
  }

  /** What the car sees of a run of the loop. */
  function CarEvent(e: LoopEvent): Event
    requires !e.MotorTimer?
  {
    match e
    case Sample => Arrival
    case Door => DoorClosed
    case Other(ev) => ev
  }

  /** Refinement: every step of the loop is a step of the car machine, or the motor's own. So what
      is proved of the runs of a car holds of a car on the simulated motor. */
  lemma LoopRefinesCar(ls: seq<Loop>, es: seq<LoopEvent>, n: nat)
    requires LoopRun(ls, es) && LoopInit(ls[0]) && n < |es|
    ensures if es[n].MotorTimer? then ls[n + 1].car == ls[n].car
            else Step(ls[n].car, CarEvent(es[n]), ls[n + 1].car)
  {
    LoopRunInv(ls, es, n);
    assert LoopStep(ls[n], es[n], ls[n + 1]);
    if es[n].Sample? { SampleSafe(ls[n]); }
    if es[n].Door? { DoorSafe(ls[n]); }
  }
}
