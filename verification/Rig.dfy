/** One workspace: the event loop, the simulated motor with its motor controller, and the goroutine
    that polls the floor sensor, as objects that run against each other. */
module Rigs {
  import opened Typedef
  import opened Cars
  import CarRun
  import opened Network
  import Nodes
  import Views
  import opened Motors
  import opened ClosedLoop
  import opened EventLoops
  import EndToEnd

  class Rig {
    const controller: EventLoop
    const motor: SimulatedMotor
    const sampler: FloorSampler

    ghost predicate Valid()
      reads this, controller, motor, sampler
    {
      controller.Valid() && motor.Valid() && sampler.lastFloor.Some?
    }

    ghost function View(): Loop
      reads this, controller, motor, motor.floorSensor, sampler
      requires Valid()
    {
      Loop(controller.View().Car(), motor.View(), sampler.lastFloor.value)
    }

    /** What every method keeps; it rules the exits of the simulator out. */
    ghost predicate Safe()
      reads this, controller, motor, motor.floorSensor, sampler
    {
      Valid() && LoopInv(View())
    }

    /** main.go:40-90: the first floor event is consumed by initialisation. */
    constructor (ip: IP, now: int)
      ensures Safe() && LoopInit(View()) && CarRun.Init(View().car)
      ensures fresh(controller) && fresh(motor) && fresh(motor.floorSensor) && fresh(sampler)
    {
      var m := new SimulatedMotor();
      var s := new FloorSampler();
      var first := s.Poll(m);
      assert m.floorSensor[..][1];
      var c := new EventLoop(ip, first.value, now);
      controller, motor, sampler := c, m, s;
      new;
      CarRun.InitInv(View().car);
    }

    /** The motor timer fires. The process does not end: the car is not driven out of the shaft. */
    method OnMotorTimer()
      requires Safe() && motor.timerPending && !ArrivalPending(View())
      modifies motor, motor.floorSensor
      ensures Safe() && LoopStep(old(View()), MotorTimer, View())
    {
      TimerSafe(View());
      var alive := motor.OnTimer();
      assert alive;
    }

    /** The motor controller obeys the commands that have been sent since there were `n`. */
    method Obey(n: nat)
      requires Valid() && n <= |controller.motorCommands| <= n + 1
      modifies motor
      ensures Valid() && motor.View() == if |controller.motorCommands| == n then old(motor.View())
                                         else old(motor.View()).Drive(controller.motorCommands[n])
    {
      if n < |controller.motorCommands| {
        motor.Drive(controller.motorCommands[n]);
      }
    }

    /** The floor sensor is polled; a new floor makes the controller decide, and a STOP reaches the
        motor before its timer can fire. */
    method OnPoll()
      requires Safe()
      modifies controller, motor, sampler
      ensures Safe()
      ensures old(ArrivalPending(View())) ==> LoopStep(old(View()), Sample, View())
      ensures !old(ArrivalPending(View())) ==> View() == old(View())
    {
      ghost var l := View();
      var floor := sampler.Poll(motor);
      if floor.Some? {
        SampleSafe(l);
        var n := |controller.motorCommands|;
        controller.OnFloorReached(floor.value);
        Obey(n);
        assert View() == AfterFloor(l, floor.value);
      }
    }

    /** The door timer fires, and the motor is started if there are orders. */
    method OnDoor()
      requires Safe() && controller.doorTimerPending
      modifies controller, motor
      ensures Safe() && LoopStep(old(View()), ClosedLoop.Door, View())
    {
      ghost var l := View();
      DoorSafe(l);
      var n := |controller.motorCommands|;
      controller.OnDoorTimeout();
      Obey(n);
      assert View() == AfterDoor(l);
    }

    /** Any other event at the controller: buttons, messages of the protocol, restore replies, timers. */
    method OnOther(e: NodeEvent, ghost s: Sys) returns (ghost s': Sys)
      requires Safe() && !e.FloorEvent? && !e.DoorEvent?
      requires Views.SysOk(s) && controller.localIP in s.nodes && s.nodes[controller.localIP] == controller.View()
      requires Enabled(controller.View(), e, s.orders, s.restores)
      modifies controller
      ensures Safe() && Steps(s, controller.localIP, e, s')
      ensures exists ev :: LoopStep(old(View()), Other(ev), View())
    {
      hide LoopInv, LoopStep, Next, Steps, Views.SysOk, EndToEnd.ServedBy, EndToEnd.TakenBy, CarRun.Sound;
      ghost var l, n := View(), controller.View();
      ghost var ev := OtherEvent(l, n, e);
      s' := controller.Handle(e, s);
      assert View() == l.(car := Next(n, e).node.Car());
    }
  }

  /** Such an event is a step of the closed loop in which the motor has no part. */
  lemma OtherEvent(l: Loop, n: Nodes.Node, e: NodeEvent) returns (ev: CarRun.Event)
    requires LoopInv(l) && n.Valid() && l.car == n.Car() && EndToEnd.Possible(n, e) && !e.FloorEvent? && !e.DoorEvent?
    ensures Next(n, e).node.Valid()
    ensures LoopStep(l, Other(ev), l.(car := Next(n, e).node.Car())) && LoopInv(l.(car := Next(n, e).node.Car()))
  {
    hide Next, CarRun.Step;
    EndToEnd.NodeRefinesCar(n, e);
    ev := EndToEnd.CarEvent(n, e);
    assert !ev.DoorClosed?;
    OtherSafe(l, ev, l.(car := Next(n, e).node.Car()));
  }
}
