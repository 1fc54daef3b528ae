/** The simulated motor of src/simulatorCore/simulatorCore.go, with the motor controller and the
    floor sensor of src/elev/elev.go. Durations are left out: a timer is pending or not. */
module Motors {
  import opened Typedef

  datatype MotorState =
    | StoppedBetweenFloors
    | StoppedAtFloor
    | StoppedInsideSensor
    | MovingUp
    | MovingDown
    | MovingUpInsideSensor
    | MovingDownInsideSensor

  const FULL_SPEED := 2800

  function Opposite(d: Direction): Direction {
    match d
    case Up => Down
    case Stop => Stop
    case Down => Up
  }

  datatype Plant = Plant(
    motorState: MotorState, unfinished: Direction, timer: bool,
    direction: Direction, speed: nat, lastFloor: Floor, sensors: Flags)
  {
    /** A command from the motor channel, simulatorCore.go:78-146. */
    function Command(v: nat, d: Direction): Plant {
      match motorState
      case StoppedBetweenFloors =>
        if v != 0 && d != Stop then
          this.(timer := timer || unfinished != Stop, motorState := if d == Up then MovingUp else MovingDown)
        else this
      case StoppedAtFloor =>
        if v != 0 && d != Stop then
          if direction == Up then this.(timer := true, motorState := MovingUpInsideSensor, unfinished := Up)
          else this.(timer := true, motorState := MovingDownInsideSensor, unfinished := Down)
        else this
      case StoppedInsideSensor =>
        this
      case MovingUp => InShaftCommand(v, d)
      case MovingDown => InShaftCommand(v, d)
      case MovingUpInsideSensor => InSensorCommand(v, d)
      case MovingDownInsideSensor => InSensorCommand(v, d)
    }

    function InShaftCommand(v: nat, d: Direction): Plant {
      if v == 0 then this.(motorState := StoppedBetweenFloors)
      else if d == Opposite(unfinished) && d != Stop then
        this.(unfinished := d, timer := true, motorState := if d == Up then MovingUp else MovingDown)
      else this
    }

    function InSensorCommand(v: nat, d: Direction): Plant {
      if v == 0 then this.(motorState := StoppedAtFloor, timer := false, unfinished := Stop)
      else if d == Opposite(unfinished) && d != Stop then
        this.(unfinished := d, timer := true,
              motorState := if d == Up then MovingUpInsideSensor else MovingDownInsideSensor)
      else this
    }

    /** The motor timer fires, simulatorCore.go:153-201. `None` is the end of the process: the
        elevator was driven over the top or under the edge, or past the sensor array. */
    function TimerExpired(): Option<Plant> {
      match motorState
      case MovingUp =>
        if lastFloor == N_FLOORS - 1 then None
        else Some(this.(motorState := MovingUpInsideSensor, timer := true,
                        lastFloor := lastFloor + 1, sensors := sensors[lastFloor + 1 := true]))
      case MovingDown =>
        if lastFloor == 0 then None
        else Some(this.(motorState := MovingDownInsideSensor, timer := true,
                        lastFloor := lastFloor - 1, sensors := sensors[lastFloor - 1 := true]))
      case MovingUpInsideSensor =>
        if lastFloor < N_FLOORS - 1 then
          Some(this.(motorState := MovingUp, timer := true, sensors := sensors[lastFloor := false]))
        else None
      case MovingDownInsideSensor =>
        if lastFloor > 0 then
          Some(this.(motorState := MovingDown, timer := true, sensors := sensors[lastFloor := false]))
        else None
      case _ => Some(this.(timer := false))
    }

    /** `IO_set_bit(MOTORDIR)` and `IO_clear_bit(MOTORDIR)`, simulatorCore.go:296-300 and 337-341. */
    function SetDirection(d: Direction): Plant {
      var p := this.(direction := d);
      if speed != 0 then p.Command(speed, d) else p
    }

    /** `IO_write_analog(MOTOR, v)`, simulatorCore.go:350-357. */
    function WriteSpeed(v: nat): Plant {
      this.(speed := v).Command(v, direction)
    }

    /** `motorController`, elev.go:139-158. */
    function Drive(d: Direction): Plant {
      if d == Stop then WriteSpeed(0) else SetDirection(d).WriteSpeed(FULL_SPEED)
    }

    /** `getFloorSensor`, elev.go:181-193: the lowest sensor that is set. */
    function Reading(): Option<Floor> { FirstSet(sensors, 0) }
  }

  function FirstSet(s: Flags, from: int): (r: Option<Floor>)
    requires 0 <= from <= N_FLOORS
    ensures r.None? ==> forall g :: from <= g < N_FLOORS ==> !s[g]
    ensures r.Some? ==> from <= r.value && s[r.value] && forall g :: from <= g < r.value ==> !s[g]
    decreases N_FLOORS - from
  {
    if from == N_FLOORS then None
    else if s[from] then Some(from)
    else FirstSet(s, from + 1)
  }

  /** Why a car must not be stopped or turned between floors (it never is in the closed loop): a stop
      leaves the timer running, and the timer of a stopped motor only goes off... */
  lemma StopBetweenFloors(p: Plant, d: Direction)
    requires p.motorState == MovingUp || p.motorState == MovingDown
    ensures p.Command(0, d) == p.(motorState := StoppedBetweenFloors)
    ensures p.Command(0, d).TimerExpired() == Some(p.(motorState := StoppedBetweenFloors, timer := false))
  {
  }

  /** ...and a car that is turned after it left a floor does not come back to it, but to the floor behind,
      or it ends the process there. */
  lemma TurnBetweenFloors(p: Plant, v: nat)
    requires (p.motorState == MovingUp && p.unfinished == Up) || (p.motorState == MovingDown && p.unfinished == Down)
    requires v > 0
    ensures var d := Opposite(p.unfinished);
            var r := p.Command(v, d).TimerExpired();
            if InShaft(p.lastFloor + d.Delta())
            then r.Some? && r.value.lastFloor == p.lastFloor + d.Delta() && r.value.sensors[p.lastFloor + d.Delta()]
            else r.None?
  {
  }

  /** The goroutine `simulatedMotor` with the global `elevator` record it updates. */
  class SimulatedMotor {
    var motorState: MotorState
    var unfinishedDirection: Direction
    var timerPending: bool
    var direction: Direction
    var motorSpeed: nat
    var lastFloor: Floor
    const floorSensor: array<bool>

    ghost predicate Valid()
      reads this
    {
      floorSensor.Length == N_FLOORS
    }

    ghost function View(): Plant
      reads this, floorSensor
      requires Valid()
    {
      Plant(motorState, unfinishedDirection, timerPending, direction, motorSpeed, lastFloor, floorSensor[..])
    }

    /** `IOInit`, simulatorCore.go:33-36, and the start of `simulatedMotor`: at floor 1. */
    constructor ()
      ensures Valid() && fresh(floorSensor)
      ensures View() == Plant(StoppedAtFloor, Stop, false, Stop, 0, 1, seq(N_FLOORS, f => f == 1))
    {
      motorState, unfinishedDirection, timerPending := StoppedAtFloor, Stop, false;
      direction, motorSpeed, lastFloor := Stop, 0, 1;
      floorSensor := new bool[N_FLOORS](f => f == 1);
    }

    method OnCommand(speed: nat, dir: Direction)
      requires Valid()
      modifies this`motorState, this`unfinishedDirection, this`timerPending
      ensures Valid() && View() == old(View()).Command(speed, dir)
    {
      match motorState {
        case StoppedBetweenFloors =>
          if speed != 0 && dir != Stop {
            if dir == unfinishedDirection {
              timerPending := true;
            } else if dir == Opposite(unfinishedDirection) {
              timerPending := true;
            }
            if dir == Up {
              motorState := MovingUp;
            } else {
              motorState := MovingDown;
            }
          }
        case StoppedAtFloor =>
          if speed != 0 && dir != Stop {
            timerPending := true;
            if direction == Up {
              motorState, unfinishedDirection := MovingUpInsideSensor, Up;
            } else {
              motorState, unfinishedDirection := MovingDownInsideSensor, Down;
            }
          }
        case MovingUp | MovingDown =>
          if speed == 0 {
            motorState := StoppedBetweenFloors;
          } else if dir == Opposite(unfinishedDirection) && dir != Stop {
            unfinishedDirection, timerPending := dir, true;
            if dir == Up {
              motorState := MovingUp;
            } else {
              motorState := MovingDown;
            }
          }
        case MovingUpInsideSensor | MovingDownInsideSensor =>
          if speed == 0 {
            motorState, timerPending, unfinishedDirection := StoppedAtFloor, false, Stop;
          } else if dir == Opposite(unfinishedDirection) && dir != Stop {
            unfinishedDirection, timerPending := dir, true;
            if dir == Up {
              motorState := MovingUpInsideSensor;
            } else {
              motorState := MovingDownInsideSensor;
            }
          }
        case StoppedInsideSensor =>
      }
    }

    /** Returns false where the source ends the process; the state is then left as it was. */
    method OnTimer() returns (alive: bool)
      requires Valid()
      modifies this`motorState, this`timerPending, this`lastFloor, floorSensor
      ensures Valid() && alive == old(View()).TimerExpired().Some?
      ensures alive ==> View() == old(View()).TimerExpired().value
      ensures !alive ==> View() == old(View())
    {
      match motorState {
        case MovingUp =>
          if lastFloor == N_FLOORS - 1 {
            return false;
          }
          motorState, timerPending, lastFloor := MovingUpInsideSensor, true, lastFloor + 1;
          floorSensor[lastFloor] := true;
        case MovingDown =>
          if lastFloor == 0 {
            return false;
          }
          motorState, timerPending, lastFloor := MovingDownInsideSensor, true, lastFloor - 1;
          floorSensor[lastFloor] := true;
        case MovingUpInsideSensor =>
          if lastFloor < N_FLOORS - 1 {
            motorState, timerPending := MovingUp, true;
            floorSensor[lastFloor] := false;
          } else {
            return false;
          }
        case MovingDownInsideSensor =>
          if lastFloor > 0 {
            motorState, timerPending := MovingDown, true;
            floorSensor[lastFloor] := false;
          } else {
            return false;
          }
        case StoppedAtFloor | StoppedBetweenFloors | StoppedInsideSensor =>
          timerPending := false;
      }
      return true;
    }

    method SetDirection(d: Direction)
      requires Valid()
      modifies this
      ensures Valid() && View() == old(View()).SetDirection(d)
    {
      direction := d;
      if motorSpeed != 0 {
        OnCommand(motorSpeed, direction);
      }
    }

    method WriteSpeed(v: nat)
      requires Valid()
      modifies this
      ensures Valid() && View() == old(View()).WriteSpeed(v)
    {
      motorSpeed := v;
      OnCommand(motorSpeed, direction);
    }

    method Drive(command: Direction)
      requires Valid()
      modifies this
      ensures Valid() && View() == old(View()).Drive(command)
    {
      match command {
        case Stop =>
          WriteSpeed(0);
        case Up =>
          SetDirection(Up);
          WriteSpeed(FULL_SPEED);
        case Down =>
          SetDirection(Down);
          WriteSpeed(FULL_SPEED);
      }
    }

    method GetFloorSensor() returns (r: Option<Floor>)
      requires Valid()
      ensures r == View().Reading()
    {
      var f := 0;
      while f < N_FLOORS
        invariant 0 <= f <= N_FLOORS
        invariant View().Reading() == FirstSet(floorSensor[..], f)
      {
        if floorSensor[f] {
          return Some(f);
        }
        f := f + 1;
      }
      return None;
    }
  }

  /** `readFloorSensor`, elev.go:95-106: reports a floor when the reading changes to it. */
  class FloorSampler {
    var lastFloor: Option<Floor>

    constructor ()
      ensures lastFloor == None
    {
      lastFloor := None;
    }

    method Poll(motor: SimulatedMotor) returns (event: Option<Floor>)
      requires motor.Valid()
      modifies this
      ensures var r := motor.View().Reading();
              && event == (if r.Some? && r != old(lastFloor) then r else None)
              && lastFloor == (if r.Some? then r else old(lastFloor))
    {
      event := None;
      var tempFloor := motor.GetFloorSensor();
      if tempFloor.Some? && tempFloor != lastFloor {
        lastFloor := tempFloor;
        event := tempFloor;
      }
    }
  }
}
