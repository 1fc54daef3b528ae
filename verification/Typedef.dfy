/** The data model of src/typedef/typedef.go and the decisions a car takes on it.

    The number of floors is an arbitrary constant of at least two, and an IP address is an
    arbitrary string. Go arrays are values, so `[N_FLOORS]bool` and `[N_FLOORS][2]ElevOrder`
    become sequences of fixed length. */
module Typedef {

  type FloorCount = n: int | 2 <= n witness 4

  const N_FLOORS: FloorCount

  type Floor = f: int | 0 <= f < N_FLOORS witness 0

  predicate InShaft(x: int) {
    0 <= x < N_FLOORS
  }

  type IP = string

  datatype Option<+T> = None | Some(value: T)

  /** Motor commands, which are also directions of travel. */
  datatype Direction = Up | Stop | Down {
    function Delta(): int {
      match this
      case Up => 1
      case Stop => 0
      case Down => -1
    }
  }

  datatype Button = CallUp | CallDown | Command

  /** The two buttons outside the car; they index the second dimension of the order matrix. */
  type Hall = b: Button | b != Command witness CallUp

  /** The hall button that a car going in this direction answers. */
  function Towards(d: Direction): Option<Button> {
    match d
    case Up => Some(CallUp)
    case Down => Some(CallDown)
    case Stop => None
  }

  datatype Status = NotActive | Awaiting | UnderExecution

  datatype ElevOrder = ElevOrder(status: Status, assignedTo: IP, confirmedBy: set<IP>)

  const NO_ORDER := ElevOrder(NotActive, "", {})

  datatype Row = Row(up: ElevOrder, down: ElevOrder) {
    function Get(h: Hall): ElevOrder {
      if h == CallUp then up else down
    }

    function Set(h: Hall, o: ElevOrder): Row {
      if h == CallUp then Row(o, down) else Row(up, o)
    }
  }

  type Matrix = m: seq<Row> | |m| == N_FLOORS
    ghost witness seq(N_FLOORS, _ => Row(NO_ORDER, NO_ORDER))

  function Update(m: Matrix, f: Floor, h: Hall, o: ElevOrder): Matrix {
    m[f := m[f].Set(h, o)]
  }

  type Flags = s: seq<bool> | |s| == N_FLOORS
    ghost witness seq(N_FLOORS, _ => false)

  datatype ElevState = ElevState(
    localIP: IP, lastFloor: Floor, direction: Direction,
    isMoving: bool, doorIsOpen: bool, internalOrders: Flags)
  {
    predicate IsIdle() {
      !isMoving && direction == Stop
    }

    /** What the cost walk needs of a state so that it moves at all. */
    predicate Walkable() {
      isMoving ==> direction != Stop
    }
  }

  datatype Elevator = Elevator(state: ElevState, time: int)

  datatype ExtendedElevOrder = ExtendedElevOrder(floor: Floor, button: Hall, order: ElevOrder)

  datatype ExtendedElevState = ExtendedElevState(localState: ElevState, externalOrders: Matrix) {

    /** The order behind button `b` of floor `f` is this car's to serve. */
    predicate Own(f: Floor, b: Button) {
      if b == Command then localState.internalOrders[f]
      else externalOrders[f].Get(b).status == UnderExecution
           && externalOrders[f].Get(b).assignedTo == localState.localIP
    }

    predicate OwnAt(f: Floor) {
      Own(f, CallUp) || Own(f, CallDown) || Own(f, Command)
    }

    predicate OwnAbove(f: Floor) {
      exists g: int :: f < g < N_FLOORS && OwnAt(g)
    }

    predicate OwnBelow(f: Floor) {
      exists g: int :: 0 <= g < f && OwnAt(g)
    }

    predicate HaveOrdersAbove() {
      OwnAbove(localState.lastFloor)
    }

    predicate HaveOrdersBelow() {
      OwnBelow(localState.lastFloor)
    }

    predicate HaveOrdersAtCurrentFloor() {
      OwnAt(localState.lastFloor)
    }

    predicate HaveOrders() {
      HaveOrdersAbove() || HaveOrdersBelow() || HaveOrdersAtCurrentFloor()
    }

    function CreateFakeElev(f: Floor): ExtendedElevState {
      this.(localState := localState.(lastFloor := f))
    }

    predicate ShouldStop() {
      match localState.direction
      case Stop => true
      case Up =>
        || !HaveOrdersAbove()
        || Own(localState.lastFloor, Command)
        || Own(localState.lastFloor, CallUp)
        || localState.lastFloor == N_FLOORS - 1
      case Down =>
        || !HaveOrdersBelow()
        || Own(localState.lastFloor, Command)
        || Own(localState.lastFloor, CallDown)
        || localState.lastFloor == 0
    }

    /** The `fallthrough` cases of the source's switch, made explicit. */
    function GetNextDirection(): Direction {
      if !HaveOrders() then
        Stop
      else if localState.direction == Up && HaveOrdersAbove() && localState.lastFloor != N_FLOORS - 1 then
        Up
      else if localState.direction != Stop && HaveOrdersBelow() && localState.lastFloor != 0 then
        Down
      else if HaveOrdersAbove() then
        Up
      else if HaveOrdersBelow() then
        Down
      else
        Stop
    }

    function GetNextButtonDirection(): Option<Button> {
      Towards(GetNextDirection())
    }

    function SetOrder(f: Floor, h: Hall, o: ElevOrder): ExtendedElevState {
      this.(externalOrders := Update(externalOrders, f, h, o))
    }

    /** typedef.go:375-388. */
    method ScanOrdersAbove() returns (found: bool)
      ensures found == exists g: int :: localState.lastFloor < g < N_FLOORS && OwnAt(g)
    {
      var floor := N_FLOORS - 1;
      while floor > localState.lastFloor
        invariant localState.lastFloor <= floor < N_FLOORS
        invariant forall g: int :: floor < g < N_FLOORS ==> !OwnAt(g)
      {
        var own := ScanRow(floor);
        assert OwnAt(floor) == (localState.internalOrders[floor] || own);
        if localState.internalOrders[floor] {
          return true;
        }
        if own {
          return true;
        }
        floor := floor - 1;
      }
      return false;
    }

    /** typedef.go:390-403. */
    method ScanOrdersBelow() returns (found: bool)
      ensures found == exists g: int :: 0 <= g < localState.lastFloor && OwnAt(g)
    {
      var floor := 0;
      while floor < localState.lastFloor
        invariant 0 <= floor <= localState.lastFloor
        invariant forall g: int :: 0 <= g < floor ==> !OwnAt(g)
      {
        var own := ScanRow(floor);
        assert OwnAt(floor) == (localState.internalOrders[floor] || own);
        if localState.internalOrders[floor] {
          return true;
        }
        if own {
          return true;
        }
        floor := floor + 1;
      }
      return false;
    }

    /** typedef.go:405-422. */
    method AnyOrders() returns (found: bool)
      ensures found == HaveOrders()
    {
      var above := ScanOrdersAbove();
      if above {
        return true;
      }
      var below := ScanOrdersBelow();
      if below {
        return true;
      }
      var here := ScanRow(localState.lastFloor);
      return localState.internalOrders[localState.lastFloor] || here;
    }

    /** typedef.go:353-373. */
    method DecideStop() returns (stops: bool)
      ensures stops == ShouldStop()
    {
      var floor := localState.lastFloor;
      match localState.direction {
        case Stop =>
          return true;
        case Up =>
          var above := ScanOrdersAbove();
          return !above || Own(floor, Command) || Own(floor, CallUp) || floor == N_FLOORS - 1;
        case Down =>
          var below := ScanOrdersBelow();
          return !below || Own(floor, Command) || Own(floor, CallDown) || floor == 0;
      }
    }

    /** typedef.go:430-453. */
    method ChooseDirection() returns (d: Direction)
      ensures d == GetNextDirection()
    {
      var orders := AnyOrders();
      if !orders {
        return Stop;
      }
      var above := ScanOrdersAbove();
      if localState.direction == Up && above && localState.lastFloor != N_FLOORS - 1 {
        return Up;
      }
      var below := ScanOrdersBelow();
      if localState.direction != Stop && below && localState.lastFloor != 0 {
        return Down;
      }
      return if above then Up else if below then Down else Stop;
    }

    /** The inner loop over one row of the matrix, typedef.go:381-385. */
    method ScanRow(f: Floor) returns (found: bool)
      ensures found == (Own(f, CallUp) || Own(f, CallDown))
    {
      var row := [externalOrders[f].up, externalOrders[f].down];
      var k := 0;
      while k < |row|
        invariant 0 <= k <= |row|
        invariant 0 < k ==> !Own(f, CallUp)
        invariant 1 < k ==> !Own(f, CallDown)
      {
        if row[k].status == UnderExecution && row[k].assignedTo == localState.localIP {
          return true;
        }
        k := k + 1;
      }
      return false;
    }

    /** typedef.go:466-485: exactly the car's own hall orders at its floor, up before down. */
    function FindExternalOrdersAtCurrentFloor(): (list: seq<ExtendedElevOrder>)
      ensures forall x :: x in list ==>
                x.floor == localState.lastFloor && Own(x.floor, x.button)
                && x.order == externalOrders[x.floor].Get(x.button)
      ensures forall h: Hall :: Own(localState.lastFloor, h) ==> exists x :: x in list && x.button == h
    {
      var f := localState.lastFloor;
      var ups := if Own(f, CallUp) then [ExtendedElevOrder(f, CallUp, externalOrders[f].up)] else [];
      var downs := if Own(f, CallDown) then [ExtendedElevOrder(f, CallDown, externalOrders[f].down)] else [];
      assert Own(f, CallUp) ==> ExtendedElevOrder(f, CallUp, externalOrders[f].up) in ups + downs;
      assert Own(f, CallDown) ==> ExtendedElevOrder(f, CallDown, externalOrders[f].down) in ups + downs;
      ups + downs
    }
  }

  /** The next direction is STOP exactly when nothing waits above or below, and otherwise it
      points at a waiting order: the controller never drives away from all of its work. */
  lemma NextDirectionPointsAtWork(s: ExtendedElevState)
    ensures s.GetNextDirection() == Stop <==> !s.HaveOrdersAbove() && !s.HaveOrdersBelow()
    ensures s.GetNextDirection() == Up ==> s.HaveOrdersAbove()
    ensures s.GetNextDirection() == Down ==> s.HaveOrdersBelow()
    ensures s.localState.direction == Up && s.HaveOrdersAbove() ==> s.GetNextDirection() == Up
    ensures s.localState.direction == Down && s.HaveOrdersBelow() ==> s.GetNextDirection() == Down
  {
  }
}
