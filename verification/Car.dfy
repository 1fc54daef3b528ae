/** One car: its published state, its copy of the order matrix, the door timer, the door lamp and
    the last motor command, with what each event of the loop in main.go does to them.

    The door timer is one pending slot: `Reset` arms it, whatever was pending before. */
module Cars {
  import opened Typedef

  datatype Car = Car(view: ExtendedElevState, doorTimer: bool, doorLamp: bool, motor: Direction) {

    function Ip(): IP { view.localState.localIP }

    function At(): Floor { view.localState.lastFloor }

    function Heading(): Direction { view.localState.direction }

    predicate Moving() { view.localState.isMoving }

    function WithState(s: ElevState): Car { this.(view := view.(localState := s)) }

    /** BUTTON_COMMAND, main.go:545-560. */
    function InternalButton(f: Floor): Car {
      var s := view.localState;
      if !s.isMoving && s.lastFloor == f then
        WithState(s.(doorIsOpen := true)).(doorLamp := true, doorTimer := true)
      else
        WithState(s.(internalOrders := s.internalOrders[f := true]))
          .(doorTimer := doorTimer || (s.IsIdle() && !s.doorIsOpen))
    }

    function Slot(f: Floor, h: Hall): ElevOrder { view.externalOrders[f].Get(h) }

    /** EvOrderConfirmed in status Awaiting, main.go:302-343: the new car, and whether it serves
        the order on the spot and reports EvOrderDone. */
    function Confirm(f: Floor, h: Hall, assignee: IP): (Car, bool) {
      var s := view.localState;
      var order := Slot(f, h);
      var taken := view.SetOrder(f, h, order.(status := UnderExecution));
      var cleared := view.SetOrder(f, h, order.(status := NotActive));
      if assignee != Ip() then
        (this.(view := taken), false)
      else if s.IsIdle() && s.lastFloor == f then
        (Car(cleared.(localState := s.(doorIsOpen := true)), true, true, motor), true)
      else if !s.isMoving && s.lastFloor == f
              && (taken.GetNextDirection() == Stop || taken.GetNextButtonDirection() == Some(h)) then
        (Car(cleared.(localState := s.(doorIsOpen := true)), true, doorLamp, motor), true)
      else if s.IsIdle() && !s.doorIsOpen then
        (this.(view := taken, doorTimer := true), false)
      else
        (this.(view := taken), false)
    }

    /** The car stops on a floor event for `f`. */
    predicate StopsAt(f: Floor) {
      view.(localState := view.localState.(lastFloor := f)).ShouldStop()
    }

    /** A floor event, main.go:572-613: the new car, and the hall orders reported done. */
    function FloorReached(f: Floor): (Car, seq<ExtendedElevOrder>) {
      var s := view.localState.(lastFloor := f);
      var here := view.(localState := s);
      if !StopsAt(f) then
        (this.(view := here), [])
      else
        var s' := s.(isMoving := false, internalOrders := s.internalOrders[f := false]);
        var orders := here.(localState := s').FindExternalOrdersAtCurrentFloor();
        (Car(ExtendedElevState(s', ClearAll(view.externalOrders, orders)), true, true, Stop), orders)
    }

    /** The door timer fires, main.go:622-639. */
    function DoorTimeout(): Car {
      var s := view.localState.(doorIsOpen := false);
      var closed := view.(localState := s);
      if closed.HaveOrders() then
        var dir := closed.GetNextDirection();
        Car(closed.(localState := s.(direction := dir, isMoving := dir != Stop)), false, false, dir)
      else
        Car(closed.(localState := s.(direction := Stop, isMoving := false)), false, false, motor)
    }
  }

  /** The loop over the served orders, main.go:584-611, as it changes the matrix. */
  function ClearAll(m: Matrix, orders: seq<ExtendedElevOrder>): Matrix
    decreases |orders|
  {
    if orders == [] then m
    else ClearAll(Update(m, orders[0].floor, orders[0].button, NO_ORDER), orders[1..])
  }

  // ---------------------------------------------------------------- effect on the own orders

  lemma {:induction false} ClearAllSlot(m: Matrix, orders: seq<ExtendedElevOrder>, g: Floor, h: Hall)
    ensures (exists x :: x in orders && x.floor == g && x.button == h) ==> ClearAll(m, orders)[g].Get(h) == NO_ORDER
    ensures !(exists x :: x in orders && x.floor == g && x.button == h) ==> ClearAll(m, orders)[g].Get(h) == m[g].Get(h)
    decreases |orders|
  {
    if orders == [] {
    } else {
      var m' := Update(m, orders[0].floor, orders[0].button, NO_ORDER);
      ClearAllSlot(m', orders[1..], g, h);
      assert forall x :: x in orders <==> x == orders[0] || x in orders[1..];
    }
  }

  /** A stop at a floor event clears exactly the own orders of that floor; passing clears none. */
  lemma FloorReachedOwn(c: Car, f: Floor, g: Floor, b: Button)
    ensures c.FloorReached(f).0.view.Own(g, b) == (c.view.Own(g, b) && !(c.StopsAt(f) && g == f))
  {
    if c.StopsAt(f) && b != Command {
      var orders := c.FloorReached(f).1;
      ClearAllSlot(c.view.externalOrders, orders, g, b);
      if c.view.Own(f, b) {
        assert exists x :: x in orders && x.button == b;
      }
    }
  }
}
