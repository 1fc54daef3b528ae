/** The event loop of main.go, written as it runs: one object whose fields are the variables of
    `main`, and one method for each case of the select statement. `Handle` is the select statement
    and `Run` the loop around it: an object that handles the events of its node in a run of the
    system is that node, so whatever is proved of runs holds of the object. */
module EventLoops {
  import opened Typedef
  import opened Cost
  import opened Cars
  import CarRun
  import opened Nodes
  import opened Network
  import Views
  import Conservation
  import EndToEnd

  class EventLoop {
    const localIP: IP
    var knownElevators: map<IP, Elevator>
    var activeElevators: map<IP, bool>
    var externalOrderMatrix: Matrix
    var doorTimerPending: bool
    var doorLamp: bool
    var motor: Direction
    var receiveQueue: seq<OrderMsg>
    ghost var armed: set<OrderMsg>
    ghost var running: set<(Floor, Hall, IP)>
    var sentOrders: seq<OrderMsg>
    var sentRestores: seq<RestoreMsg>
    var motorCommands: seq<Direction>

    ghost function View(): Node
      reads this
    {
      Node(localIP, knownElevators, activeElevators, externalOrderMatrix,
           doorTimerPending, doorLamp, motor, receiveQueue, armed, running)
    }

    ghost predicate Valid()
      reads this
    {
      View().Valid()
    }

    /** main.go:72-92, before the first pass over the active elevators. */
    constructor (ip: IP, floor: Floor, now: int)
      ensures Valid()
      ensures View().State() == ElevState(ip, floor, Stop, false, false, seq(N_FLOORS, _ => false))
      ensures knownElevators.Keys == {ip} && activeElevators == map[] && CarRun.Init(View().Car())
      ensures knownElevators[ip].time == now && receiveQueue == [] && armed == {} && running == {}
      ensures sentOrders == [] && sentRestores == [EvRequestingState(ip)] && motorCommands == []
    {
      localIP := ip;
      knownElevators := map[ip := Elevator(ElevState(ip, floor, Stop, false, false, seq(N_FLOORS, _ => false)), now)];
      activeElevators := map[];
      externalOrderMatrix := seq(N_FLOORS, _ => Row(NO_ORDER, NO_ORDER));
      doorTimerPending, doorLamp, motor := false, false, Stop;
      receiveQueue, armed, running := [], {}, {};
      sentOrders, sentRestores, motorCommands := [], [EvRequestingState(ip)], [];
    }

    function State(): ElevState
      reads this
      requires localIP in knownElevators
    {
      knownElevators[localIP].state
    }

    function Order(f: Floor, h: Hall): ElevOrder
      reads this
    {
      externalOrderMatrix[f].Get(h)
    }

    method SetState(s: ElevState)
      requires localIP in knownElevators
      modifies this`knownElevators
      ensures knownElevators == old(knownElevators)[localIP := old(knownElevators[localIP]).(state := s)]
    {
      knownElevators := knownElevators[localIP := knownElevators[localIP].(state := s)];
    }

    method SetOrder(f: Floor, h: Hall, o: ElevOrder)
      modifies this`externalOrderMatrix
      ensures externalOrderMatrix == Update(old(externalOrderMatrix), f, h, o)
    {
      externalOrderMatrix := Update(externalOrderMatrix, f, h, o);
    }

    /** main.go:659-666. */
    method AllActiveElevatorsHaveAcked(f: Floor, h: Hall) returns (all: bool)
      ensures all == (activeElevators.Keys <= Order(f, h).confirmedBy)
    {
      var todo := activeElevators.Keys;
      while todo != {}
        invariant todo <= activeElevators.Keys
        invariant activeElevators.Keys - todo <= Order(f, h).confirmedBy
      {
        var elevator :| elevator in todo;
        if elevator !in Order(f, h).confirmedBy {
          return false;
        }
        todo := todo - {elevator};
      }
      return true;
    }

    /** main.go:685-699, with one clock reading. */
    method UpdateActiveElevators(now: int)
      modifies this`activeElevators
      ensures activeElevators == UpdateActive(knownElevators, old(activeElevators), now)
    {
      var todo := knownElevators.Keys;
      ghost var was := activeElevators;
      ghost var goal := UpdateActive(knownElevators, was, now);
      while todo != {}
        invariant todo <= knownElevators.Keys
        invariant forall k :: k in knownElevators && k !in todo ==>
                    (k in activeElevators <==> k in goal) && (k in goal ==> activeElevators[k] == goal[k])
        invariant forall k :: k !in knownElevators || k in todo ==>
                    (k in activeElevators <==> k in was) && (k in was ==> activeElevators[k] == was[k])
      {
        var key :| key in todo;
        if now - knownElevators[key].time > I_AM_ALIVE_LIMIT {
          if key in activeElevators && activeElevators[key] {
            activeElevators := activeElevators - {key};
          }
        } else {
          if key !in activeElevators || !activeElevators[key] {
            activeElevators := activeElevators[key := true];
          }
        }
        todo := todo - {key};
      }
    }

    // ---------------------------------------------------------------- order messages

    /** main.go:200-236. */
    method OnNewOrder(m: OrderMsg)
      requires Valid()
      modifies this`externalOrderMatrix, this`armed, this`sentOrders
      ensures View() == old(View()).OnNewOrder(m).node
      ensures sentOrders == old(sentOrders) + old(View()).OnNewOrder(m).orders
    {
      if Order(m.floor, m.button).status == NotActive {
        SetOrder(m.floor, m.button, ElevOrder(Awaiting, m.assignedTo, {}));
        if m.origin == localIP {
          armed := armed + {m.As(localIP, EvNewOrder)};
        }
        sentOrders := sentOrders + [m.As(localIP, EvAckNewOrder)];
      }
    }

    /** main.go:238-278. */
    method OnAckNewOrder(m: OrderMsg)
      requires Valid()
      modifies this`externalOrderMatrix, this`armed, this`sentOrders
      ensures View() == old(View()).OnAckNewOrder(m).node
      ensures sentOrders == old(sentOrders) + old(View()).OnAckNewOrder(m).orders
    {
      var o := Order(m.floor, m.button);
      if m.origin == localIP && o.status == Awaiting {
        o := o.(confirmedBy := o.confirmedBy + {m.sender});
        SetOrder(m.floor, m.button, o);
        var all := AllActiveElevatorsHaveAcked(m.floor, m.button);
        if all {
          SetOrder(m.floor, m.button, o.(confirmedBy := {}));
          armed := armed + {m.As(localIP, EvOrderConfirmed)};
          sentOrders := sentOrders + [m.As(localIP, EvOrderConfirmed)];
        }
      }
    }

    /** An order that is confirmed for this car, main.go:303-340. */
    method TakeOrder(m: OrderMsg) returns (done: bool)
      requires Valid() && m.assignedTo == localIP
      modifies this`externalOrderMatrix, this`knownElevators, this`doorTimerPending, this`doorLamp, this`sentRestores
      ensures var c := old(View()).Car().Confirm(m.floor, m.button, m.assignedTo);
              done == c.1 && View() == old(View()).WithCar(c.0)
      ensures sentRestores == old(sentRestores) + old(View()).ConfirmBackup(m)
    {
      hide ExtendedElevState.GetNextDirection;
      var o := Order(m.floor, m.button);
      var s := State();
      SetOrder(m.floor, m.button, o.(status := UnderExecution));
      var taken := ExtendedElevState(s, externalOrderMatrix);
      var direction := taken.ChooseDirection();
      done := false;
      if s.IsIdle() && s.lastFloor == m.floor {
        SetOrder(m.floor, m.button, o.(status := NotActive));
        doorLamp := true;
        doorTimerPending := true;
        s := s.(doorIsOpen := true);
        sentRestores := sentRestores + [EvBackupState(s.localIP, s, externalOrderMatrix)];
        done := true;
      } else if !s.isMoving && s.lastFloor == m.floor &&
                (direction == Stop || Towards(direction) == Some(m.button)) {
        sentRestores := sentRestores + [EvBackupState(s.localIP, s, externalOrderMatrix)];
        doorTimerPending := true;
        s := s.(doorIsOpen := true);
        SetOrder(m.floor, m.button, o.(status := NotActive));
        done := true;
      } else if s.IsIdle() && !s.doorIsOpen {
        doorTimerPending := true;
      }
      SetState(s);
    }

    /** An order that is confirmed while it awaits that, main.go:292-359. */
    method OnConfirmedAwaiting(m: OrderMsg)
      requires Valid() && Order(m.floor, m.button).status == Awaiting
      modifies this`externalOrderMatrix, this`knownElevators, this`doorTimerPending, this`doorLamp, this`sentRestores,
        this`sentOrders, this`running
      ensures View() == old(View()).OnOrderConfirmed(m).node
      ensures sentOrders == old(sentOrders) + old(View()).OnOrderConfirmed(m).orders
      ensures sentRestores == old(sentRestores) + old(View()).OnOrderConfirmed(m).restores
    {
      var o := Order(m.floor, m.button);
      sentOrders := sentOrders + [m.As(localIP, EvAckOrderConfirmed)];
      if m.assignedTo == localIP {
        hide Car.Confirm, Node.ConfirmBackup;
        var done := TakeOrder(m);
        if done {
          sentOrders := sentOrders + [m.As(localIP, EvOrderDone)];
        }
      } else {
        SetOrder(m.floor, m.button, o.(status := UnderExecution));
      }
      if m.origin != localIP {
        running := running + {(m.floor, m.button, m.origin)};
      }
    }

    /** main.go:280-375. */
    method OnOrderConfirmed(m: OrderMsg)
      requires Valid()
      modifies this
      ensures View() == old(View()).OnOrderConfirmed(m).node
      ensures sentOrders == old(sentOrders) + old(View()).OnOrderConfirmed(m).orders
      ensures sentRestores == old(sentRestores) + old(View()).OnOrderConfirmed(m).restores
      ensures motorCommands == old(motorCommands)
    {
      var o := Order(m.floor, m.button);
      match o.status {
        case NotActive =>
          if m.sender != localIP {
            if m.assignedTo != localIP {
              SetOrder(m.floor, m.button, ElevOrder(UnderExecution, m.assignedTo, {}));
            }
          }
        case Awaiting =>
          OnConfirmedAwaiting(m);
        case UnderExecution =>
          sentOrders := sentOrders + [m.As(localIP, EvAckOrderConfirmed)];
      }
    }

    /** main.go:376-407. */
    method OnAckOrderConfirmed(m: OrderMsg)
      requires Valid()
      modifies this`externalOrderMatrix, this`running
      ensures View() == old(View()).OnAckOrderConfirmed(m).node
    {
      var o := Order(m.floor, m.button);
      if m.origin == localIP && o.status == UnderExecution {
        o := o.(confirmedBy := o.confirmedBy + {m.sender});
        SetOrder(m.floor, m.button, o);
        var all := AllActiveElevatorsHaveAcked(m.floor, m.button);
        if all {
          SetOrder(m.floor, m.button, o.(confirmedBy := {}));
          running := running + {(m.floor, m.button, m.origin)};
        }
      }
    }

    /** main.go:408-436. */
    method OnOrderDone(m: OrderMsg)
      requires Valid()
      modifies this`externalOrderMatrix, this`armed, this`sentOrders
      ensures View() == old(View()).OnOrderDone(m).node
      ensures sentOrders == old(sentOrders) + old(View()).OnOrderDone(m).orders
    {
      SetOrder(m.floor, m.button, NO_ORDER);
      sentOrders := sentOrders + [m.As(localIP, EvAckOrderDone)];
      if m.assignedTo == localIP {
        armed := armed + {m.As(localIP, EvAckOrderDone)};
      }
    }

    /** main.go:438-448. */
    method OnAckOrderDone(m: OrderMsg)
      requires Valid()
      modifies this`externalOrderMatrix
      ensures View() == old(View()).OnAckOrderDone(m).node
    {
      if m.assignedTo == localIP {
        var o := Order(m.floor, m.button);
        o := o.(confirmedBy := o.confirmedBy + {m.sender});
        SetOrder(m.floor, m.button, o);
        var all := AllActiveElevatorsHaveAcked(m.floor, m.button);
        if all {
          SetOrder(m.floor, m.button, o.(confirmedBy := {}));
        }
      }
    }

    /** main.go:450-469. */
    method OnReassignOrder(m: OrderMsg)
      requires Valid()
      modifies this`externalOrderMatrix, this`receiveQueue
      ensures View() == old(View()).OnReassignOrder(m).node
    {
      var o := Order(m.floor, m.button);
      if o.status == UnderExecution {
        SetOrder(m.floor, m.button, o.(status := NotActive, confirmedBy := {}));
        receiveQueue := receiveQueue + [m.(event := EvNewOrder)];
      }
    }

    /** main.go:197-473: one message from the order channel. */
    method OnOrderMessage(m: OrderMsg)
      requires Valid()
      modifies this
      ensures View() == old(View()).Receive(m).node
      ensures sentOrders == old(sentOrders) + old(View()).Receive(m).orders
      ensures sentRestores == old(sentRestores) + old(View()).Receive(m).restores
      ensures motorCommands == old(motorCommands)
    {
      match m.event {
        case EvNewOrder => OnNewOrder(m);
        case EvAckNewOrder => OnAckNewOrder(m);
        case EvOrderConfirmed => OnOrderConfirmed(m);
        case EvAckOrderConfirmed => OnAckOrderConfirmed(m);
        case EvOrderDone => OnOrderDone(m);
        case EvAckOrderDone => OnAckOrderDone(m);
        case EvReassignOrder => OnReassignOrder(m);
      }
    }

    /** The execution timer of an order has fired, main.go:476-522, with the origin its closure
        captured. `alive` is false where the source ends the process. */
    method OnExecutionTimeout(f: Floor, h: Hall, origin: IP) returns (alive: bool)
      requires Valid() && CostReady(knownElevators, activeElevators.Keys, externalOrderMatrix, f, h)
      modifies this`sentOrders
      ensures View() == old(View())
      ensures var r := Assign(knownElevators, activeElevators.Keys, externalOrderMatrix, f, h);
              && alive == (Order(f, h).status == UnderExecution ==> Order(f, h).assignedTo != localIP && r.Ok?)
              && sentOrders == old(sentOrders) + if !alive then [] else
                   View().OnExecutionTimeout(f, h, origin, if r.Ok? then r.ip else "").orders
    {
      var o := Order(f, h);
      match o.status {
        case NotActive =>
          sentOrders := sentOrders + [OrderMsg(f, h, o.assignedTo, localIP, localIP, EvNewOrder)];
        case Awaiting =>
          sentOrders := sentOrders + [OrderMsg(f, h, o.assignedTo, origin, localIP, EvOrderConfirmed)];
        case UnderExecution =>
          if o.assignedTo == localIP {
            return false;
          }
          var r := AssignNewOrder(knownElevators, activeElevators, externalOrderMatrix, f, h);
          if r.Err? {
            return false;
          }
          sentOrders := sentOrders + [OrderMsg(f, h, r.ip, localIP, localIP, EvReassignOrder)];
      }
      return true;
    }

    // ---------------------------------------------------------------- restore messages

    /** `MergeStates`, typedef.go:160-169. */
    method MergeStates(restored: ElevState)
      requires Valid()
      modifies this`knownElevators
      ensures var s := old(State());
              knownElevators == old(knownElevators)[localIP := old(knownElevators[localIP]).(
                state := s.(internalOrders := CarRun.Merged(s.internalOrders, restored.internalOrders)))]
    {
      var orders := State().internalOrders;
      var i := 0;
      while i < N_FLOORS
        invariant 0 <= i <= N_FLOORS && |orders| == N_FLOORS
        invariant forall k :: 0 <= k < i ==> orders[k] == (State().internalOrders[k] || restored.internalOrders[k])
        invariant forall k :: i <= k < N_FLOORS ==> orders[k] == State().internalOrders[k]
      {
        orders := orders[i := orders[i] || restored.internalOrders[i]];
        i := i + 1;
      }
      assert orders == CarRun.Merged(State().internalOrders, restored.internalOrders);
      SetState(State().(internalOrders := orders));
    }

    /** One row of the loop over a restore reply, main.go:163-179. */
    method AdoptRow(reply: Matrix, f: Floor)
      requires Valid()
      modifies this`externalOrderMatrix, this`running
      ensures var n := old(View());
              && externalOrderMatrix
                 == n.matrix[f := Row(n.AdoptSlot(reply, f, CallUp), n.AdoptSlot(reply, f, CallDown))]
              && running == n.running + set h: Hall | n.Adopts(reply, f, h) :: (f, h, "")
    {
      ghost var n := View();
      var halls: seq<Hall> := [CallUp, CallDown];
      var k := 0;
      while k < |halls|
        invariant 0 <= k <= 2
        invariant externalOrderMatrix
                  == n.matrix[f := Row(if k > 0 then n.AdoptSlot(reply, f, CallUp) else n.Slot(f, CallUp),
                                       if k > 1 then n.AdoptSlot(reply, f, CallDown) else n.Slot(f, CallDown))]
        invariant running == n.running + (if k > 0 && n.Adopts(reply, f, CallUp) then {(f, CallUp, "")} else {})
                                       + (if k > 1 && n.Adopts(reply, f, CallDown) then {(f, CallDown, "")} else {})
      {
        var h := halls[k];
        var order := reply[f].Get(h);
        if order.status == UnderExecution && order.assignedTo != localIP && Order(f, h).status == NotActive {
          SetOrder(f, h, ElevOrder(UnderExecution, order.assignedTo, {}));
          running := running + {(f, h, "")};
        }
        k := k + 1;
      }
    }

    /** The loop over a restore reply, main.go:162-180. */
    method AdoptOrders(reply: Matrix)
      requires Valid()
      modifies this`externalOrderMatrix, this`running
      ensures externalOrderMatrix == old(View()).Adopt(reply)
      ensures var n := old(View());
              running == n.running + set f: Floor, h: Hall | n.Adopts(reply, f, h) :: (f, h, "")
    {
      ghost var n := View();
      var f := 0;
      while f < N_FLOORS
        invariant 0 <= f <= N_FLOORS
        invariant forall g: Floor :: externalOrderMatrix[g] == if g < f then n.Adopt(reply)[g] else n.matrix[g]
        invariant running == n.running + set g: Floor, h: Hall | g < f && n.Adopts(reply, g, h) :: (g, h, "")
      {
        AdoptRow(reply, f);
        f := f + 1;
      }
      assert externalOrderMatrix == n.Adopt(reply);
      assert running == n.running + set g: Floor, h: Hall | n.Adopts(reply, g, h) :: (g, h, "");
    }

    /** main.go:158-188, when the reply is for this node. */
    method OnRestoredState(r: RestoreMsg)
      requires Valid() && r.EvRestoredStateReturned? && r.asker == localIP
      modifies this`externalOrderMatrix, this`running, this`knownElevators, this`doorTimerPending
      ensures View() == old(View()).OnRestoreMsg(r, 0).node
    {
      AdoptOrders(r.matrix);
      MergeStates(r.state);
      if State().IsIdle() && !State().doorIsOpen {
        doorTimerPending := true;
      }
    }

    /** A node that is heard from, main.go:103-110 and 127-136. */
    method Hear(who: IP, e: Elevator, now: int)
      modifies this`knownElevators, this`activeElevators
      ensures View() == old(View()).Heard(who, e, now)
    {
      knownElevators := knownElevators[who := e];
      UpdateActiveElevators(now);
    }

    /** main.go:101-194. */
    method OnRestoreMessage(r: RestoreMsg, now: int)
      requires Valid()
      modifies this
      ensures View() == old(View()).OnRestoreMsg(r, now).node
      ensures sentRestores == old(sentRestores) + old(View()).OnRestoreMsg(r, now).restores
      ensures sentOrders == old(sentOrders) && motorCommands == old(motorCommands)
    {
      match r {
        case EvIAmAlive(who, state) =>
          if who in knownElevators {
            Hear(who, knownElevators[who].(time := now), now);
          } else {
            Hear(who, Elevator(state, now), now);
          }
        case EvBackupState(who, state, _) =>
          if who != localIP {
            if who == state.localIP {
              Hear(who, Elevator(state, now), now);
            }
          }
        case EvRequestingState(asker) =>
          if asker != localIP {
            if asker in knownElevators {
              sentRestores := sentRestores
                + [EvRestoredStateReturned(asker, localIP, knownElevators[asker].state, externalOrderMatrix)];
            }
          }
        case EvRestoredStateReturned(asker, _, _, _) =>
          if asker == localIP {
            OnRestoredState(r);
          }
      }
    }

    // ---------------------------------------------------------------- hardware and timers

    /** A command on the motor channel. */
    method SetMotor(d: Direction)
      modifies this`motor, this`motorCommands
      ensures motor == d && motorCommands == old(motorCommands) + [d]
    {
      motor := d;
      motorCommands := motorCommands + [d];
    }

    method Publish()
      requires Valid()
      modifies this`sentRestores
      ensures sentRestores == old(sentRestores) + [EvBackupState(State().localIP, State(), externalOrderMatrix)]
    {
      sentRestores := sentRestores + [EvBackupState(State().localIP, State(), externalOrderMatrix)];
    }

    /** The car's new state is stored and published, main.go:551, 555, 613 and 639. */
    method Commit(s: ElevState)
      requires Valid() && s.localIP == localIP
      modifies this`knownElevators, this`sentRestores
      ensures knownElevators == old(knownElevators)[localIP := old(knownElevators[localIP]).(state := s)]
      ensures sentRestores == old(sentRestores) + [EvBackupState(localIP, s, externalOrderMatrix)]
    {
      SetState(s);
      Publish();
    }

    /** main.go:545-560. */
    method OnInternalButton(floor: Floor)
      requires Valid()
      modifies this`knownElevators, this`doorTimerPending, this`doorLamp, this`sentRestores
      ensures View() == old(View().Own(View().Car().InternalButton(floor))).node
      ensures sentRestores == old(sentRestores) + old(View().Own(View().Car().InternalButton(floor))).restores
    {
      if !State().isMoving && State().lastFloor == floor {
        doorLamp := true;
        doorTimerPending := true;
        Commit(State().(doorIsOpen := true));
      } else {
        Commit(State().(internalOrders := State().internalOrders[floor := true]));
        if State().IsIdle() && !State().doorIsOpen {
          doorTimerPending := true;
        }
      }
    }

    /** main.go:528-544. An error of `AssignNewOrder` ends the process: `alive` is false. */
    method OnHallButton(floor: Floor, button: Hall) returns (alive: bool)
      requires Valid()
      requires CostReady(knownElevators, activeElevators.Keys, externalOrderMatrix, floor, button)
      modifies this`sentOrders
      ensures View() == old(View())
      ensures localIP !in activeElevators ==> alive && sentOrders == old(sentOrders)
      ensures localIP in activeElevators ==>
                var r := Assign(knownElevators, activeElevators.Keys, externalOrderMatrix, floor, button);
                alive == r.Ok? &&
                sentOrders == old(sentOrders)
                  + if r.Ok? then [OrderMsg(floor, button, r.ip, localIP, localIP, EvNewOrder)] else []
    {
      if localIP in activeElevators {
        var r := AssignNewOrder(knownElevators, activeElevators, externalOrderMatrix, floor, button);
        if r.Err? {
          return false;
        }
        sentOrders := sentOrders + [OrderMsg(floor, button, r.ip, localIP, localIP, EvNewOrder)];
      }
      return true;
    }

    /** The loop over the served orders, main.go:584-611. */
    method ReportServed(orders: seq<ExtendedElevOrder>)
      modifies this`externalOrderMatrix, this`armed, this`sentOrders
      ensures externalOrderMatrix == ClearAll(old(externalOrderMatrix), orders)
      ensures sentOrders == old(sentOrders) + DoneMsgs(localIP, orders)
      ensures armed == old(armed) + set x | x in DoneMsgs(localIP, orders)
    {
      var i := 0;
      ghost var done := DoneMsgs(localIP, orders);
      while i < |orders|
        invariant 0 <= i <= |orders|
        invariant ClearAll(externalOrderMatrix, orders[i..]) == ClearAll(old(externalOrderMatrix), orders)
        invariant sentOrders == old(sentOrders) + done[..i]
        invariant armed == old(armed) + set x | x in done[..i]
      {
        var o := orders[i];
        SetOrder(o.floor, o.button, NO_ORDER);
        var msg := OrderMsg(o.floor, o.button, o.order.assignedTo, "", localIP, EvOrderDone);
        armed := armed + {msg};
        sentOrders := sentOrders + [msg];
        assert orders[i..][1..] == orders[i + 1..];
        assert done[..i + 1] == done[..i] + [msg];
        i := i + 1;
      }
      assert done[..i] == done;
    }

    /** A stop at a floor event, main.go:576-611. */
    method StopFor(here: ElevState) returns (s: ElevState)
      requires Valid()
      modifies this`motor, this`doorTimerPending, this`doorLamp, this`externalOrderMatrix, this`armed, this`sentOrders,
        this`motorCommands
      ensures s == here.(isMoving := false, internalOrders := here.internalOrders[here.lastFloor := false])
      ensures motor == Stop && doorTimerPending && doorLamp && motorCommands == old(motorCommands) + [Stop]
      ensures var orders := ExtendedElevState(s, old(externalOrderMatrix)).FindExternalOrdersAtCurrentFloor();
              && externalOrderMatrix == ClearAll(old(externalOrderMatrix), orders)
              && sentOrders == old(sentOrders) + DoneMsgs(localIP, orders)
              && armed == old(armed) + set x | x in DoneMsgs(localIP, orders)
    {
      SetMotor(Stop);
      doorTimerPending := true;
      doorLamp := true;
      s := here.(isMoving := false, internalOrders := here.internalOrders[here.lastFloor := false]);
      var orders := ExtendedElevState(s, externalOrderMatrix).FindExternalOrdersAtCurrentFloor();
      ReportServed(orders);
    }

    /** main.go:572-613. */
    method OnFloorReached(floor: Floor)
      requires Valid()
      modifies this`knownElevators, this`externalOrderMatrix, this`doorTimerPending, this`doorLamp, this`motor,
        this`armed, this`sentOrders, this`sentRestores, this`motorCommands
      ensures View() == old(View()).OnFloorReached(floor).node
      ensures sentOrders == old(sentOrders) + old(View()).OnFloorReached(floor).orders
      ensures sentRestores == old(sentRestores) + old(View()).OnFloorReached(floor).restores
      ensures motorCommands == old(motorCommands) + if old(View()).Car().StopsAt(floor) then [Stop] else []
    {
      hide Car.FloorReached, Node.OnFloorReached, ClearAll, DoneMsgs, ExtendedElevState.ShouldStop;
      ghost var n := View();
      FloorReachedParts(n, floor);
      var s := State().(lastFloor := floor);
      var stops := ExtendedElevState(s, externalOrderMatrix).DecideStop();
      if stops {
        s := StopFor(s);
      }
      Commit(s);
    }

    /** main.go:622-639. */
    method OnDoorTimeout()
      requires Valid()
      modifies this`knownElevators, this`doorTimerPending, this`doorLamp, this`motor, this`sentRestores,
        this`motorCommands
      ensures View() == old(View().Own(View().Car().DoorTimeout())).node
      ensures sentRestores == old(sentRestores) + old(View().Own(View().Car().DoorTimeout())).restores
      ensures var c := old(View()).Car();
              motorCommands == old(motorCommands)
                + if c.view.(localState := c.view.localState.(doorIsOpen := false)).HaveOrders()
                  then [c.DoorTimeout().Heading()] else []
    {
      ghost var c := View().Car().DoorTimeout();
      hide ExtendedElevState.HaveOrders, ExtendedElevState.GetNextDirection, ExtendedElevState.HaveOrdersAbove;
      var s := State().(doorIsOpen := false);
      doorTimerPending := false;
      doorLamp := false;
      var orders := ExtendedElevState(s, externalOrderMatrix).AnyOrders();
      if orders {
        var direction := ExtendedElevState(s, externalOrderMatrix).ChooseDirection();
        s := s.(direction := direction, isMoving := direction != Stop);
        SetMotor(direction);
      } else {
        s := s.(isMoving := false);
        s := s.(direction := Stop);
      }
      assert s == c.view.localState && externalOrderMatrix == c.view.externalOrders && motor == c.motor;
      Commit(s);
    }

    /** An acknowledgement timer fires: the message is sent again, main.go:426-434 and 591-601. */
    method OnAckTimeout(m: OrderMsg)
      modifies this`sentOrders
      ensures sentOrders == old(sentOrders) + [m]
    {
      sentOrders := sentOrders + [m];
    }

    /** main.go:616-617. */
    method OnAliveTick()
      requires Valid()
      modifies this`sentRestores
      ensures sentRestores == old(sentRestores) + [EvIAmAlive(State().localIP, State())]
    {
      sentRestores := sentRestores + [EvIAmAlive(State().localIP, State())];
    }

    /** The message that this node itself put into its order channel, main.go:197 and 461. */
    method OnQueuedMessage()
      requires Valid() && receiveQueue != []
      modifies this
      ensures View() == Next(old(View()), Queued).node
      ensures sentOrders == old(sentOrders) + Next(old(View()), Queued).orders
      ensures sentRestores == old(sentRestores) + Next(old(View()), Queued).restores
    {
      var m := receiveQueue[0];
      receiveQueue := receiveQueue[1..];
      OnOrderMessage(m);
    }

    // ---------------------------------------------------------------- the select statement and the loop

    /** The select statement, main.go:98-640. */
    method Dispatch(e: NodeEvent)
      requires Views.NodeOk(View()) && Possible(e)
      modifies this
      ensures View() == Next(old(View()), e).node
      ensures sentOrders == old(sentOrders) + Next(old(View()), e).orders
      ensures sentRestores == old(sentRestores) + Next(old(View()), e).restores
    {
      if e.Message? {
        OnOrderMessage(e.m);
      } else if e.Queued? {
        OnQueuedMessage();
      } else if e.Restoration? {
        OnRestoreMessage(e.r, e.now);
      } else if e.CabPress? {
        OnInternalButton(e.floor);
      } else if e.FloorEvent? {
        OnFloorReached(e.reached);
      } else if e.DoorEvent? {
        OnDoorTimeout();
      } else {
        DispatchRest(e);
      }
    }

    /** What must hold of an event for this node to see it, the contents of the network aside. */
    ghost predicate Possible(e: NodeEvent)
      reads this
    {
      exists orders, restores :: Enabled(View(), e, orders, restores)
    }

    method DispatchRest(e: NodeEvent)
      requires Views.NodeOk(View()) && Possible(e)
      requires e.HallPress? || e.Resend? || e.ExecutionTimeout? || e.AliveTick? || e.CheckAlive?
      modifies this
      ensures View() == Next(old(View()), e).node
      ensures sentOrders == old(sentOrders) + Next(old(View()), e).orders
      ensures sentRestores == old(sentRestores) + Next(old(View()), e).restores
    {
      if e.HallPress? {
        Views.CanAssign(View(), e.at, e.hall);
        var _ := OnHallButton(e.at, e.hall);
      } else if e.Resend? {
        OnAckTimeout(e.again);
      } else if e.ExecutionTimeout? {
        Views.CanAssign(View(), e.f, e.h);
        var _ := OnExecutionTimeout(e.f, e.h, e.origin);
      } else if e.AliveTick? {
        OnAliveTick();
      } else if e.CheckAlive? {
        UpdateActiveElevators(e.time);
      }
    }

    /** One turn of the loop, as a step of the system that the node is part of. The node stays fit for
        every later event, its car stays sound, no order it has is dropped unless it hears or reports
        that it is done, and an order of its own leaves only by service or by a message for it. */
    method Handle(e: NodeEvent, ghost s: Sys) returns (ghost s': Sys)
      requires Views.SysOk(s) && localIP in s.nodes && s.nodes[localIP] == View()
      requires Enabled(View(), e, s.orders, s.restores)
      modifies this
      ensures Steps(s, localIP, e, s') && Views.SysOk(s') && localIP in s'.nodes && s'.nodes[localIP] == View()
      ensures View() == Next(old(View()), e).node
      ensures sentOrders == old(sentOrders) + Next(old(View()), e).orders
      ensures sentRestores == old(sentRestores) + Next(old(View()), e).restores
      ensures EndToEnd.FloorInOrder(old(View()), e) && old(CarRun.Sound(View().Car())) ==> CarRun.Sound(View().Car())
      ensures forall f: Floor, h: Hall :: old(Conservation.QueueOk(View()) && Conservation.Pending(View(), f, h)) ==>
                || Conservation.Pending(View(), f, h)
                || Conservation.HearsDone(e, f, h)
                || Conservation.ReportsDone(old(View()), e, f, h)
      ensures forall f: Floor, h: Hall :: EndToEnd.FloorInOrder(old(View()), e) && old(View().Car().view.Own(f, h)) ==>
                || View().Car().view.Own(f, h)
                || EndToEnd.ServedBy(old(View()), e, f, h)
                || EndToEnd.TakenBy(old(View()), e, f, h)
    {
      ghost var n := View();
      assert Views.NodeOk(n);
      Dispatch(e);
      s' := Then(s, localIP, e);
      Views.StepOk(s, localIP, e, s');
      HandleKeeps(n, e);
    }

    /** The loop of main.go:97, over a run of the system: the object takes the turns of its node. */
    method Run(who: seq<IP>, es: seq<NodeEvent>, ghost ss: seq<Sys>)
      requires SysRun(ss, who, es) && Views.InitSys(ss[0]) && localIP in ss[0].nodes && ss[0].nodes[localIP] == View()
      modifies this
      ensures localIP in ss[|es|].nodes && ss[|es|].nodes[localIP] == View()
      ensures forall m :: m in sentOrders ==> m in old(sentOrders) || m in ss[|es|].orders
    {
      var k := 0;
      while k < |es|
        invariant 0 <= k <= |es|
        invariant localIP in ss[k].nodes && ss[k].nodes[localIP] == View()
        invariant forall m :: m in sentOrders ==> m in old(sentOrders) || m in ss[k].orders
      {
        assert Steps(ss[k], who[k], es[k], ss[k + 1]);
        if who[k] == localIP {
          Views.RunOk(ss, who, es, k);
          ghost var _ := Handle(es[k], ss[k]);
        }
        k := k + 1;
      }
    }
  }

  /** The parts of the specification of a floor event, for a stop and for a pass. */
  lemma FloorReachedParts(n: Node, f: Floor)
    requires n.Valid()
    ensures var out, c := n.OnFloorReached(f), n.Car().FloorReached(f);
            && out.node == n.WithCar(c.0).(armed := n.armed + set x | x in DoneMsgs(n.ip, c.1))
            && out.orders == DoneMsgs(n.ip, c.1)
            && out.restores == [n.Backup(c.0.view.localState, c.0.view.externalOrders)]
    ensures n.Car().StopsAt(f) ==>
              var s := n.State().(lastFloor := f, isMoving := false,
                                  internalOrders := n.State().internalOrders[f := false]);
              var orders := ExtendedElevState(s, n.matrix).FindExternalOrdersAtCurrentFloor();
              n.Car().FloorReached(f)
              == (Cars.Car(ExtendedElevState(s, ClearAll(n.matrix, orders)), true, true, Stop), orders)
    ensures !n.Car().StopsAt(f) ==>
              n.Car().FloorReached(f) == (n.Car().WithState(n.State().(lastFloor := f)), []) && DoneMsgs(n.ip, []) == []
  {
  }

  lemma HandleKeeps(n: Node, e: NodeEvent)
    requires n.Valid() && (e.Queued? ==> n.queue != []) && (e.DoorEvent? ==> n.doorTimer)
    ensures Next(n, e).node.Valid()
    ensures EndToEnd.FloorInOrder(n, e) && CarRun.Sound(n.Car()) ==> CarRun.Sound(Next(n, e).node.Car())
    ensures forall f: Floor, h: Hall :: Conservation.QueueOk(n) && Conservation.Pending(n, f, h) ==>
              || Conservation.Pending(Next(n, e).node, f, h)
              || Conservation.HearsDone(e, f, h)
              || Conservation.ReportsDone(n, e, f, h)
    ensures forall f: Floor, h: Hall :: EndToEnd.FloorInOrder(n, e) && n.Car().view.Own(f, h) ==>
              || Next(n, e).node.Car().view.Own(f, h)
              || EndToEnd.ServedBy(n, e, f, h)
              || EndToEnd.TakenBy(n, e, f, h)
  {
    hide Next, EndToEnd.FloorInOrder, EndToEnd.ServedBy, EndToEnd.TakenBy, Conservation.Pending, Conservation.QueueOk,
      Conservation.HearsDone, Conservation.ReportsDone, CarRun.Sound, CarRun.Step;
    NextValid(n, e);
    if EndToEnd.FloorInOrder(n, e) {
      EndToEnd.NodeRefinesCar(n, e);
      if CarRun.Sound(n.Car()) {
        CarRun.StepSound(n.Car(), EndToEnd.CarEvent(n, e), Next(n, e).node.Car());
      }
      forall f: Floor, h: Hall | n.Car().view.Own(f, h)
        ensures Next(n, e).node.Car().view.Own(f, h) || EndToEnd.ServedBy(n, e, f, h) || EndToEnd.TakenBy(n, e, f, h)
      {
        EndToEnd.LeavesNode(n, e, f, h);
      }
    }
    forall f: Floor, h: Hall | Conservation.QueueOk(n) && Conservation.Pending(n, f, h)
      ensures || Conservation.Pending(Next(n, e).node, f, h)
              || Conservation.HearsDone(e, f, h)
              || Conservation.ReportsDone(n, e, f, h)
    {
      Conservation.NextKeepsPending(n, e, f, h);
    }
  }
}
