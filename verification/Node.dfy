/** One node of the system: everything that the event loop of main.go keeps, and what each of its
    cases does to it and sends. */
module Nodes {
  import opened Typedef
  import opened Cars
  import CarRun

  datatype OrderEvent =
    EvNewOrder | EvAckNewOrder | EvOrderConfirmed | EvAckOrderConfirmed | EvOrderDone | EvAckOrderDone | EvReassignOrder

  datatype OrderMsg = OrderMsg(
    floor: Floor, button: Hall, assignedTo: IP, origin: IP, sender: IP, event: OrderEvent)
  {
    predicate Is(f: Floor, h: Hall) { floor == f && button == h }

    /** The same order, passed on by `ip` as another event. */
    function As(ip: IP, ev: OrderEvent): OrderMsg { this.(sender := ip, event := ev) }
  }

  datatype RestoreMsg =
    | EvIAmAlive(responder: IP, state: ElevState)
    | EvBackupState(responder: IP, state: ElevState, matrix: Matrix)
    | EvRequestingState(asker: IP)
    | EvRestoredStateReturned(asker: IP, responder: IP, state: ElevState, matrix: Matrix)

  /** Nanoseconds, main.go:24-25. */
  const I_AM_ALIVE_TICK_TIME := 100_000_000
  const I_AM_ALIVE_LIMIT := 3 * I_AM_ALIVE_TICK_TIME + 10_000_000

  predicate Fresh(e: Elevator, now: int) { now - e.time <= I_AM_ALIVE_LIMIT }

  /** `updateActiveElevators`, main.go:685-699, as one pass with one clock reading. */
  function UpdateActive(known: map<IP, Elevator>, active: map<IP, bool>, now: int): map<IP, bool> {
    map k | k in known.Keys + active.Keys
            && (if k in known then Fresh(known[k], now) || (k in active && !active[k]) else true)
      :: if k in known && Fresh(known[k], now) then true else active[k]
  }

  /** The report on a served order; the source leaves its origin empty (main.go:603-610). */
  function DoneMsg(ip: IP, o: ExtendedElevOrder): OrderMsg {
    OrderMsg(o.floor, o.button, o.order.assignedTo, "", ip, EvOrderDone)
  }

  function DoneMsgs(ip: IP, orders: seq<ExtendedElevOrder>): seq<OrderMsg> {
    seq(|orders|, i requires 0 <= i < |orders| => DoneMsg(ip, orders[i]))
  }

  datatype Out = Out(node: Node, orders: seq<OrderMsg>, restores: seq<RestoreMsg>)

  /** `queue` is what the node itself put into its order channel (main.go:461); `armed` and
      `running` are the timers: messages that a timeout may send again, and orders (with the origin
      that the closure captured) whose execution timer has been started. Timers are never disarmed
      here: a stopped timer is one that does not fire. */
  datatype Node = Node(
    ip: IP, known: map<IP, Elevator>, active: map<IP, bool>, matrix: Matrix,
    doorTimer: bool, doorLamp: bool, motor: Direction,
    queue: seq<OrderMsg>, armed: set<OrderMsg>, running: set<(Floor, Hall, IP)>)
  {
    predicate Valid() { ip in known && known[ip].state.localIP == ip }

    function State(): ElevState
      requires Valid()
    {
      known[ip].state
    }

    function Car(): Car
      requires Valid()
    {
      Cars.Car(ExtendedElevState(known[ip].state, matrix), doorTimer, doorLamp, motor)
    }

    function WithCar(c: Car): Node
      requires Valid()
    {
      this.(known := known[ip := known[ip].(state := c.view.localState)], matrix := c.view.externalOrders,
            doorTimer := c.doorTimer, doorLamp := c.doorLamp, motor := c.motor)
    }

    function Slot(f: Floor, h: Hall): ElevOrder { matrix[f].Get(h) }

    function WithSlot(f: Floor, h: Hall, o: ElevOrder): Node { this.(matrix := Update(matrix, f, h, o)) }

    /** The node's own record with another car state. */
    function Backup(s: ElevState, m: Matrix): RestoreMsg { EvBackupState(s.localIP, s, m) }

    /** `allActiveElevatorsHaveAcked`, main.go:659-666. */
    predicate AllAcked(o: ElevOrder) { active.Keys <= o.confirmedBy }

    // ---------------------------------------------------------------- order messages, main.go:197-473

    function OnNewOrder(m: OrderMsg): Out {
      var f, h := m.floor, m.button;
      if Slot(f, h).status != NotActive then
        Out(this, [], [])
      else
        var n := WithSlot(f, h, ElevOrder(Awaiting, m.assignedTo, {}));
        var again := if m.origin == ip then {m.As(ip, EvNewOrder)} else {};
        Out(n.(armed := armed + again), [m.As(ip, EvAckNewOrder)], [])
    }

    function OnAckNewOrder(m: OrderMsg): Out {
      var f, h := m.floor, m.button;
      var o := Slot(f, h);
      if m.origin != ip || o.status != Awaiting then
        Out(this, [], [])
      else
        var o' := o.(confirmedBy := o.confirmedBy + {m.sender});
        if AllAcked(o') then
          var confirm := m.As(ip, EvOrderConfirmed);
          Out(WithSlot(f, h, o'.(confirmedBy := {})).(armed := armed + {confirm}), [confirm], [])
        else
          Out(WithSlot(f, h, o'), [], [])
    }

    function OnOrderConfirmed(m: OrderMsg): Out
      requires Valid()
    {
      var f, h := m.floor, m.button;
      match Slot(f, h).status
      case NotActive =>
        if m.sender != ip && m.assignedTo != ip then
          Out(WithSlot(f, h, ElevOrder(UnderExecution, m.assignedTo, {})), [], [])
        else
          Out(this, [], [])
      case Awaiting =>
        var c := Car().Confirm(f, h, m.assignedTo);
        var done := if c.1 then [m.As(ip, EvOrderDone)] else [];
        var started := if m.origin != ip then {(f, h, m.origin)} else {};
        Out(WithCar(c.0).(running := running + started), [m.As(ip, EvAckOrderConfirmed)] + done, ConfirmBackup(m))
      case UnderExecution =>
        Out(this, [m.As(ip, EvAckOrderConfirmed)], [])
    }

    /** The backups sent while an order is served on the spot; the second is sent before the state
        changes (main.go:309 and 322). */
    function ConfirmBackup(m: OrderMsg): seq<RestoreMsg>
      requires Valid()
    {
      var c := Car().Confirm(m.floor, m.button, m.assignedTo);
      if !c.1 then []
      else if State().IsIdle() then [Backup(c.0.view.localState, c.0.view.externalOrders)]
      else [Backup(State(), Update(matrix, m.floor, m.button, Slot(m.floor, m.button).(status := UnderExecution)))]
    }

    function OnAckOrderConfirmed(m: OrderMsg): Out {
      var f, h := m.floor, m.button;
      var o := Slot(f, h);
      if m.origin != ip || o.status != UnderExecution then
        Out(this, [], [])
      else
        var o' := o.(confirmedBy := o.confirmedBy + {m.sender});
        if AllAcked(o') then
          Out(WithSlot(f, h, o'.(confirmedBy := {})).(running := running + {(f, h, m.origin)}), [], [])
        else
          Out(WithSlot(f, h, o'), [], [])
    }

    function OnOrderDone(m: OrderMsg): Out {
      var ack := m.As(ip, EvAckOrderDone);
      var again := if m.assignedTo == ip then {ack} else {};
      Out(WithSlot(m.floor, m.button, NO_ORDER).(armed := armed + again), [ack], [])
    }

    function OnAckOrderDone(m: OrderMsg): Out {
      var o := Slot(m.floor, m.button);
      if m.assignedTo != ip then
        Out(this, [], [])
      else
        var o' := o.(confirmedBy := o.confirmedBy + {m.sender});
        Out(WithSlot(m.floor, m.button, if AllAcked(o') then o'.(confirmedBy := {}) else o'), [], [])
    }

    function OnReassignOrder(m: OrderMsg): Out {
      var o := Slot(m.floor, m.button);
      if o.status != UnderExecution then
        Out(this, [], [])
      else
        Out(WithSlot(m.floor, m.button, o.(status := NotActive, confirmedBy := {}))
              .(queue := queue + [m.(event := EvNewOrder)]), [], [])
    }

    function Receive(m: OrderMsg): Out
      requires Valid()
    {
      match m.event
      case EvNewOrder => OnNewOrder(m)
      case EvAckNewOrder => OnAckNewOrder(m)
      case EvOrderConfirmed => OnOrderConfirmed(m)
      case EvAckOrderConfirmed => OnAckOrderConfirmed(m)
      case EvOrderDone => OnOrderDone(m)
      case EvAckOrderDone => OnAckOrderDone(m)
      case EvReassignOrder => OnReassignOrder(m)
    }

    // ---------------------------------------------------------------- restore messages, main.go:101-194

    /** The external orders taken over from a restore reply, main.go:162-180. */
    predicate Adopts(reply: Matrix, f: Floor, h: Hall) {
      && reply[f].Get(h).status == UnderExecution
      && reply[f].Get(h).assignedTo != ip
      && Slot(f, h).status == NotActive
    }

    function AdoptSlot(reply: Matrix, f: Floor, h: Hall): ElevOrder {
      if Adopts(reply, f, h) then ElevOrder(UnderExecution, reply[f].Get(h).assignedTo, {}) else Slot(f, h)
    }

    function Adopt(reply: Matrix): (m: Matrix)
      ensures forall f: Floor, h: Hall :: m[f].Get(h) == AdoptSlot(reply, f, h)
    {
      seq(N_FLOORS, f requires 0 <= f < N_FLOORS => Row(AdoptSlot(reply, f, CallUp), AdoptSlot(reply, f, CallDown)))
    }

    function Heard(who: IP, e: Elevator, now: int): Node {
      var known' := known[who := e];
      this.(known := known', active := UpdateActive(known', active, now))
    }

    function OnRestoreMsg(r: RestoreMsg, now: int): Out
      requires Valid()
    {
      match r
      case EvIAmAlive(who, state) =>
        Out(Heard(who, if who in known then known[who].(time := now) else Elevator(state, now), now), [], [])
      case EvBackupState(who, state, _) =>
        if who != ip && who == state.localIP then Out(Heard(who, Elevator(state, now), now), [], [])
        else Out(this, [], [])
      case EvRequestingState(asker) =>
        if asker != ip && asker in known then
          Out(this, [], [EvRestoredStateReturned(asker, ip, known[asker].state, matrix)])
        else
          Out(this, [], [])
      case EvRestoredStateReturned(asker, _, state, reply) =>
        if asker == ip then
          var adopted := set f: Floor, h: Hall | Adopts(reply, f, h) :: (f, h, "");
          Out(WithCar(CarRun.Restore(Car(), state, Adopt(reply))).(running := running + adopted), [], [])
        else
          Out(this, [], [])
    }

    // ---------------------------------------------------------------- timers and hardware

    function Own(c: Car): Out
      requires Valid()
    {
      Out(WithCar(c), [], [Backup(c.view.localState, c.view.externalOrders)])
    }

    function OnFloorReached(f: Floor): Out
      requires Valid()
    {
      var c := Car().FloorReached(f);
      var done := DoneMsgs(ip, c.1);
      var n := WithCar(c.0);
      Out(n.(armed := armed + set x | x in done), done, [Backup(c.0.view.localState, c.0.view.externalOrders)])
    }

    /** The execution timer of an order fires, main.go:476-519. The closure reads the matrix when it
        fires, so the handler goes by the status of that moment. A node whose own order timed out
        ends its process (`log.Fatal`) and takes no such step. */
    function OnExecutionTimeout(f: Floor, h: Hall, origin: IP, a: IP): Out {
      var o := Slot(f, h);
      match o.status
      case NotActive => Out(this, [OrderMsg(f, h, o.assignedTo, ip, ip, EvNewOrder)], [])
      case Awaiting => Out(this, [OrderMsg(f, h, o.assignedTo, origin, ip, EvOrderConfirmed)], [])
      case UnderExecution => Out(this, [OrderMsg(f, h, a, ip, ip, EvReassignOrder)], [])
    }
  }
}
