/** Handshake and controller together: a confirmed order reaches the assigned car, and that car
    serves it within the bound. */
module EndToEnd {
  import opened Typedef
  import opened Cars
  import CarRun
  import opened Service
  import opened Nodes
  import opened Network
  import opened Handshake
  import opened Slots
  import Views
  import Conservation

  /** The one assumption on the hardware: a floor event comes from the next floor of a moving car
      (proved of the simulated motor in ClosedLoop). */
  predicate FloorInOrder(n: Node, e: NodeEvent)
    requires n.Valid()
  {
    e.FloorEvent? ==> n.Car().Moving() && e.reached == n.Car().At() + n.Car().Heading().Delta()
  }

  predicate Possible(n: Node, e: NodeEvent)
    requires n.Valid()
  {
    FloorInOrder(n, e) && (e.Queued? ==> n.queue != []) && (e.DoorEvent? ==> n.doorTimer)
  }

  /** What the car sees of an event at its node. */
  function CarEvent(n: Node, e: NodeEvent): CarRun.Event
    requires n.Valid() && Possible(n, e)
  {
    match e
    case Message(m) => MessageEvent(n, m)
    case Queued => MessageEvent(n.(queue := n.queue[1..]), n.queue[0])
    case CabPress(f) => CarRun.Pressed(f)
    case FloorEvent(_) => CarRun.Arrival
    case DoorEvent => CarRun.DoorClosed
    case Restoration(r, _) =>
      if r.EvRestoredStateReturned? && r.asker == n.ip then CarRun.Restored(r.state, n.Adopt(r.matrix))
      else CarRun.Protocol(n.matrix)
    case _ => CarRun.Protocol(n.matrix)
  }

  function MessageEvent(n: Node, m: OrderMsg): CarRun.Event
    requires n.Valid()
  {
    if m.event == EvOrderConfirmed && n.Slot(m.floor, m.button).status == Awaiting
    then CarRun.Confirmed(m.floor, m.button, m.assignedTo)
    else CarRun.Protocol(n.Receive(m).node.matrix)
  }

  predicate OwnsSlot(n: Node, f: Floor, h: Hall) {
    n.Slot(f, h).status == UnderExecution && n.Slot(f, h).assignedTo == n.ip
  }

  // ---------------------------------------------------------------- messages

  /** Acknowledgements leave status and assignee of their slot alone. */
  lemma AcksKeepOwnership(n: Node, m: OrderMsg)
    ensures OwnsSlot(n.OnAckNewOrder(m).node, m.floor, m.button) == OwnsSlot(n, m.floor, m.button)
  {
  }

  lemma LaterAcksKeepOwnership(n: Node, m: OrderMsg)
    ensures OwnsSlot(n.OnAckOrderConfirmed(m).node, m.floor, m.button) == OwnsSlot(n, m.floor, m.button)
    ensures OwnsSlot(n.OnAckOrderDone(m).node, m.floor, m.button) == OwnsSlot(n, m.floor, m.button)
  {
  }

  lemma RequestsKeepOwnership(n: Node, m: OrderMsg)
    ensures OwnsSlot(n.OnNewOrder(m).node, m.floor, m.button) == OwnsSlot(n, m.floor, m.button)
    ensures !OwnsSlot(n.OnOrderDone(m).node, m.floor, m.button)
    ensures !OwnsSlot(n.OnReassignOrder(m).node, m.floor, m.button)
  {
  }

  /** Of the messages that are no confirmation, only done and reassign change what the car owns, and
      they only take it away. */
  lemma SlotOwnership(n: Node, m: OrderMsg, f: Floor, h: Hall)
    requires n.Valid() && m.event != EvOrderConfirmed
    ensures n.Receive(m).node.ip == n.ip
    ensures OwnsSlot(n.Receive(m).node, f, h) ==> OwnsSlot(n, f, h)
    ensures OwnsSlot(n, f, h) && !OwnsSlot(n.Receive(m).node, f, h) ==> Closes(m, f, h)
  {
    hide Node.OnNewOrder, Node.OnAckNewOrder, Node.OnOrderConfirmed, Node.OnAckOrderConfirmed, Node.OnOrderDone,
      Node.OnAckOrderDone, Node.OnReassignOrder;
    ReceiveValid(n, m);
    if m.Is(f, h) {
      AcksKeepOwnership(n, m);
      LaterAcksKeepOwnership(n, m);
      RequestsKeepOwnership(n, m);
    } else {
      OtherSlot(n, m, f, h);
    }
  }

  lemma ReceiveKeepsDoor(n: Node, m: OrderMsg)
    requires n.Valid() && m.event != EvOrderConfirmed
    ensures n.Receive(m).node.doorTimer == n.doorTimer && n.Receive(m).node.doorLamp == n.doorLamp
    ensures n.Receive(m).node.motor == n.motor
  {
    match m.event
    case EvNewOrder => assert n.Receive(m) == n.OnNewOrder(m);
    case EvAckNewOrder => assert n.Receive(m) == n.OnAckNewOrder(m);
    case EvAckOrderConfirmed => assert n.Receive(m) == n.OnAckOrderConfirmed(m);
    case EvOrderDone => assert n.Receive(m) == n.OnOrderDone(m);
    case EvAckOrderDone => assert n.Receive(m) == n.OnAckOrderDone(m);
    case EvReassignOrder => assert n.Receive(m) == n.OnReassignOrder(m);
  }

  lemma OwnIsSlot(n: Node, f: Floor, h: Hall)
    requires n.Valid()
    ensures n.Car().view.Own(f, h) == OwnsSlot(n, f, h)
  {
  }

  /** Nodes with the same record of their own car, seen as changes of the matrix. */
  lemma MatrixStep(n: Node, n': Node)
    requires n.Valid() && n'.Valid() && n'.ip == n.ip && n'.State() == n.State()
    requires n'.doorTimer == n.doorTimer && n'.doorLamp == n.doorLamp && n'.motor == n.motor
    requires forall f: Floor, h: Hall :: OwnsSlot(n', f, h) ==> OwnsSlot(n, f, h)
    ensures CarRun.Step(n.Car(), CarRun.Protocol(n'.matrix), n'.Car())
  {
    forall f: Floor, h: Hall
      ensures n.Car().view.(externalOrders := n'.matrix).Own(f, h) ==> n.Car().view.Own(f, h)
    {
      assert OwnsSlot(n', f, h) ==> OwnsSlot(n, f, h);
    }
  }

  lemma ConfirmStep(n: Node, m: OrderMsg)
    requires n.Valid() && m.event == EvOrderConfirmed
    ensures n.Receive(m).node.Valid()
    ensures CarRun.Step(n.Car(), MessageEvent(n, m), n.Receive(m).node.Car())
    ensures n.Car().view.Own(m.floor, m.button) ==> n.Receive(m).node.Car().view.Own(m.floor, m.button)
  {
    hide Car.Confirm;
    ConfirmedValid(n, m);
    assert n.Receive(m) == n.OnOrderConfirmed(m);
    var n' := n.OnOrderConfirmed(m).node;
    if n.Slot(m.floor, m.button).status == Awaiting {
      assert n'.Car() == n.Car().Confirm(m.floor, m.button, m.assignedTo).0;
    } else {
      MatrixStep(n, n');
    }
  }

  lemma ProtocolStep(n: Node, m: OrderMsg)
    requires n.Valid() && m.event != EvOrderConfirmed
    ensures n.Receive(m).node.Valid()
    ensures CarRun.Step(n.Car(), MessageEvent(n, m), n.Receive(m).node.Car())
  {
    hide Node.Receive;
    ReceiveValid(n, m);
    ReceiveKeepsViews(n, m);
    ReceiveKeepsDoor(n, m);
    forall f: Floor, h: Hall ensures OwnsSlot(n.Receive(m).node, f, h) ==> OwnsSlot(n, f, h) {
      SlotOwnership(n, m, f, h);
    }
    MatrixStep(n, n.Receive(m).node);
  }

  lemma MessageStep(n: Node, m: OrderMsg)
    requires n.Valid()
    ensures n.Receive(m).node.Valid()
    ensures CarRun.Step(n.Car(), MessageEvent(n, m), n.Receive(m).node.Car())
  {
    hide CarRun.Step, Node.Receive, MessageEvent;
    if m.event == EvOrderConfirmed { ConfirmStep(n, m); } else { ProtocolStep(n, m); }
  }

  lemma RestorationStep(n: Node, r: RestoreMsg, now: int)
    requires n.Valid()
    ensures n.OnRestoreMsg(r, now).node.Valid()
    ensures CarRun.Step(n.Car(), CarEvent(n, Restoration(r, now)), n.OnRestoreMsg(r, now).node.Car())
  {
    NextValid(n, Restoration(r, now));
    if r.EvRestoredStateReturned? && r.asker == n.ip {
      forall g: Floor, k: Hall
        ensures n.Car().view.(externalOrders := n.Adopt(r.matrix)).Own(g, k) == n.Car().view.Own(g, k)
      {
        assert n.Adopt(r.matrix)[g].Get(k) == n.AdoptSlot(r.matrix, g, k);
      }
      assert n.OnRestoreMsg(r, now).node.Car() == CarRun.Restore(n.Car(), r.state, n.Adopt(r.matrix));
    } else {
      assert n.OnRestoreMsg(r, now).node.Car() == n.Car();
    }
  }

  // ---------------------------------------------------------------- every event

  /** Refinement: every event at a node is a step of its car. */
  lemma NodeRefinesCar(n: Node, e: NodeEvent)
    requires n.Valid() && Possible(n, e)
    ensures Next(n, e).node.Valid()
    ensures CarRun.Step(n.Car(), CarEvent(n, e), Next(n, e).node.Car())
    ensures CarEvent(n, e).Arrival? <==> e.FloorEvent?
  {
    NextValid(n, e);
    if e.Message? {
      MessageStep(n, e.m);
    } else if e.Queued? {
      var rest := n.(queue := n.queue[1..]);
      assert rest.Car() == n.Car();
      MessageStep(rest, n.queue[0]);
    } else if e.Restoration? {
      RestorationStep(n, e.r, e.now);
    } else if e.FloorEvent? {
      assert Next(n, e).node.Car() == n.Car().FloorReached(e.reached).0;
    } else if e.DoorEvent? {
      assert Next(n, e).node.Car() == n.Car().DoorTimeout();
    } else if e.CabPress? {
      assert Next(n, e).node.Car() == n.Car().InternalButton(e.floor);
    } else {
      assert Next(n, e).node.Car() == n.Car();
    }
  }

  /** The node handles a message that takes the order away. */
  predicate TakenBy(n: Node, e: NodeEvent, f: Floor, h: Hall) {
    || (e.Message? && Closes(e.m, f, h))
    || (e.Queued? && n.queue != [] && Closes(n.queue[0], f, h))
  }

  /** The node's car serves the order at a floor event, standing there with the lamp on, and reports it. */
  predicate ServedBy(n: Node, e: NodeEvent, f: Floor, h: Hall)
    requires n.Valid() && (e.Queued? ==> n.queue != []) && Next(n, e).node.Valid()
  {
    var c := Next(n, e).node.Car();
    && e.FloorEvent? && n.Car().view.Own(f, h)
    && c.At() == f && !c.Moving() && c.doorLamp
    && exists m :: m in Next(n, e).orders && m.Is(f, h) && m.event == EvOrderDone && m.sender == n.ip == m.assignedTo
  }

  lemma TakenByMessage(n: Node, m: OrderMsg, f: Floor, h: Hall)
    requires n.Valid() && n.Car().view.Own(f, h)
    ensures n.Receive(m).node.Valid()
    ensures !n.Receive(m).node.Car().view.Own(f, h) ==> Closes(m, f, h)
  {
    hide Node.Receive;
    ReceiveValid(n, m);
    OwnIsSlot(n, f, h);
    OwnIsSlot(n.Receive(m).node, f, h);
    if m.event == EvOrderConfirmed {
      if m.Is(f, h) { ConfirmStep(n, m); } else { OtherSlot(n, m, f, h); }
    } else {
      SlotOwnership(n, m, f, h);
    }
  }

  /** A car that serves a hall order at a floor event says so to everyone. */
  lemma ServedIsReported(n: Node, g: Floor, f: Floor, h: Hall)
    requires n.Valid() && n.Car().view.Own(f, h) && n.OnFloorReached(g).node.Valid()
    requires !n.OnFloorReached(g).node.Car().view.Own(f, h)
    ensures ServedBy(n, FloorEvent(g), f, h)
  {
    var c := n.Car().FloorReached(g);
    assert n.OnFloorReached(g).node.Car() == c.0;
    FloorReachedOwn(n.Car(), g, f, h);
    var x :| x in c.1 && x.button == h;
    FloorMessages(n, g, DoneMsg(n.ip, x));
  }

  /** An own hall order leaves a node only by service, with a report, or by such a message. */
  lemma LeavesNode(n: Node, e: NodeEvent, f: Floor, h: Hall)
    requires n.Valid() && Possible(n, e) && n.Car().view.Own(f, h)
    ensures Next(n, e).node.Valid()
    ensures !Next(n, e).node.Car().view.Own(f, h) ==> ServedBy(n, e, f, h) || TakenBy(n, e, f, h)
  {
    NextValid(n, e);
    if !Next(n, e).node.Car().view.Own(f, h) {
      if e.Message? {
        TakenByMessage(n, e.m, f, h);
      } else if e.Queued? {
        var rest := n.(queue := n.queue[1..]);
        assert rest.Car() == n.Car();
        TakenByMessage(rest, n.queue[0], f, h);
      } else {
        LeavesByHardware(n, e, f, h);
      }
    }
  }

  lemma LeavesByHardware(n: Node, e: NodeEvent, f: Floor, h: Hall)
    requires n.Valid() && Possible(n, e) && n.Car().view.Own(f, h) && !e.Message? && !e.Queued?
    requires Next(n, e).node.Valid() && !Next(n, e).node.Car().view.Own(f, h)
    ensures ServedBy(n, e, f, h)
  {
    if e.FloorEvent? {
      ServedIsReported(n, e.reached, f, h);
    } else {
      KeepsOwn(n, e, f, h);
    }
  }

  lemma KeepsOwn(n: Node, e: NodeEvent, f: Floor, h: Hall)
    requires n.Valid() && Possible(n, e) && n.Car().view.Own(f, h) && !e.Message? && !e.Queued? && !e.FloorEvent?
    ensures Next(n, e).node.Valid() && Next(n, e).node.Car().view.Own(f, h)
  {
    NextValid(n, e);
    if e.Restoration? {
      RestorationSlot(n, e.r, e.now, f, h);
    }
    OwnIsSlot(n, f, h);
    OwnIsSlot(Next(n, e).node, f, h);
  }

  // ---------------------------------------------------------------- one node of a run

  /** Every floor event at node `i` comes from the next floor. */
  ghost predicate InOrder(ss: seq<Sys>, who: seq<IP>, es: seq<NodeEvent>, i: IP) {
    && SysRun(ss, who, es)
    && (forall k :: 0 <= k < |ss| ==> i in ss[k].nodes && ss[k].nodes[i].Valid())
    && forall k :: 0 <= k < |es| && who[k] == i ==> FloorInOrder(ss[k].nodes[i], es[k])
  }

  function CarsOf(ss: seq<Sys>, i: IP): (cs: seq<Car>)
    requires forall k :: 0 <= k < |ss| ==> i in ss[k].nodes && ss[k].nodes[i].Valid()
    ensures |cs| == |ss| && forall k :: 0 <= k < |ss| ==> cs[k] == ss[k].nodes[i].Car()
  {
    seq(|ss|, k requires 0 <= k < |ss| => ss[k].nodes[i].Car())
  }

  /** Number of floor events at node `i` among the first `n` steps. */
  function FloorEvents(who: seq<IP>, es: seq<NodeEvent>, i: IP, n: nat): nat
    requires n <= |es| == |who|
  {
    if n == 0 then 0 else FloorEvents(who, es, i, n - 1) + if who[n - 1] == i && es[n - 1].FloorEvent? then 1 else 0
  }

  lemma EnabledIsPossible(s: Sys, i: IP, e: NodeEvent, s': Sys)
    requires Steps(s, i, e, s') && s.nodes[i].Valid() && FloorInOrder(s.nodes[i], e)
    ensures Possible(s.nodes[i], e)
  {
  }

  /** Car event of one step of the system: a stutter if another node took it. */
  ghost function StepEvent(s: Sys, j: IP, e: NodeEvent, i: IP): CarRun.Event
    requires i in s.nodes && s.nodes[i].Valid() && (j == i ==> Possible(s.nodes[i], e))
  {
    if j == i then CarEvent(s.nodes[i], e) else CarRun.Protocol(s.nodes[i].matrix)
  }

  lemma SystemStepIsCarStep(s: Sys, j: IP, e: NodeEvent, s': Sys, i: IP)
    requires Steps(s, j, e, s') && i in s.nodes && s.nodes[i].Valid() && i in s'.nodes && s'.nodes[i].Valid()
    requires j == i ==> Possible(s.nodes[i], e)
    ensures CarRun.Step(s.nodes[i].Car(), StepEvent(s, j, e, i), s'.nodes[i].Car())
    ensures StepEvent(s, j, e, i).Arrival? <==> j == i && e.FloorEvent?
  {
    hide Next, CarEvent, Confirms;
    if j == i {
      NodeRefinesCar(s.nodes[i], e);
    } else {
      assert s'.nodes[i] == s.nodes[i];
    }
  }

  ghost function CarEventsOf(ss: seq<Sys>, who: seq<IP>, es: seq<NodeEvent>, i: IP): (ces: seq<CarRun.Event>)
    requires InOrder(ss, who, es, i)
    requires forall k :: 0 <= k < |es| && who[k] == i ==> Possible(ss[k].nodes[i], es[k])
    ensures |ces| == |es| && forall k :: 0 <= k < |es| ==> ces[k] == StepEvent(ss[k], who[k], es[k], i)
  {
    seq(|es|, k requires 0 <= k < |es| => StepEvent(ss[k], who[k], es[k], i))
  }

  lemma {:induction false} CountArrivals(ces: seq<CarRun.Event>, who: seq<IP>, es: seq<NodeEvent>, i: IP, n: nat)
    requires |ces| == |who| == |es| && n <= |es|
    requires forall k :: 0 <= k < n ==> (ces[k].Arrival? <==> who[k] == i && es[k].FloorEvent?)
    ensures Arrivals(ces[..n]) == FloorEvents(who, es, i, n)
  {
    if n == 0 {
    } else {
      CountArrivals(ces, who, es, i, n - 1);
      assert ces[..n][..n - 1] == ces[..n - 1];
    }
  }

  /** The run of a node is a run of its car, floor event by floor event. */
  lemma NodeRunIsCarRun(ss: seq<Sys>, who: seq<IP>, es: seq<NodeEvent>, i: IP) returns (ces: seq<CarRun.Event>)
    requires InOrder(ss, who, es, i)
    ensures CarRun.Run(CarsOf(ss, i), ces) && |ces| == |es|
    ensures forall k :: 0 <= k < |es| ==> (ces[k].Arrival? <==> who[k] == i && es[k].FloorEvent?)
    ensures forall n :: 0 <= n <= |es| ==> Arrivals(ces[..n]) == FloorEvents(who, es, i, n)
  {
    hide Next, CarEvent, Steps, CarRun.Step, FloorInOrder;
    forall k | 0 <= k < |es| && who[k] == i ensures Possible(ss[k].nodes[i], es[k]) {
      EnabledIsPossible(ss[k], i, es[k], ss[k + 1]);
    }
    ces := CarEventsOf(ss, who, es, i);
    forall k | 0 <= k < |es|
      ensures CarRun.Step(CarsOf(ss, i)[k], ces[k], CarsOf(ss, i)[k + 1])
      ensures ces[k].Arrival? <==> who[k] == i && es[k].FloorEvent?
    {
      SystemStepIsCarStep(ss[k], who[k], es[k], ss[k + 1], i);
    }
    forall n | 0 <= n <= |es| ensures Arrivals(ces[..n]) == FloorEvents(who, es, i, n) {
      CountArrivals(ces, who, es, i, n);
    }
  }

  lemma OtherNodesStay(s: Sys, j: IP, e: NodeEvent, s': Sys, i: IP)
    requires Steps(s, j, e, s') && i in s.nodes
    ensures i in s'.nodes && (j != i ==> s'.nodes[i] == s.nodes[i])
  {
  }

  lemma StepsLeaves(s: Sys, j: IP, e: NodeEvent, s': Sys, i: IP, f: Floor, h: Hall)
    requires Steps(s, j, e, s') && i in s.nodes && s.nodes[i].Valid() && i in s'.nodes && s'.nodes[i].Valid()
    requires j == i ==> FloorInOrder(s.nodes[i], e)
    requires s.nodes[i].Car().view.Own(f, h) && !s'.nodes[i].Car().view.Own(f, h)
    ensures j == i && Possible(s.nodes[i], e) && Next(s.nodes[i], e).node.Valid()
    ensures ServedBy(s.nodes[i], e, f, h) || TakenBy(s.nodes[i], e, f, h)
  {
    hide Next, ServedBy, TakenBy, Confirms;
    OtherNodesStay(s, j, e, s', i);
    EnabledIsPossible(s, i, e, s');
    LeavesNode(s.nodes[i], e, f, h);
  }

  /** A node that owns a hall order serves and reports it by the 2 * (N - 1)th floor event from then
      on, unless before that it handles a message that takes the order away. */
  lemma OwnOrderGetsDone(ss: seq<Sys>, who: seq<IP>, es: seq<NodeEvent>, i: IP, f: Floor, h: Hall) returns (k: nat)
    requires InOrder(ss, who, es, i)
    requires CarRun.Sound(ss[0].nodes[i].Car()) && ss[0].nodes[i].Car().view.Own(f, h)
    requires FloorEvents(who, es, i, |es|) >= 2 * (N_FLOORS - 1)
    ensures k < |es| && who[k] == i && FloorEvents(who, es, i, k) < 2 * (N_FLOORS - 1)
    ensures Possible(ss[k].nodes[i], es[k]) && Next(ss[k].nodes[i], es[k]).node.Valid()
    ensures ServedBy(ss[k].nodes[i], es[k], f, h) || TakenBy(ss[k].nodes[i], es[k], f, h)
  {
    hide Next, Steps, CarRun.Step, ServedBy, TakenBy, FloorInOrder, CarRun.Sound;
    var ces := NodeRunIsCarRun(ss, who, es, i);
    assert ces[..|es|] == ces;
    k := BoundedService(CarsOf(ss, i), ces, f, h);
    StepsLeaves(ss[k], who[k], es[k], ss[k + 1], i, f, h);
  }

  /** From initialisation on, whatever happens, every node's car is sound. */
  lemma SoundFromInit(ss: seq<Sys>, who: seq<IP>, es: seq<NodeEvent>, i: IP, k: nat)
    requires InOrder(ss, who, es, i) && Views.InitSys(ss[0]) && k < |ss|
    ensures CarRun.Sound(ss[k].nodes[i].Car())
  {
    hide Steps, CarRun.Step, CarRun.Sound, FloorInOrder;
    var ces := NodeRunIsCarRun(ss, who, es, i);
    assert Views.InitNode(ss[0].nodes[i]);
    CarRun.InitInv(ss[0].nodes[i].Car());
    InvIsSound(ss[0].nodes[i].Car());
    CarRun.RunSound(CarsOf(ss, i), ces, k);
  }

  lemma InvIsSound(c: Car)
    requires CarRun.Inv(c)
    ensures CarRun.Sound(c)
  {
  }

  lemma PartInOrder(ss: seq<Sys>, who: seq<IP>, es: seq<NodeEvent>, i: IP, q: nat)
    requires InOrder(ss, who, es, i) && q <= |es|
    ensures InOrder(ss[q..], who[q..], es[q..], i)
  {
    hide Steps, FloorInOrder;
    PartIsRun(ss, who, es, q, |es|);
    assert ss[q..|es| + 1] == ss[q..] && who[q..|es|] == who[q..] && es[q..|es|] == es[q..];
  }

  /** The same from any step `q` of a run. */
  lemma OwnOrderGetsDoneFrom(ss: seq<Sys>, who: seq<IP>, es: seq<NodeEvent>, q: nat, i: IP, f: Floor, h: Hall)
    returns (k: nat)
    requires InOrder(ss, who, es, i) && q <= |es|
    requires CarRun.Sound(ss[q].nodes[i].Car()) && ss[q].nodes[i].Car().view.Own(f, h)
    requires FloorEvents(who[q..], es[q..], i, |es| - q) >= 2 * (N_FLOORS - 1)
    ensures q <= k < |es| && who[k] == i && FloorEvents(who[q..], es[q..], i, k - q) < 2 * (N_FLOORS - 1)
    ensures Possible(ss[k].nodes[i], es[k]) && Next(ss[k].nodes[i], es[k]).node.Valid()
    ensures ServedBy(ss[k].nodes[i], es[k], f, h) || TakenBy(ss[k].nodes[i], es[k], f, h)
  {
    hide Next, Steps, ServedBy, TakenBy, FloorInOrder, CarRun.Sound;
    PartInOrder(ss, who, es, i, q);
    var n := OwnOrderGetsDone(ss[q..], who[q..], es[q..], i, f, h);
    k := q + n;
  }

  /** An order taken by the elevator of the active set that it was confirmed to is its own. */
  lemma TakenIsOwn(
    ss: seq<Sys>, who: seq<IP>, es: seq<NodeEvent>, p: nat, q: nat, f: Floor, h: Hall, r: nat, c: Confirmation)
    requires Round(ss, who, es, p, q, f, h) && OneAssigneePerOrigin(ss, who, es, p, q, f, h)
    requires p <= r < q && ConfirmedAt(ss, who, es, r, f, h, c) && c.assignee in c.active
    ensures c.assignee in ss[q].nodes && ss[q].nodes[c.assignee].Valid() && ss[q].nodes[c.assignee].ip == c.assignee
    ensures ss[q].nodes[c.assignee].Slot(f, h).status == UnderExecution ==> ss[q].nodes[c.assignee].Car().view.Own(f, h)
  {
    hide Steps, Quiet, OneAssigneePerOrigin;
    RunWellFormed(ss, who, es, q);
    Agreement(ss, who, es, p, q, f, h, r, c, c.assignee);
    OwnIsSlot(ss[q].nodes[c.assignee], f, h);
  }

  /** And an order that this elevator serves on hearing it confirmed is assigned to it. */
  lemma ServedOnConfirmationIsOwn(
    ss: seq<Sys>, who: seq<IP>, es: seq<NodeEvent>, p: nat, q: nat, f: Floor, h: Hall, r: nat, c: Confirmation,
    m: OrderMsg)
    requires Round(ss, who, es, p, q, f, h) && OneAssigneePerOrigin(ss, who, es, p, q, f, h)
    requires p <= r < q < |es| && ConfirmedAt(ss, who, es, r, f, h, c) && c.assignee in c.active
    requires who[q] == c.assignee && es[q].Message? && Announces(es[q].m, c)
    requires m in StepSent(ss[q], who[q], es[q]) && m.event == EvOrderDone
    ensures who[q] in ss[q].nodes
    ensures var n := ss[q].nodes[who[q]];
            && n.Slot(f, h).status == Awaiting && n.Slot(f, h).assignedTo == n.ip == m.sender == m.assignedTo
            && n.Valid() && n.Car().At() == f && !n.Car().Moving()
  {
    hide Steps, Quiet, OneAssigneePerOrigin, StepConfirms;
    RunWellFormed(ss, who, es, q);
    Agreement(ss, who, es, p, q, f, h, r, c, c.assignee);
    Conservation.ConfirmServes(ss[q].nodes[who[q]], es[q].m, m);
  }

  /** A confirmed order is served. Take any run of the system from initialisation. From step `p` to
      step `q` it is in a round of the button in which an origin confirms the order, at step `r`, to an
      elevator `a` of its active set, and at `q` that elevator has taken the order. Then it is `a`'s
      own, and by the 2 * (N - 1)th floor event at `a` from then on, whatever other orders, replies and
      messages come in, `a` serves and reports it, unless it first handles a message that takes the
      order away: a reassignment, or a report of an elevator that had itself stopped for it, at a step
      `j` of the run. */
  lemma ConfirmedOrderIsServed(
    ss: seq<Sys>, who: seq<IP>, es: seq<NodeEvent>, p: nat, q: nat, f: Floor, h: Hall, r: nat, c: Confirmation)
    returns (k: nat, j: nat)
    requires InOrder(ss, who, es, c.assignee) && Views.InitSys(ss[0])
    requires Round(ss, who, es, p, q, f, h) && OneAssigneePerOrigin(ss, who, es, p, q, f, h)
    requires p <= r < q && ConfirmedAt(ss, who, es, r, f, h, c) && c.assignee in c.active
    requires ss[q].nodes[c.assignee].Slot(f, h).status == UnderExecution
    requires FloorEvents(who[q..], es[q..], c.assignee, |es| - q) >= 2 * (N_FLOORS - 1)
    ensures ss[q].nodes[c.assignee].Car().view.Own(f, h)
    ensures q <= k < |es| && who[k] == c.assignee
    ensures FloorEvents(who[q..], es[q..], c.assignee, k - q) < 2 * (N_FLOORS - 1)
    ensures Possible(ss[k].nodes[c.assignee], es[k]) && Next(ss[k].nodes[c.assignee], es[k]).node.Valid()
    ensures ServedBy(ss[k].nodes[c.assignee], es[k], f, h)
            || (es[k].Message? && es[k].m.Is(f, h) && es[k].m.event == EvReassignOrder)
            || (es[k].Message? && es[k].m.Is(f, h) && es[k].m.event == EvOrderDone
                && ServedAt(ss, who, es, j, k, es[k].m))
  {
    hide Steps, ServedBy, FloorInOrder, Quiet, ServedAt, OneAssigneePerOrigin, ConfirmedAt;
    TakenIsOwn(ss, who, es, p, q, f, h, r, c);
    SoundFromInit(ss, who, es, c.assignee, q);
    k := OwnOrderGetsDoneFrom(ss, who, es, q, c.assignee, f, h);
    j := 0;
    if !ServedBy(ss[k].nodes[c.assignee], es[k], f, h) {
      j := TakenMeans(ss, who, es, c.assignee, k, f, h);
    }
  }

  /** At step `j` before step `k` the sender of `m` serves the order that `m` reports done. */
  ghost predicate ServedAt(ss: seq<Sys>, who: seq<IP>, es: seq<NodeEvent>, j: nat, k: nat, m: OrderMsg)
    requires |ss| == |es| + 1 == |who| + 1 && k < |es|
  {
    && j < k && who[j] == m.sender == m.assignedTo && m.sender in ss[j].nodes
    && var n := ss[j].nodes[m.sender];
       n.Valid() && (es[j].Queued? ==> n.queue != []) && Next(n, es[j]).node.Valid() && Conservation.Serves(n, es[j], m)
  }

  lemma TakenMeans(ss: seq<Sys>, who: seq<IP>, es: seq<NodeEvent>, i: IP, k: nat, f: Floor, h: Hall) returns (j: nat)
    requires InOrder(ss, who, es, i) && Views.InitSys(ss[0]) && k < |es| && who[k] == i
    requires TakenBy(ss[k].nodes[i], es[k], f, h)
    ensures es[k].Message? && es[k].m.Is(f, h)
    ensures es[k].m.event == EvReassignOrder || (es[k].m.event == EvOrderDone && ServedAt(ss, who, es, j, k, es[k].m))
  {
    hide Next, FloorInOrder, Conservation.Serves;
    assert Views.InitNode(ss[0].nodes[i]);
    Conservation.QueuesOk(ss, who, es, k, i);
    j := 0;
    assert Steps(ss[k], i, es[k], ss[k + 1]);
    if es[k].m.event == EvOrderDone {
      j := Conservation.DoneMeansServed(ss, who, es, k, es[k].m);
    }
  }
}
