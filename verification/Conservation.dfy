/** No order is dropped by the protocol: an order leaves a node only by being reported done there,
    and it is reported done only by a car that stood at its floor. */
module Conservation {
  import opened Typedef
  import opened Cars
  import opened Nodes
  import opened Network
  import opened Views
  import opened Slots
  import CarRun

  /** The node still has the order, or is about to have it again. */
  predicate Pending(n: Node, f: Floor, h: Hall) {
    n.Slot(f, h).status != NotActive || exists m :: m in n.queue && m.Is(f, h) && m.event == EvNewOrder
  }

  /** The node handles another's (or its own) report that the order is done. */
  predicate HearsDone(e: NodeEvent, f: Floor, h: Hall) {
    e.Message? && e.m.event == EvOrderDone && e.m.Is(f, h)
  }

  /** The node's own car serves the order and the node says so. To repeat an earlier report is not to
      serve the order. */
  predicate ReportsDone(n: Node, e: NodeEvent, f: Floor, h: Hall) {
    n.Valid() && (e.Queued? ==> n.queue != []) && !e.Resend? &&
    exists m :: m in Next(n, e).orders && m.Is(f, h) && m.event == EvOrderDone && m.sender == n.ip
  }

  predicate QueueOk(n: Node) {
    forall m :: m in n.queue ==> m.event == EvNewOrder
  }

  lemma ReceiveQueue(n: Node, m: OrderMsg)
    requires n.Valid()
    ensures n.queue <= n.Receive(m).node.queue
    ensures QueueOk(n) ==> QueueOk(n.Receive(m).node)
  {
    if m.event == EvReassignOrder {
      var q := n.OnReassignOrder(m).node.queue;
      assert q == n.queue || q == n.queue + [m.(event := EvNewOrder)];
    } else if m.event == EvOrderConfirmed {
      assert n.OnOrderConfirmed(m).node.queue == n.queue;
    } else {
      OtherQueues(n, m);
    }
  }

  lemma OtherQueues(n: Node, m: OrderMsg)
    requires n.Valid()
    ensures n.OnNewOrder(m).node.queue == n.queue && n.OnAckNewOrder(m).node.queue == n.queue
    ensures n.OnAckOrderConfirmed(m).node.queue == n.queue
    ensures n.OnOrderDone(m).node.queue == n.queue && n.OnAckOrderDone(m).node.queue == n.queue
  {
  }

  lemma NextQueue(n: Node, e: NodeEvent)
    requires n.Valid() && (e.Queued? ==> n.queue != []) && QueueOk(n)
    ensures QueueOk(Next(n, e).node)
  {
    if e.Message? {
      ReceiveQueue(n, e.m);
    } else if e.Queued? {
      ReceiveQueue(n.(queue := n.queue[1..]), n.queue[0]);
    } else {
      assert Next(n, e).node.queue == n.queue;
    }
  }

  // ---------------------------------------------------------------- conservation at one node

  lemma ConfirmedKeepsPending(n: Node, m: OrderMsg, f: Floor, h: Hall)
    requires n.Valid() && m.Is(f, h) && n.Slot(f, h).status != NotActive
    ensures n.OnOrderConfirmed(m).node.Slot(f, h).status != NotActive
            || exists d :: d in n.OnOrderConfirmed(m).orders && d.Is(f, h) && d.event == EvOrderDone && d.sender == n.ip
  {
    var out := n.OnOrderConfirmed(m);
    if n.Slot(f, h).status == Awaiting {
      ConfirmSlot(n.Car(), f, h, m.assignedTo, f, h);
      assert n.Car().Confirm(f, h, m.assignedTo).1 ==> m.As(n.ip, EvOrderDone) in out.orders;
      assert out.node.Slot(f, h) == n.Car().Confirm(f, h, m.assignedTo).0.Slot(f, h);
    }
  }

  lemma AckKeepsSlot(n: Node, m: OrderMsg)
    requires n.Slot(m.floor, m.button).status != NotActive
    ensures n.OnAckNewOrder(m).node.Slot(m.floor, m.button).status != NotActive
    ensures n.OnAckOrderConfirmed(m).node.Slot(m.floor, m.button).status != NotActive
    ensures n.OnAckOrderDone(m).node.Slot(m.floor, m.button).status != NotActive
  {
  }

  lemma NewKeepsSlot(n: Node, m: OrderMsg)
    ensures n.OnNewOrder(m).node.Slot(m.floor, m.button).status != NotActive
  {
  }

  lemma ReassignKeepsPending(n: Node, m: OrderMsg)
    requires n.Slot(m.floor, m.button).status != NotActive
    ensures Pending(n.OnReassignOrder(m).node, m.floor, m.button)
  {
    if n.Slot(m.floor, m.button).status == UnderExecution {
      assert m.(event := EvNewOrder) in n.OnReassignOrder(m).node.queue;
    }
  }

  lemma ReceiveKeepsPending(n: Node, m: OrderMsg, f: Floor, h: Hall)
    requires n.Valid() && Pending(n, f, h) && !HearsDone(Message(m), f, h)
    ensures Pending(n.Receive(m).node, f, h) || ReportsDone(n, Message(m), f, h)
  {
    ReceiveQueue(n, m);
    if n.Slot(f, h).status == NotActive {
      var x :| x in n.queue && x.Is(f, h) && x.event == EvNewOrder;
      assert x in n.Receive(m).node.queue;
    } else if !m.Is(f, h) {
      OtherSlot(n, m, f, h);
    } else if m.event == EvOrderConfirmed {
      ConfirmedKeepsPending(n, m, f, h);
    } else if m.event == EvReassignOrder {
      ReassignKeepsPending(n, m);
    } else {
      NewKeepsSlot(n, m);
      AckKeepsSlot(n, m);
    }
  }

  lemma QueuedKeepsPending(n: Node, f: Floor, h: Hall)
    requires n.Valid() && Pending(n, f, h) && QueueOk(n) && n.queue != []
    ensures Pending(Next(n, Queued).node, f, h)
  {
    var rest, m := n.(queue := n.queue[1..]), n.queue[0];
    assert Next(n, Queued) == rest.OnNewOrder(m);
    assert forall x :: x in n.queue ==> x == m || x in rest.queue;
    if m.Is(f, h) {
      NewKeepsSlot(rest, m);
    } else {
      OtherSlot(rest, m, f, h);
      ReceiveQueue(rest, m);
    }
  }

  /** One event: a pending order stays pending unless the node hears or reports that it is done. */
  lemma NextKeepsPending(n: Node, e: NodeEvent, f: Floor, h: Hall)
    requires n.Valid() && Pending(n, f, h) && QueueOk(n) && (e.Queued? ==> n.queue != [])
    ensures Pending(Next(n, e).node, f, h) || HearsDone(e, f, h) || ReportsDone(n, e, f, h)
  {
    if e.Message? {
      if !HearsDone(e, f, h) { ReceiveKeepsPending(n, e.m, f, h); }
    } else if e.Queued? {
      QueuedKeepsPending(n, f, h);
    } else {
      assert Next(n, e).node.queue == n.queue;
      if e.FloorEvent? {
        FloorReports(n, e.reached, f, h);
      } else if e.Restoration? {
        RestorationSlot(n, e.r, e.now, f, h);
      } else {
        assert Next(n, e).node.Slot(f, h) == n.Slot(f, h);
      }
    }
  }

  lemma FloorReports(n: Node, g: Floor, f: Floor, h: Hall)
    requires n.Valid()
    ensures n.OnFloorReached(g).node.Slot(f, h) == n.Slot(f, h) || ReportsDone(n, FloorEvent(g), f, h)
  {
    FloorSlot(n, g, f, h);
    forall m | m in n.OnFloorReached(g).orders ensures m.sender == n.ip {
      FloorMessages(n, g, m);
    }
  }

  lemma {:induction false} QueuesOk(ss: seq<Sys>, who: seq<IP>, es: seq<NodeEvent>, k: nat, i: IP)
    requires SysRun(ss, who, es) && k < |ss| && i in ss[0].nodes && QueueOk(ss[0].nodes[i])
    ensures WellFormed(ss[k]) && i in ss[k].nodes && QueueOk(ss[k].nodes[i])
  {
    if k == 0 {
    } else {
      QueuesOk(ss, who, es, k - 1, i);
      assert Steps(ss[k - 1], who[k - 1], es[k - 1], ss[k]);
      StepsWellFormed(ss[k - 1], who[k - 1], es[k - 1], ss[k]);
      if who[k - 1] == i {
        NextQueue(ss[k - 1].nodes[i], es[k - 1]);
      }
    }
  }

  lemma PendingStep(s: Sys, j: IP, e: NodeEvent, s': Sys, i: IP, f: Floor, h: Hall)
    requires Steps(s, j, e, s') && i in s.nodes && QueueOk(s.nodes[i]) && Pending(s.nodes[i], f, h)
    requires j == i ==> !HearsDone(e, f, h) && !ReportsDone(s.nodes[i], e, f, h)
    ensures i in s'.nodes && Pending(s'.nodes[i], f, h)
  {
    if j == i {
      NextKeepsPending(s.nodes[i], e, f, h);
    }
  }

  /** Order conservation. From any point where node `i` has an order, until it hears or reports
      that the order is done, it has the order or an EvNewOrder for it in its queue: through any
      sequence of reassignments, confirmations, duplicates, timeouts and restores. */
  lemma {:induction false} OrderConserved(
    ss: seq<Sys>, who: seq<IP>, es: seq<NodeEvent>, from: nat, to: nat, i: IP, f: Floor, h: Hall)
    requires SysRun(ss, who, es) && i in ss[0].nodes && QueueOk(ss[0].nodes[i]) && from <= to < |ss|
    requires i in ss[from].nodes && Pending(ss[from].nodes[i], f, h)
    requires forall k :: from <= k < to && who[k] == i && i in ss[k].nodes ==>
               !HearsDone(es[k], f, h) && !ReportsDone(ss[k].nodes[i], es[k], f, h)
    ensures i in ss[to].nodes && Pending(ss[to].nodes[i], f, h)
  {
    hide Next, Pending, HearsDone, ReportsDone;
    if from == to {
    } else {
      OrderConserved(ss, who, es, from, to - 1, i, f, h);
      QueuesOk(ss, who, es, to - 1, i);
      assert Steps(ss[to - 1], who[to - 1], es[to - 1], ss[to]);
      PendingStep(ss[to - 1], who[to - 1], es[to - 1], ss[to], i, f, h);
    }
  }

  // ---------------------------------------------------------------- done means served

  /** The event is the service that `m` reports: the node's car stands at the floor with its timer
      running, its lamp on (where door, motor and timer were coherent) and the slot cleared; just
      before, the order was under execution by this car, or awaiting the confirmation for this car that
      the event delivers. In that case the door is recorded as open, and the car's state is published;
      a car that stood with a direction has its state published before (main.go:322-324), so that the
      others learn of the open door only if it was open already. */
  predicate Serves(n: Node, e: NodeEvent, m: OrderMsg)
    requires n.Valid() && (e.Queued? ==> n.queue != []) && Next(n, e).node.Valid()
  {
    var c, c' := n.Car(), Next(n, e).node.Car();
    && m.sender == n.ip == m.assignedTo
    && c'.At() == m.floor && !c'.Moving() && c'.doorTimer
    && c'.Slot(m.floor, m.button).status == NotActive
    && (CarRun.Sound(c) ==> c'.doorLamp)
    && ((e.FloorEvent? && c.view.Own(m.floor, m.button))
        || (e.Message? && e.m.event == EvOrderConfirmed && e.m.Is(m.floor, m.button) && e.m.assignedTo == n.ip
            && c.Slot(m.floor, m.button).status == Awaiting && c.At() == m.floor && !c.Moving()
            && c'.view.localState.doorIsOpen
            && OpeningPublished(n, c, c', Next(n, e).restores)))
  }

  /** One backup is published, in the node's name; it shows the car standing at the floor, and an open
      door if and only if the car was idle or its door open before. */
  predicate OpeningPublished(n: Node, c: Car, c': Car, restores: seq<RestoreMsg>) {
    && |restores| == 1 && restores[0].EvBackupState? && restores[0].responder == n.ip
    && var s := restores[0].state;
       && s == c'.view.localState.(doorIsOpen := s.doorIsOpen)
       && (s.doorIsOpen <==> c.Heading() == Stop || c.view.localState.doorIsOpen)
  }

  lemma ConfirmServes(n: Node, x: OrderMsg, m: OrderMsg)
    requires n.Valid() && x.event == EvOrderConfirmed
    requires m in n.OnOrderConfirmed(x).orders && m.event == EvOrderDone
    ensures Next(n, Message(x)).node.Valid() && Serves(n, Message(x), m)
  {
    var c := n.Car().Confirm(x.floor, x.button, x.assignedTo);
    ConfirmSlot(n.Car(), x.floor, x.button, x.assignedTo, x.floor, x.button);
    assert n.Slot(x.floor, x.button).status == Awaiting && c.1 && m == x.As(n.ip, EvOrderDone);
    ConfirmedValid(n, x);
    assert n.OnOrderConfirmed(x).node.Car() == c.0;
  }

  lemma FloorServes(n: Node, g: Floor, m: OrderMsg)
    requires n.Valid() && m in n.OnFloorReached(g).orders
    ensures Next(n, FloorEvent(g)).node.Valid() && Serves(n, FloorEvent(g), m)
  {
    FloorMessages(n, g, m);
    var c := n.Car().FloorReached(g);
    var x :| x in c.1 && m == DoneMsg(n.ip, x);
    assert n.OnFloorReached(g).node.Car() == c.0;
    ClearAllSlot(n.matrix, c.1, x.floor, x.button);
  }

  lemma NoDone(n: Node, m: OrderMsg)
    requires n.Valid() && m.event != EvOrderConfirmed
    ensures SendsNoDone(n, n.Receive(m))
  {
    NoDoneAcks(n, m);
    NoDoneRequests(n, m);
  }

  predicate Done(m: OrderMsg) { m.event == EvOrderDone }

  predicate SendsNoDone(n: Node, out: Out) {
    && (forall x :: x in out.orders ==> !Done(x))
    && (forall x :: x in out.node.armed && Done(x) ==> x in n.armed)
  }

  lemma NoDoneAcks(n: Node, m: OrderMsg)
    ensures SendsNoDone(n, n.OnAckNewOrder(m))
    ensures SendsNoDone(n, n.OnAckOrderConfirmed(m))
    ensures SendsNoDone(n, n.OnAckOrderDone(m))
  {
    hide Update;
  }

  lemma NoDoneRequests(n: Node, m: OrderMsg)
    ensures SendsNoDone(n, n.OnNewOrder(m))
    ensures SendsNoDone(n, n.OnOrderDone(m))
    ensures SendsNoDone(n, n.OnReassignOrder(m))
  {
  }

  /** Where EvOrderDone comes from: a service, or the timeout that repeats an earlier report. */
  lemma DoneSource(n: Node, e: NodeEvent, m: OrderMsg)
    requires n.Valid() && QueueOk(n) && (e.Queued? ==> n.queue != [])
    requires m in Next(n, e).orders && m.event == EvOrderDone
    ensures Next(n, e).node.Valid()
    ensures (e.Resend? && m == e.again) || Serves(n, e, m)
  {
    NextValid(n, e);
    if e.Message? {
      if e.m.event == EvOrderConfirmed { ConfirmServes(n, e.m, m); } else { NoDone(n, e.m); }
    } else if e.Queued? {
      NoDone(n.(queue := n.queue[1..]), n.queue[0]);
    } else if e.FloorEvent? {
      FloorServes(n, e.reached, m);
    }
  }

  /** A timer armed to repeat EvOrderDone repeats one that has been sent. */
  lemma ArmedDone(n: Node, e: NodeEvent, m: OrderMsg)
    requires n.Valid() && QueueOk(n) && (e.Queued? ==> n.queue != [])
    requires m in Next(n, e).node.armed && m.event == EvOrderDone
    ensures m in n.armed || m in Next(n, e).orders
  {
    if e.Message? {
      if e.m.event == EvOrderConfirmed {
        assert n.OnOrderConfirmed(e.m).node.armed == n.armed;
      } else {
        NoDone(n, e.m);
      }
    } else if e.Queued? {
      NoDone(n.(queue := n.queue[1..]), n.queue[0]);
    } else if e.Restoration? {
      assert n.OnRestoreMsg(e.r, e.now).node.armed == n.armed;
    }
  }

  ghost predicate ArmedSent(s: Sys) {
    forall i, m :: i in s.nodes && m in s.nodes[i].armed && m.event == EvOrderDone ==> m in s.orders
  }

  lemma ArmedStep(s: Sys, i: IP, e: NodeEvent, s': Sys)
    requires ArmedSent(s) && Steps(s, i, e, s') && QueueOk(s.nodes[i])
    ensures ArmedSent(s')
  {
    var out := Next(s.nodes[i], e);
    forall j, m | j in s'.nodes && m in s'.nodes[j].armed && m.event == EvOrderDone
      ensures m in s'.orders
    {
      if j == i {
        assert m in out.node.armed;
        ArmedDone(s.nodes[i], e, m);
      } else {
        assert m in s.nodes[j].armed;
      }
    }
  }

  lemma InitArmed(s: Sys)
    requires InitSys(s)
    ensures ArmedSent(s) && forall i :: i in s.nodes ==> QueueOk(s.nodes[i])
  {
  }

  lemma {:induction false} ArmedAreSent(ss: seq<Sys>, who: seq<IP>, es: seq<NodeEvent>, k: nat)
    requires SysRun(ss, who, es) && InitSys(ss[0]) && k < |ss|
    ensures ArmedSent(ss[k])
  {
    hide Next, QueueOk, Chosen, ArmedSent, InitSys;
    InitArmed(ss[0]);
    if k == 0 {
    } else {
      ArmedAreSent(ss, who, es, k - 1);
      NodesStay(ss, who, es, k - 1);
      assert Steps(ss[k - 1], who[k - 1], es[k - 1], ss[k]);
      QueuesOk(ss, who, es, k - 1, who[k - 1]);
      ArmedStep(ss[k - 1], who[k - 1], es[k - 1], ss[k]);
    }
  }

  /** Done means served. Every EvOrderDone ever sent names its sender as assignee, and at some
      earlier step of the run that very elevator served the order, standing at its floor. So when
      a node clears an order on hearing it done, a car really stopped for it. */
  lemma {:induction false} DoneMeansServed(
    ss: seq<Sys>, who: seq<IP>, es: seq<NodeEvent>, k: nat, m: OrderMsg) returns (j: nat)
    requires SysRun(ss, who, es) && InitSys(ss[0]) && k < |ss|
    requires m in ss[k].orders && m.event == EvOrderDone
    ensures m.sender == m.assignedTo
    ensures j < k && who[j] == m.sender && m.sender in ss[j].nodes
    ensures var n := ss[j].nodes[m.sender];
            && n.Valid() && (es[j].Queued? ==> n.queue != []) && Next(n, es[j]).node.Valid()
            && Serves(n, es[j], m)
  {
    var s, i, e := ss[k - 1], who[k - 1], es[k - 1];
    assert Steps(s, i, e, ss[k]);
    if m in s.orders {
      j := DoneMeansServed(ss, who, es, k - 1, m);
    } else {
      NodesStay(ss, who, es, k - 1);
      QueuesOk(ss, who, es, k - 1, i);
      ArmedAreSent(ss, who, es, k - 1);
      DoneSource(s.nodes[i], e, m);
      j := k - 1;
    }
  }
}
