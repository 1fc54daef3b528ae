/** Who is named in the orders on the network, and what is done again until it is answered: new orders
    and reassignments name elevators that the cost function chose, an order that is taken is watched,
    and reports are repeated. */
module Origins {
  import opened Typedef
  import opened Cost
  import opened Cars
  import opened Nodes
  import opened Network
  import opened Slots
  import opened Handshake
  import opened Views
  import Conservation

  // ---------------------------------------------------------------- reassignments

  /** `a` is the active elevator that is preferred to all other active ones on this node's view. */
  ghost predicate Best(n: Node, f: Floor, h: Hall, a: IP) {
    && CostReady(n.known, n.active.Keys, n.matrix, f, h)
    && a in n.active
    && forall j :: j in n.active && j != a ==> Preferred(n.known, n.matrix, f, h, a, j)
  }

  lemma ChosenIsBest(n: Node, f: Floor, h: Hall, a: IP)
    requires NodeOk(n) && Chosen(n, f, h, a)
    ensures Best(n, f, h, a)
  {
    CanAssign(n, f, h);
    AssignMeans(n.known, n.active.Keys, n.matrix, f, h);
  }

  /** A reassignment comes only from the execution timer of an order that the node has under execution;
      it names, in the node's own name, the elevator that the event chose. */
  lemma ReassignSource(n: Node, e: NodeEvent, m: OrderMsg)
    requires n.Valid() && ArmedOk(n) && (e.Queued? ==> n.queue != []) && (e.Resend? ==> e.again in n.armed)
    requires m in Next(n, e).orders && m.event == EvReassignOrder
    ensures e.ExecutionTimeout? && m.Is(e.f, e.h) && n.Slot(e.f, e.h).status == UnderExecution
    ensures m.assignedTo == e.next && m.sender == m.origin == n.ip
  {
    if e.Message? {
      ReassignsNothing(n, e.m, m);
    } else if e.Queued? {
      ReassignsNothing(n.(queue := n.queue[1..]), n.queue[0], m);
    } else if e.FloorEvent? {
      FloorMessages(n, e.reached, m);
    }
  }

  lemma ReassignsNothing(n: Node, x: OrderMsg, m: OrderMsg)
    requires n.Valid() && m.event == EvReassignOrder
    ensures m !in n.Receive(x).orders
  {
  }

  /** The order fails at its elevator: at step `j` node `m.sender` has it under execution by an elevator
      other than itself, its execution timer fires, and `m` reassigns it to the elevator that is best
      among the active ones. */
  ghost predicate FailsOver(ss: seq<Sys>, who: seq<IP>, es: seq<NodeEvent>, j: nat, m: OrderMsg)
    requires |ss| == |es| + 1 == |who| + 1 && j < |es|
  {
    && who[j] == m.sender == m.origin && m.sender in ss[j].nodes
    && es[j].ExecutionTimeout? && m.Is(es[j].f, es[j].h)
    && var n, o := ss[j].nodes[m.sender], ss[j].nodes[m.sender].Slot(m.floor, m.button);
       && n.ip == m.sender && (m.floor, m.button, es[j].origin) in n.running
       && o.status == UnderExecution && o.assignedTo != m.sender
       && Best(n, m.floor, m.button, m.assignedTo)
  }

  /** Every EvReassignOrder ever sent is such a decision. */
  lemma {:induction false} ReassignmentsAreChosen(
    ss: seq<Sys>, who: seq<IP>, es: seq<NodeEvent>, k: nat, m: OrderMsg) returns (j: nat)
    requires SysRun(ss, who, es) && InitSys(ss[0]) && k < |ss| && m in ss[k].orders && m.event == EvReassignOrder
    ensures j < k && FailsOver(ss, who, es, j, m)
  {
    hide Next, Chosen, Best, NodeOk, ArmedOk;
    if k == 0 {
      assert false;
    } else {
      assert Steps(ss[k - 1], who[k - 1], es[k - 1], ss[k]);
      if m in ss[k - 1].orders {
        j := ReassignmentsAreChosen(ss, who, es, k - 1, m);
      } else {
        j := k - 1;
        FailsOverNow(ss, who, es, j, m);
      }
    }
  }

  lemma FailsOverNow(ss: seq<Sys>, who: seq<IP>, es: seq<NodeEvent>, j: nat, m: OrderMsg)
    requires SysRun(ss, who, es) && InitSys(ss[0]) && j < |es| && m.event == EvReassignOrder
    requires m in StepSent(ss[j], who[j], es[j])
    ensures FailsOver(ss, who, es, j, m)
  {
    hide Next, Best, NodeOk, ArmedOk, Chosen;
    InitArmedOk(ss[0]);
    ArmedOverRun(ss, who, es, j);
    RunOk(ss, who, es, j);
    assert Steps(ss[j], who[j], es[j], ss[j + 1]);
    ReassignSource(ss[j].nodes[who[j]], es[j], m);
    ChosenIsBest(ss[j].nodes[who[j]], m.floor, m.button, m.assignedTo);
  }

  lemma InitArmedOk(s: Sys)
    requires InitSys(s)
    ensures WellFormed(s) && NoAckArmed(s)
  {
  }

  /** A node that handles a reassignment puts the order back to inactive and has it in its queue as a new
      one: for the same button, with the assignee and the origin of the reassignment. */
  lemma ReassignRequeues(n: Node, m: OrderMsg)
    requires n.Valid() && m.event == EvReassignOrder && n.Slot(m.floor, m.button).status == UnderExecution
    ensures var n' := n.Receive(m).node;
            && n'.Slot(m.floor, m.button) == ElevOrder(NotActive, n.Slot(m.floor, m.button).assignedTo, {})
            && |n'.queue| == |n.queue| + 1
            && n'.queue[..|n.queue|] == n.queue
            && var x := n'.queue[|n.queue|];
               x.Is(m.floor, m.button) && x.event == EvNewOrder && x.assignedTo == m.assignedTo && x.origin == m.origin
  {
  }

  /** An order that falls to a silent elevator is taken up again: when its timer fires at a node with an
      empty queue, three steps of that node later it awaits confirmation for the best active elevator. */
  lemma Failover(s: Sys, i: IP, f: Floor, h: Hall, o: IP, a: IP) returns (s1: Sys, s2: Sys, s3: Sys)
    requires SysOk(s) && i in s.nodes && s.nodes[i].queue == [] && (f, h, o) in s.nodes[i].running
    requires s.nodes[i].Slot(f, h).status == UnderExecution && s.nodes[i].Slot(f, h).assignedTo != i
    requires Chosen(s.nodes[i], f, h, a)
    ensures var m := OrderMsg(f, h, a, i, i, EvReassignOrder);
            Steps(s, i, ExecutionTimeout(f, h, o, a), s1) && Steps(s1, i, Message(m), s2) && Steps(s2, i, Queued, s3)
    ensures Best(s.nodes[i], f, h, a)
    ensures i in s3.nodes && s3.nodes[i].Slot(f, h) == ElevOrder(Awaiting, a, {})
    ensures AckMsg(f, h, a, i, i) in s3.orders && NewMsg(f, h, a, i) in s3.nodes[i].armed
  {
    hide Best;
    ChosenIsBest(s.nodes[i], f, h, a);
    s1 := TimeoutStep(s, i, f, h, o, a);
    s2 := RequeueStep(s1, i, OrderMsg(f, h, a, i, i, EvReassignOrder));
    s3 := QueuedStep(s2, i, NewMsg(f, h, a, i));
  }

  lemma TimeoutStep(s: Sys, i: IP, f: Floor, h: Hall, o: IP, a: IP) returns (s': Sys)
    requires WellFormed(s) && i in s.nodes && (f, h, o) in s.nodes[i].running
    requires s.nodes[i].Slot(f, h).status == UnderExecution && s.nodes[i].Slot(f, h).assignedTo != i
    requires Chosen(s.nodes[i], f, h, a)
    ensures WellFormed(s') && Steps(s, i, ExecutionTimeout(f, h, o, a), s') && s'.nodes == s.nodes
    ensures OrderMsg(f, h, a, i, i, EvReassignOrder) in s'.orders
  {
    s' := Then(s, i, ExecutionTimeout(f, h, o, a));
    assert OrderMsg(f, h, a, i, i, EvReassignOrder) in Next(s.nodes[i], ExecutionTimeout(f, h, o, a)).orders;
    assert s'.nodes == s.nodes;
  }

  lemma RequeueStep(s: Sys, i: IP, m: OrderMsg) returns (s': Sys)
    requires WellFormed(s) && i in s.nodes && s.nodes[i].queue == [] && m in s.orders && m.event == EvReassignOrder
    requires s.nodes[i].Slot(m.floor, m.button).status == UnderExecution && m.sender == m.origin == i
    ensures WellFormed(s') && Steps(s, i, Message(m), s') && i in s'.nodes
    ensures s'.nodes[i].Slot(m.floor, m.button).status == NotActive
    ensures s'.nodes[i].queue == [NewMsg(m.floor, m.button, m.assignedTo, i)]
  {
    var out := s.nodes[i].OnReassignOrder(m);
    assert s.nodes[i].Receive(m) == out && out.node.queue == [m.(event := EvNewOrder)];
    s' := Then(s, i, Message(m));
  }

  lemma QueuedStep(s: Sys, i: IP, m: OrderMsg) returns (s': Sys)
    requires WellFormed(s) && i in s.nodes && s.nodes[i].queue == [m] && m.event == EvNewOrder
    requires s.nodes[i].Slot(m.floor, m.button).status == NotActive && m.sender == m.origin == i
    ensures Steps(s, i, Queued, s') && i in s'.nodes
    ensures s'.nodes[i].Slot(m.floor, m.button) == ElevOrder(Awaiting, m.assignedTo, {})
    ensures AckMsg(m.floor, m.button, m.assignedTo, i, i) in s'.orders && m in s'.nodes[i].armed
  {
    var rest := s.nodes[i].(queue := []);
    assert s.nodes[i].queue[1..] == [];
    assert Next(s.nodes[i], Queued) == rest.OnNewOrder(m);
    assert m.As(i, EvAckNewOrder) in rest.OnNewOrder(m).orders;
    s' := Then(s, i, Queued);
  }

  // ---------------------------------------------------------------- new orders

  /** The same order: button, assignee and origin. */
  predicate SameOrder(x: OrderMsg, m: OrderMsg) {
    x.Is(m.floor, m.button) && x.assignedTo == m.assignedTo && x.origin == m.origin
  }

  /** A new order or reassignment on the network stands for the order. */
  ghost predicate Known(s: Sys, m: OrderMsg) {
    exists x :: x in s.orders && SameOrder(x, m) && (x.event == EvNewOrder || x.event == EvReassignOrder)
  }

  /** Orders that nodes have in their queues, or send again, are known on the network. */
  ghost predicate OrdersKnown(s: Sys) {
    && (forall i, m :: i in s.nodes && m in s.nodes[i].queue ==> m.event == EvNewOrder && Known(s, m))
    && (forall i, m :: i in s.nodes && m in s.nodes[i].armed && m.event == EvNewOrder ==>
          m.sender == m.origin == i && Known(s, m))
  }

  /** What a step adds to queue and timers stands for an order that the node handles. */
  lemma QueueSource(n: Node, e: NodeEvent, m: OrderMsg)
    requires n.Valid() && (e.Queued? ==> n.queue != []) && Conservation.QueueOk(n)
    requires m in Next(n, e).node.queue && m !in n.queue
    ensures e.Message? && e.m.event == EvReassignOrder && SameOrder(m, e.m) && m.event == EvNewOrder
  {
    if e.Message? {
      if e.m.event != EvReassignOrder { SameQueue(n, e.m); }
    } else if e.Queued? {
      SameQueue(n.(queue := n.queue[1..]), n.queue[0]);
    }
  }

  lemma SameQueue(n: Node, m: OrderMsg)
    requires n.Valid() && m.event != EvReassignOrder
    ensures n.Receive(m).node.queue == n.queue
  {
    if m.event == EvOrderConfirmed {
      assert n.OnOrderConfirmed(m).node.queue == n.queue;
    } else {
      Conservation.OtherQueues(n, m);
    }
  }

  lemma ArmedNewSource(n: Node, e: NodeEvent, m: OrderMsg)
    requires n.Valid() && (e.Queued? ==> n.queue != []) && m.event == EvNewOrder
    requires m in Next(n, e).node.armed && m !in n.armed
    ensures m.sender == m.origin == n.ip
    ensures Handled(n, e).Some? && Handled(n, e).value.event == EvNewOrder && SameOrder(m, Handled(n, e).value)
  {
    if e.Message? {
      ArmsNew(n, e.m, m);
    } else if e.Queued? {
      ArmsNew(n.(queue := n.queue[1..]), n.queue[0], m);
    } else if e.FloorEvent? {
      FloorArms(n, e.reached, m);
    } else if e.Restoration? {
      RestorationSlot(n, e.r, e.now, 0, CallUp);
    }
  }

  lemma ArmsNew(n: Node, x: OrderMsg, m: OrderMsg)
    requires n.Valid() && m.event == EvNewOrder && m in n.Receive(x).node.armed && m !in n.armed
    ensures x.event == EvNewOrder && x.origin == n.ip && m == x.As(n.ip, EvNewOrder)
  {
    hide Node.OnAckNewOrder, Node.OnOrderConfirmed, Node.OnAckOrderConfirmed, Node.OnOrderDone, Node.OnAckOrderDone,
      Node.OnReassignOrder;
    AcksArmNoNew(n, x, m);
    OthersArmNoNew(n, x, m);
  }

  lemma AcksArmNoNew(n: Node, x: OrderMsg, m: OrderMsg)
    requires m.event == EvNewOrder && m !in n.armed
    ensures m !in n.OnAckNewOrder(x).node.armed && m !in n.OnAckOrderConfirmed(x).node.armed
    ensures m !in n.OnAckOrderDone(x).node.armed
  {
  }

  lemma OthersArmNoNew(n: Node, x: OrderMsg, m: OrderMsg)
    requires n.Valid() && m.event == EvNewOrder && m !in n.armed
    ensures m !in n.OnOrderConfirmed(x).node.armed && m !in n.OnOrderDone(x).node.armed
    ensures m !in n.OnReassignOrder(x).node.armed
  {
    assert n.OnOrderConfirmed(x).node.armed == n.armed;
  }

  lemma KnownStays(s: Sys, s': Sys, m: OrderMsg)
    requires s.orders <= s'.orders && Known(s, m)
    ensures Known(s', m)
  {
    var x :| x in s.orders && SameOrder(x, m) && (x.event == EvNewOrder || x.event == EvReassignOrder);
    assert x in s'.orders;
  }

  lemma KnownStep(s: Sys, i: IP, e: NodeEvent, s': Sys)
    requires Steps(s, i, e, s') && OrdersKnown(s) && Conservation.QueueOk(s.nodes[i])
    ensures OrdersKnown(s')
  {
    hide Next, Chosen, Known;
    forall j, m | j in s'.nodes && m in s'.nodes[j].queue ensures m.event == EvNewOrder && Known(s', m) {
      if m in s.nodes[j].queue {
        KnownStays(s, s', m);
      } else {
        QueueSource(s.nodes[i], e, m);
        KnownBy(s', e.m, m);
      }
    }
    forall j, m | j in s'.nodes && m in s'.nodes[j].armed && m.event == EvNewOrder
      ensures m.sender == m.origin == j && Known(s', m)
    {
      if m in s.nodes[j].armed {
        KnownStays(s, s', m);
      } else {
        ArmedNewSource(s.nodes[i], e, m);
        if e.Message? {
          KnownBy(s', e.m, m);
        } else {
          KnownStays(s, s', s.nodes[i].queue[0]);
          KnownAlike(s', s.nodes[i].queue[0], m);
        }
      }
    }
  }

  lemma KnownBy(s: Sys, x: OrderMsg, m: OrderMsg)
    requires x in s.orders && SameOrder(m, x) && (x.event == EvNewOrder || x.event == EvReassignOrder)
    ensures Known(s, m)
  {
    assert SameOrder(x, m);
  }

  lemma KnownAlike(s: Sys, x: OrderMsg, m: OrderMsg)
    requires Known(s, x) && SameOrder(m, x)
    ensures Known(s, m)
  {
    var y :| y in s.orders && SameOrder(y, x) && (y.event == EvNewOrder || y.event == EvReassignOrder);
    assert SameOrder(y, m);
  }

  lemma {:induction false} KnownOverRun(ss: seq<Sys>, who: seq<IP>, es: seq<NodeEvent>, k: nat)
    requires SysRun(ss, who, es) && InitSys(ss[0]) && k < |ss|
    ensures OrdersKnown(ss[k])
  {
    hide Next, Chosen, Known, Conservation.QueueOk;
    if k == 0 {
      assert forall i :: i in ss[0].nodes ==> InitNode(ss[0].nodes[i]);
    } else {
      KnownOverRun(ss, who, es, k - 1);
      assert Steps(ss[k - 1], who[k - 1], es[k - 1], ss[k]);
      NodesStay(ss, who, es, k - 1);
      Conservation.InitArmed(ss[0]);
      Conservation.QueuesOk(ss, who, es, k - 1, who[k - 1]);
      KnownStep(ss[k - 1], who[k - 1], es[k - 1], ss[k]);
    }
  }

  /** A new order is sent for a button pressed, by an execution timer where the order is inactive, or
      again by a timer. */
  lemma NewOrderSource(n: Node, e: NodeEvent, m: OrderMsg)
    requires n.Valid() && (e.Queued? ==> n.queue != []) && m in Next(n, e).orders && m.event == EvNewOrder
    ensures (e.Resend? && m == e.again) || m.sender == m.origin == n.ip
    ensures || (e.Resend? && m == e.again)
            || (e.HallPress? && m.Is(e.at, e.hall) && m.assignedTo == e.chosen)
            || (e.ExecutionTimeout? && m.Is(e.f, e.h) && n.Slot(e.f, e.h).status == NotActive
                && m.assignedTo == n.Slot(e.f, e.h).assignedTo)
  {
    if e.Message? {
      SendsNoNew(n, e.m, m);
    } else if e.Queued? {
      SendsNoNew(n.(queue := n.queue[1..]), n.queue[0], m);
    } else if e.FloorEvent? {
      FloorMessages(n, e.reached, m);
    }
  }

  lemma SendsNoNew(n: Node, x: OrderMsg, m: OrderMsg)
    requires n.Valid() && m.event == EvNewOrder
    ensures m !in n.Receive(x).orders
  {
  }

  /** The decision behind a new order, at step `j` at its origin: a button was pressed there and the
      assignee is the best active elevator; or a timer of the order fired, and the assignee is the best
      active elevator, or that of the inactive slot. */
  ghost predicate Decided(ss: seq<Sys>, who: seq<IP>, es: seq<NodeEvent>, j: nat, m: OrderMsg)
    requires |ss| == |es| + 1 == |who| + 1 && j < |es|
  {
    && who[j] == m.origin && m.origin in ss[j].nodes
    && var n, e := ss[j].nodes[m.origin], es[j];
       || (e.HallPress? && m.Is(e.at, e.hall) && m.origin in n.active && Best(n, e.at, e.hall, m.assignedTo))
       || (e.ExecutionTimeout? && m.Is(e.f, e.h)
           && (n.Slot(e.f, e.h).status == UnderExecution ==> Best(n, e.f, e.h, m.assignedTo))
           && (n.Slot(e.f, e.h).status == NotActive ==> m.assignedTo == n.Slot(e.f, e.h).assignedTo)
           && n.Slot(e.f, e.h).status != Awaiting)
  }

  /** Every EvNewOrder ever sent goes back to such a decision of its origin. */
  lemma {:induction false} NewOrdersAreDecided(
    ss: seq<Sys>, who: seq<IP>, es: seq<NodeEvent>, k: nat, m: OrderMsg) returns (j: nat)
    requires SysRun(ss, who, es) && InitSys(ss[0]) && k < |ss| && m in ss[k].orders && m.event == EvNewOrder
    ensures j < k && m.sender == m.origin && Decided(ss, who, es, j, m)
    decreases k
  {
    hide Next, Chosen, Best, NodeOk, Decided, OrdersKnown;
    if k == 0 {
      assert false;
    } else {
      assert Steps(ss[k - 1], who[k - 1], es[k - 1], ss[k]);
      if m in ss[k - 1].orders {
        j := NewOrdersAreDecided(ss, who, es, k - 1, m);
      } else if es[k - 1].Resend? {
        SentByResend(ss[k - 1].nodes[who[k - 1]], es[k - 1], m);
        assert es[k - 1] == Resend(m);
        var x := RepeatedOrder(ss, who, es, k - 1, m);
        if x.event == EvNewOrder {
          j := NewOrdersAreDecided(ss, who, es, k - 1, x);
        } else {
          j := ReassignmentsAreChosen(ss, who, es, k - 1, x);
          ReassignmentDecides(ss, who, es, j, x);
        }
        DecidedAlike(ss, who, es, j, x, m);
      } else {
        j := k - 1;
        DecidedNow(ss, who, es, j, m);
      }
    }
  }

  lemma SentByResend(n: Node, e: NodeEvent, m: OrderMsg)
    requires n.Valid() && e.Resend? && m in Next(n, e).orders
    ensures m == e.again
  {
  }

  lemma RepeatedOrder(ss: seq<Sys>, who: seq<IP>, es: seq<NodeEvent>, k: nat, m: OrderMsg) returns (x: OrderMsg)
    requires SysRun(ss, who, es) && InitSys(ss[0]) && k < |es| && es[k] == Resend(m) && m.event == EvNewOrder
    ensures x in ss[k].orders && SameOrder(x, m) && (x.event == EvNewOrder || x.event == EvReassignOrder)
    ensures m.sender == m.origin
  {
    hide Next, Chosen;
    KnownOverRun(ss, who, es, k);
    assert Steps(ss[k], who[k], es[k], ss[k + 1]);
    assert Known(ss[k], m);
    x :| x in ss[k].orders && SameOrder(x, m) && (x.event == EvNewOrder || x.event == EvReassignOrder);
  }

  lemma ReassignmentDecides(ss: seq<Sys>, who: seq<IP>, es: seq<NodeEvent>, j: nat, m: OrderMsg)
    requires SysRun(ss, who, es) && InitSys(ss[0]) && j < |es| && FailsOver(ss, who, es, j, m)
    ensures Decided(ss, who, es, j, m)
  {
    hide Best;
  }

  lemma DecidedAlike(ss: seq<Sys>, who: seq<IP>, es: seq<NodeEvent>, j: nat, x: OrderMsg, m: OrderMsg)
    requires |ss| == |es| + 1 == |who| + 1 && j < |es| && Decided(ss, who, es, j, x) && SameOrder(x, m)
    ensures Decided(ss, who, es, j, m)
  {
    hide Best;
  }

  lemma DecidedNow(ss: seq<Sys>, who: seq<IP>, es: seq<NodeEvent>, j: nat, m: OrderMsg)
    requires SysRun(ss, who, es) && InitSys(ss[0]) && j < |es| && m.event == EvNewOrder
    requires m in StepSent(ss[j], who[j], es[j]) && !es[j].Resend?
    ensures m.sender == m.origin && Decided(ss, who, es, j, m)
  {
    hide Next, Best, NodeOk, Chosen;
    RunOk(ss, who, es, j);
    assert Steps(ss[j], who[j], es[j], ss[j + 1]);
    NewOrderSource(ss[j].nodes[who[j]], es[j], m);
    if es[j].HallPress? {
      ChosenIsBest(ss[j].nodes[who[j]], m.floor, m.button, m.assignedTo);
    }
  }

  // ---------------------------------------------------------------- watched, acknowledged, repeated

  /** Timers that have been started stay pending in the model. */
  lemma TimersStay(n: Node, e: NodeEvent)
    requires n.Valid() && (e.Queued? ==> n.queue != [])
    ensures n.running <= Next(n, e).node.running && n.armed <= Next(n, e).node.armed
  {
    if e.Message? {
      ReceiveTimers(n, e.m);
    } else if e.Queued? {
      ReceiveTimers(n.(queue := n.queue[1..]), n.queue[0]);
    }
  }

  lemma ReceiveTimers(n: Node, m: OrderMsg)
    requires n.Valid()
    ensures n.running <= n.Receive(m).node.running && n.armed <= n.Receive(m).node.armed
  {
    if m.event == EvOrderConfirmed {
      assert n.OnOrderConfirmed(m).node.armed == n.armed;
    }
  }

  /** An order starts to be watched: confirmed by another origin where it was awaited; at the origin, when
      all active elevators have acknowledged the confirmation; or taken over from a restore reply, where
      no origin is known. */
  predicate StartsWatch(n: Node, e: NodeEvent, f: Floor, h: Hall, o: IP) {
    var got, order := Handled(n, e), n.Slot(f, h);
    || (got.Some? && got.value.Is(f, h) && got.value.event == EvOrderConfirmed && got.value.origin == o != n.ip
        && order.status == Awaiting)
    || (got.Some? && got.value.Is(f, h) && got.value.event == EvAckOrderConfirmed && got.value.origin == o == n.ip
        && order.status == UnderExecution && n.active.Keys <= order.confirmedBy + {got.value.sender})
    || (e.Restoration? && e.r.EvRestoredStateReturned? && e.r.asker == n.ip && o == "" && order.status == NotActive
        && e.r.matrix[f].Get(h).status == UnderExecution && e.r.matrix[f].Get(h).assignedTo != n.ip)
  }

  lemma WatchStarts(n: Node, e: NodeEvent, f: Floor, h: Hall, o: IP)
    requires n.Valid() && (e.Queued? ==> n.queue != []) && StartsWatch(n, e, f, h, o)
    ensures (f, h, o) in Next(n, e).node.running
  {
    if e.Restoration? {
      assert n.Adopts(e.r.matrix, f, h);
    } else {
      var n' := if e.Queued? then n.(queue := n.queue[1..]) else n;
      var m := Handled(n, e).value;
      if m.event == EvOrderConfirmed {
        assert Next(n, e) == n'.OnOrderConfirmed(m);
      } else {
        assert Next(n, e) == n'.OnAckOrderConfirmed(m);
      }
    }
  }

  /** From then on the node's execution timer for the order may fire. */
  lemma {:induction false} WatchedFromThen(
    ss: seq<Sys>, who: seq<IP>, es: seq<NodeEvent>, j: nat, k: nat, f: Floor, h: Hall, o: IP)
    requires SysRun(ss, who, es) && j < k < |ss| && who[j] in ss[j].nodes
    requires StartsWatch(ss[j].nodes[who[j]], es[j], f, h, o)
    ensures who[j] in ss[k].nodes && (f, h, o) in ss[k].nodes[who[j]].running
    decreases k
  {
    hide Next, Chosen, StartsWatch;
    assert Steps(ss[k - 1], who[k - 1], es[k - 1], ss[k]);
    if k == j + 1 {
      WatchStarts(ss[j].nodes[who[j]], es[j], f, h, o);
    } else {
      WatchedFromThen(ss, who, es, j, k - 1, f, h, o);
      if who[k - 1] == who[j] {
        TimersStay(ss[k - 1].nodes[who[j]], es[k - 1]);
      }
    }
  }

  /** A node that hears another's confirmation of an order for an elevator other than itself holds the
      order, and for that elevator if it had none. */
  lemma LearnsConfirmed(n: Node, m: OrderMsg)
    requires n.Valid() && m.event == EvOrderConfirmed && m.sender != n.ip && m.assignedTo != n.ip
    ensures var o, o' := n.Slot(m.floor, m.button), n.Receive(m).node.Slot(m.floor, m.button);
            && o'.status == UnderExecution
            && o'.assignedTo == if o.status == NotActive then m.assignedTo else o.assignedTo
  {
    assert n.Receive(m) == n.OnOrderConfirmed(m);
  }

  /** One that is itself named and did not await the order takes no notice (main.go:286). */
  lemma MissesOwnConfirmed(n: Node, m: OrderMsg)
    requires n.Valid() && m.event == EvOrderConfirmed && m.assignedTo == n.ip
    requires n.Slot(m.floor, m.button).status == NotActive
    ensures n.Receive(m) == Out(n, [], [])
  {
  }

  /** Confirmations are acknowledged wherever the order is active, however often they come. */
  lemma ConfirmationsAcknowledged(n: Node, m: OrderMsg)
    requires n.Valid() && m.event == EvOrderConfirmed && n.Slot(m.floor, m.button).status != NotActive
    ensures exists x :: x in n.Receive(m).orders && SameOrder(x, m)
                        && x.sender == n.ip && x.event == EvAckOrderConfirmed
  {
    var x := m.As(n.ip, EvAckOrderConfirmed);
    assert n.Receive(m) == n.OnOrderConfirmed(m) && x in n.OnOrderConfirmed(m).orders;
  }

  /** It starts no timer for an order that it learns of in this way while it holds none (main.go:286-289),
      so it will not notice if that order fails. */
  lemma LearnedIsUnwatched(n: Node, m: OrderMsg)
    requires n.Valid() && m.event == EvOrderConfirmed && n.Slot(m.floor, m.button).status == NotActive
    ensures n.Receive(m).node.running == n.running && n.Receive(m).node.armed == n.armed
  {
    assert n.Receive(m) == n.OnOrderConfirmed(m);
  }

  /** The acknowledgement is for a phase that this node is in: of its new order, where it awaits; of its
      confirmation, where the order is under execution; of its report, in any status. */
  predicate Collects(n: Node, m: OrderMsg) {
    var status := n.Slot(m.floor, m.button).status;
    || (m.event == EvAckNewOrder && m.origin == n.ip && status == Awaiting)
    || (m.event == EvAckOrderConfirmed && m.origin == n.ip && status == UnderExecution)
    || (m.event == EvAckOrderDone && m.assignedTo == n.ip)
  }

  /** Such an acknowledgement is collected; with the last of the active elevators the phase ends, and
      nothing is left of it for the next. All others are ignored. */
  lemma AcknowledgementsCollected(n: Node, m: OrderMsg)
    requires n.Valid() && m.event in {EvAckNewOrder, EvAckOrderConfirmed, EvAckOrderDone}
    ensures var o, o' := n.Slot(m.floor, m.button), n.Receive(m).node.Slot(m.floor, m.button);
            if !Collects(n, m) then n.Receive(m) == Out(n, [], [])
            else if forall j :: j in n.active ==> j in o.confirmedBy || j == m.sender then o' == o.(confirmedBy := {})
            else o' == o.(confirmedBy := o.confirmedBy + {m.sender})
  {
    var o := n.Slot(m.floor, m.button);
    assert n.active.Keys <= o.confirmedBy + {m.sender} <==>
             forall j :: j in n.active ==> j in o.confirmedBy || j == m.sender;
    AcksOneByOne(n, m);
  }

  lemma AcksOneByOne(n: Node, m: OrderMsg)
    ensures var o := n.Slot(m.floor, m.button);
            var all := o.confirmedBy + {m.sender};
            var o' := o.(confirmedBy := if n.active.Keys <= all then {} else all);
            && (m.event == EvAckNewOrder ==>
                  if Collects(n, m) then n.OnAckNewOrder(m).node.Slot(m.floor, m.button) == o'
                  else n.OnAckNewOrder(m) == Out(n, [], []))
            && (m.event == EvAckOrderConfirmed ==>
                  if Collects(n, m) then n.OnAckOrderConfirmed(m).node.Slot(m.floor, m.button) == o'
                  else n.OnAckOrderConfirmed(m) == Out(n, [], []))
            && (m.event == EvAckOrderDone ==>
                  if Collects(n, m) then n.OnAckOrderDone(m).node.Slot(m.floor, m.button) == o'
                  else n.OnAckOrderDone(m) == Out(n, [], []))
  {
  }

  /** The elevators of which node `i` has handled an acknowledgement of its confirmation of the order from
      step `j` to step `k`. */
  function AckedIn(ss: seq<Sys>, who: seq<IP>, es: seq<NodeEvent>, i: IP, f: Floor, h: Hall, j: nat, k: nat): set<IP>
    requires |ss| == |es| + 1 == |who| + 1 && j <= k <= |es|
    decreases k
  {
    if k == j then {}
    else AckedIn(ss, who, es, i, f, h, j, k - 1) +
         if who[k - 1] == i && i in ss[k - 1].nodes then AckAt(ss[k - 1].nodes[i], es[k - 1], f, h) else {}
  }

  function AckAt(n: Node, e: NodeEvent, f: Floor, h: Hall): set<IP> {
    var got := Handled(n, e);
    if got.Some? && got.value.Is(f, h) && got.value.event == EvAckOrderConfirmed && got.value.origin == n.ip
    then {got.value.sender} else {}
  }

  /** The order stays under execution at the node in this step, and no acknowledgement of a report of it,
      which is collected in the same place, is handled (main.go:440-441). */
  predicate Undisturbed(n: Node, e: NodeEvent, n': Node, f: Floor, h: Hall) {
    && n.Slot(f, h).status == UnderExecution && n'.Slot(f, h).status == UnderExecution
    && (Handled(n, e).Some? ==> !(Handled(n, e).value.Is(f, h) && Handled(n, e).value.event == EvAckOrderDone))
  }

  lemma CollectStep(n: Node, e: NodeEvent, f: Floor, h: Hall, acked: set<IP>)
    requires n.Valid() && (e.Queued? ==> n.queue != []) && Undisturbed(n, e, Next(n, e).node, f, h)
    requires (f, h, n.ip) in n.running || acked <= n.Slot(f, h).confirmedBy
    ensures (f, h, n.ip) in Next(n, e).node.running
            || (acked + AckAt(n, e, f, h) <= Next(n, e).node.Slot(f, h).confirmedBy)
  {
    hide Node.Receive, Node.OnFloorReached, Node.OnRestoreMsg;
    TimersStay(n, e);
    if (f, h, n.ip) in n.running {
    } else if e.Message? {
      CollectMessage(n, e.m, f, h, acked);
    } else if e.Queued? {
      var rest := n.(queue := n.queue[1..]);
      assert Next(n, e) == rest.Receive(n.queue[0]);
      CollectMessage(rest, n.queue[0], f, h, acked);
    } else if e.FloorEvent? {
      FloorKeeps(n, e.reached, f, h);
    } else if e.Restoration? {
      RestorationSlot(n, e.r, e.now, f, h);
    }
  }

  /** A slot that a floor event serves is no longer under execution. */
  lemma FloorKeeps(n: Node, g: Floor, f: Floor, h: Hall)
    requires n.Valid() && n.OnFloorReached(g).node.Slot(f, h).status == UnderExecution
    ensures n.OnFloorReached(g).node.Slot(f, h) == n.Slot(f, h)
  {
    ClearAllSlot(n.matrix, n.Car().FloorReached(g).1, f, h);
  }

  lemma CollectMessage(n: Node, m: OrderMsg, f: Floor, h: Hall, acked: set<IP>)
    requires n.Valid() && !(m.Is(f, h) && m.event == EvAckOrderDone)
    requires n.Slot(f, h).status == UnderExecution && n.Receive(m).node.Slot(f, h).status == UnderExecution
    requires acked <= n.Slot(f, h).confirmedBy
    ensures var more := if m.Is(f, h) && m.event == EvAckOrderConfirmed && m.origin == n.ip then {m.sender} else {};
            (f, h, n.ip) in n.Receive(m).node.running || acked + more <= n.Receive(m).node.Slot(f, h).confirmedBy
  {
    if !m.Is(f, h) {
      OtherSlot(n, m, f, h);
    } else if m.event == EvAckOrderConfirmed {
      AcknowledgementsCollected(n, m);
      if Collects(n, m) && n.active.Keys <= n.Slot(f, h).confirmedBy + {m.sender} {
        WatchStarts(n, Message(m), f, h, n.ip);
      }
    } else if m.event == EvOrderConfirmed {
      assert n.Receive(m) == n.OnOrderConfirmed(m);
    }
  }

  lemma {:induction false} CollectedOrWatched(
    ss: seq<Sys>, who: seq<IP>, es: seq<NodeEvent>, i: IP, f: Floor, h: Hall, j: nat, k: nat)
    requires SysRun(ss, who, es) && j <= k < |ss| && i in ss[0].nodes
    requires forall l :: j <= l < k && who[l] == i ==>
               i in ss[l].nodes && i in ss[l + 1].nodes && Undisturbed(ss[l].nodes[i], es[l], ss[l + 1].nodes[i], f, h)
    ensures i in ss[k].nodes
    ensures (f, h, i) in ss[k].nodes[i].running
            || AckedIn(ss, who, es, i, f, h, j, k) <= ss[k].nodes[i].Slot(f, h).confirmedBy
    decreases k
  {
    hide Next, Chosen, AckAt, Undisturbed;
    NodesStay(ss, who, es, k);
    if k == j {
    } else {
      CollectedOrWatched(ss, who, es, i, f, h, j, k - 1);
      assert Steps(ss[k - 1], who[k - 1], es[k - 1], ss[k]);
      if who[k - 1] == i {
        CollectStep(ss[k - 1].nodes[i], es[k - 1], f, h, AckedIn(ss, who, es, i, f, h, j, k - 1));
      }
    }
  }

  /** An origin watches its order as soon as all active elevators have acknowledged the confirmation. */
  lemma AllAcknowledgedIsWatched(
    ss: seq<Sys>, who: seq<IP>, es: seq<NodeEvent>, i: IP, f: Floor, h: Hall, j: nat, k: nat)
    requires SysRun(ss, who, es) && j < k < |ss| && i in ss[0].nodes && who[k - 1] == i && i in ss[k - 1].nodes
    requires forall l :: j <= l < k && who[l] == i ==>
               i in ss[l].nodes && i in ss[l + 1].nodes && Undisturbed(ss[l].nodes[i], es[l], ss[l + 1].nodes[i], f, h)
    requires AckAt(ss[k - 1].nodes[i], es[k - 1], f, h) != {}
    requires ss[k - 1].nodes[i].active.Keys <= AckedIn(ss, who, es, i, f, h, j, k)
    ensures i in ss[k].nodes && (f, h, i) in ss[k].nodes[i].running
  {
    hide Next, Chosen;
    CollectedOrWatched(ss, who, es, i, f, h, j, k - 1);
    assert Steps(ss[k - 1], i, es[k - 1], ss[k]);
    var n := ss[k - 1].nodes[i];
    TimersStay(n, es[k - 1]);
    if (f, h, i) !in n.running {
      WatchStarts(n, es[k - 1], f, h, i);
    }
  }

  /** What a node has to repeat until it is acknowledged: its own new order, its confirmation, the report
      of an order served at a floor event, and, as the timer at main.go:425 does, its acknowledgement of
      its own report. */
  ghost predicate MustRepeat(n: Node, e: NodeEvent, m: OrderMsg)
    requires n.Valid() && (e.Queued? ==> n.queue != [])
  {
    var got := Handled(n, e);
    || (got.Some? && got.value.event == EvNewOrder && got.value.origin == n.ip
        && n.Slot(got.value.floor, got.value.button).status == NotActive
        && SameOrder(m, got.value) && m.event == EvNewOrder && m.sender == n.ip)
    || (exists c :: c in Confirms(n, e) && Announces(m, c))
    || (e.FloorEvent? && m in Next(n, e).orders && m.event == EvOrderDone)
    || (got.Some? && got.value.event == EvOrderDone && got.value.assignedTo == n.ip
        && SameOrder(m, got.value) && m.event == EvAckOrderDone && m.sender == n.ip)
  }

  lemma RepeatArmed(n: Node, e: NodeEvent, m: OrderMsg)
    requires n.Valid() && (e.Queued? ==> n.queue != []) && MustRepeat(n, e, m)
    ensures m in Next(n, e).node.armed
  {
    if e.FloorEvent? {
      assert m in n.OnFloorReached(e.reached).orders;
    } else {
      var n' := if e.Queued? then n.(queue := n.queue[1..]) else n;
      var x := Handled(n, e).value;
      if x.event == EvNewOrder {
        assert Next(n, e) == n'.OnNewOrder(x) && m == x.As(n.ip, EvNewOrder);
      } else if x.event == EvOrderDone {
        assert Next(n, e) == n'.OnOrderDone(x) && m == x.As(n.ip, EvAckOrderDone);
      } else {
        var c :| c in Confirms(n, e) && Announces(m, c);
        ConfirmsWhen(n, e, c);
        AcksArm(n', x, c);
        assert Next(n, e) == n'.OnAckNewOrder(x);
      }
    }
  }

  lemma AcksArm(n: Node, x: OrderMsg, c: Confirmation)
    requires x == AckMsg(c.floor, c.hall, c.assignee, n.ip, x.sender) && c.origin == n.ip
    requires n.Slot(c.floor, c.hall).status == Awaiting
    requires n.active.Keys <= n.Slot(c.floor, c.hall).confirmedBy + {x.sender}
    ensures forall m :: Announces(m, c) ==> m in n.OnAckNewOrder(x).node.armed
  {
  }

  /** From then on the node may send it again. */
  lemma {:induction false} RepeatableFromThen(
    ss: seq<Sys>, who: seq<IP>, es: seq<NodeEvent>, j: nat, k: nat, m: OrderMsg)
    requires SysRun(ss, who, es) && j < k < |ss| && who[j] in ss[j].nodes
    requires ss[j].nodes[who[j]].Valid() && (es[j].Queued? ==> ss[j].nodes[who[j]].queue != [])
    requires MustRepeat(ss[j].nodes[who[j]], es[j], m)
    ensures who[j] in ss[k].nodes && Enabled(ss[k].nodes[who[j]], Resend(m), ss[k].orders, ss[k].restores)
    decreases k
  {
    hide Next, Chosen, MustRepeat;
    assert Steps(ss[k - 1], who[k - 1], es[k - 1], ss[k]);
    if k == j + 1 {
      RepeatArmed(ss[j].nodes[who[j]], es[j], m);
    } else {
      RepeatableFromThen(ss, who, es, j, k - 1, m);
      if who[k - 1] == who[j] {
        TimersStay(ss[k - 1].nodes[who[j]], es[k - 1]);
      }
    }
  }

  /** The execution timer, when it fires, always sends: a new order, a confirmation or a reassignment, by
      the status at that moment, for the elevator that the slot names or, of the last, for the chosen one. */
  lemma TimeoutSends(n: Node, e: NodeEvent)
    requires n.Valid() && e.ExecutionTimeout?
    ensures Next(n, e).node == n && |Next(n, e).orders| == 1 && Next(n, e).restores == []
    ensures var m, o := Next(n, e).orders[0], n.Slot(e.f, e.h);
            && m.Is(e.f, e.h) && m.sender == n.ip
            && (o.status == NotActive <==> m.event == EvNewOrder)
            && (o.status == Awaiting <==> m.event == EvOrderConfirmed)
            && (o.status == UnderExecution <==> m.event == EvReassignOrder)
            && m.origin == (if o.status == Awaiting then e.origin else n.ip)
            && m.assignedTo == (if o.status == UnderExecution then e.next else o.assignedTo)
  {
  }
}
