/** The order handshake for one button (f, h), over all runs of the network.

    A round of a button is any part of a run that starts with the button inactive on every node and
    ends before an EvOrderDone or EvReassignOrder for it is sent. The button may have been pressed and
    served any number of times before; messages and timers of that time may still take effect, except
    in the four ways listed under `Disturbs`. Nodes do not crash within a round. */
module Handshake {
  import opened Typedef
  import opened Cars
  import opened Nodes
  import opened Network
  import opened Slots

  function NewMsg(f: Floor, h: Hall, a: IP, o: IP): OrderMsg { OrderMsg(f, h, a, o, o, EvNewOrder) }

  function AckMsg(f: Floor, h: Hall, a: IP, o: IP, x: IP): OrderMsg { OrderMsg(f, h, a, o, x, EvAckNewOrder) }

  /** The message ends the round. */
  predicate Closes(m: OrderMsg, f: Floor, h: Hall) {
    m.Is(f, h) && (m.event == EvOrderDone || m.event == EvReassignOrder)
  }

  /** The node handles a message of an earlier order in a way that disturbs the round: an
      acknowledgement that was not sent in this round, where it awaits acknowledgements; the
      acknowledgement of an order done, which is collected in any status (main.go:440-441), there; or
      a report or a reassignment that deactivates the order. */
  predicate Disturbs(n: Node, got: Option<OrderMsg>, sent: set<OrderMsg>, f: Floor, h: Hall) {
    && got.Some? && got.value.Is(f, h)
    && var m, status := got.value, n.Slot(f, h).status;
       || (m.event == EvAckNewOrder && m.origin == n.ip && status == Awaiting && m !in sent)
       || (m.event == EvAckOrderDone && m.assignedTo == n.ip && status == Awaiting)
       || (m.event == EvOrderDone && status != NotActive)
       || (m.event == EvReassignOrder && status == UnderExecution)
  }

  // ---------------------------------------------------------------- what one step does to the slot

  /** An active slot keeps its assignee; a new order is acknowledged only where the slot becomes
      active by it, with its assignee; and what an awaiting node has collected are acknowledgements of
      this round. */
  predicate SlotStep(n: Node, got: Option<OrderMsg>, out: Out, sent: set<OrderMsg>, f: Floor, h: Hall) {
    var o, o' := n.Slot(f, h), out.node.Slot(f, h);
    && (o.status != NotActive ==> o'.status != NotActive && o'.assignedTo == o.assignedTo)
    && (o.status == UnderExecution ==> o'.status == UnderExecution)
    && (forall m :: m in out.orders && m.Is(f, h) && m.event == EvAckNewOrder ==>
          && o.status == NotActive && o'.status != NotActive && o'.assignedTo == m.assignedTo
          && got.Some? && got.value.event == EvNewOrder && m == got.value.As(n.ip, EvAckNewOrder))
    && (o'.status == Awaiting ==> forall x :: x in o'.confirmedBy ==>
          || (o.status == Awaiting && x in o.confirmedBy)
          || (got.Some? && got.value in sent && got.value == AckMsg(f, h, got.value.assignedTo, n.ip, x)))
  }

  predicate Open(out: Out, f: Floor, h: Hall) {
    forall m :: m in out.orders ==> !Closes(m, f, h)
  }

  lemma NewOrderStep(n: Node, m: OrderMsg, sent: set<OrderMsg>, f: Floor, h: Hall)
    requires m.Is(f, h) && m.event == EvNewOrder
    ensures SlotStep(n, Some(m), n.OnNewOrder(m), sent, f, h)
  {
  }

  lemma AckNewOrderStep(n: Node, m: OrderMsg, sent: set<OrderMsg>, f: Floor, h: Hall)
    requires m.Is(f, h) && m.event == EvAckNewOrder && !Disturbs(n, Some(m), sent, f, h)
    ensures SlotStep(n, Some(m), n.OnAckNewOrder(m), sent, f, h)
  {
    assert m.origin == n.ip ==> m == AckMsg(f, h, m.assignedTo, n.ip, m.sender);
  }

  /** A confirmation that does not end the round is not served on the spot. */
  lemma ConfirmedStep(n: Node, m: OrderMsg, sent: set<OrderMsg>, f: Floor, h: Hall)
    requires n.Valid() && m.Is(f, h) && Open(n.OnOrderConfirmed(m), f, h)
    ensures SlotStep(n, Some(m), n.OnOrderConfirmed(m), sent, f, h)
    ensures n.Slot(f, h).status == Awaiting ==> n.OnOrderConfirmed(m).node.Slot(f, h).status == UnderExecution
  {
    if n.Slot(f, h).status == Awaiting {
      var out := n.OnOrderConfirmed(m);
      var c := n.Car().Confirm(f, h, m.assignedTo);
      ConfirmSlot(n.Car(), f, h, m.assignedTo, f, h);
      assert c.1 ==> m.As(n.ip, EvOrderDone) in out.orders;
      assert out.node.Slot(f, h) == n.Slot(f, h).(status := UnderExecution);
    }
  }

  lemma LaterAckStep(n: Node, m: OrderMsg, sent: set<OrderMsg>, f: Floor, h: Hall)
    requires m.Is(f, h) && !Disturbs(n, Some(m), sent, f, h)
    ensures m.event == EvAckOrderConfirmed ==> SlotStep(n, Some(m), n.OnAckOrderConfirmed(m), sent, f, h)
    ensures m.event == EvAckOrderDone ==> SlotStep(n, Some(m), n.OnAckOrderDone(m), sent, f, h)
  {
  }

  lemma ClosingStep(n: Node, m: OrderMsg, sent: set<OrderMsg>, f: Floor, h: Hall)
    requires m.Is(f, h) && !Disturbs(n, Some(m), sent, f, h)
    ensures m.event == EvOrderDone ==> SlotStep(n, Some(m), n.OnOrderDone(m), sent, f, h)
    ensures m.event == EvReassignOrder ==> SlotStep(n, Some(m), n.OnReassignOrder(m), sent, f, h)
  {
  }

  lemma UntouchedStep(n: Node, got: Option<OrderMsg>, out: Out, sent: set<OrderMsg>, f: Floor, h: Hall)
    requires Untouched(n, out, f, h)
    ensures SlotStep(n, got, out, sent, f, h)
  {
  }

  lemma ReceiveStep(n: Node, m: OrderMsg, sent: set<OrderMsg>, f: Floor, h: Hall)
    requires n.Valid() && !Disturbs(n, Some(m), sent, f, h) && Open(n.Receive(m), f, h)
    ensures SlotStep(n, Some(m), n.Receive(m), sent, f, h)
  {
    hide Node.OnNewOrder, Node.OnAckNewOrder, Node.OnOrderConfirmed, Node.OnAckOrderConfirmed, Node.OnOrderDone,
      Node.OnAckOrderDone, Node.OnReassignOrder, SlotStep, Disturbs;
    if !m.Is(f, h) {
      OtherSlot(n, m, f, h);
      UntouchedStep(n, Some(m), n.Receive(m), sent, f, h);
    } else {
      match m.event
      case EvNewOrder => NewOrderStep(n, m, sent, f, h);
      case EvAckNewOrder => AckNewOrderStep(n, m, sent, f, h);
      case EvOrderConfirmed => ConfirmedStep(n, m, sent, f, h);
      case EvAckOrderConfirmed => LaterAckStep(n, m, sent, f, h);
      case EvOrderDone => ClosingStep(n, m, sent, f, h);
      case EvAckOrderDone => LaterAckStep(n, m, sent, f, h);
      case EvReassignOrder => ClosingStep(n, m, sent, f, h);
    }
  }

  /** No timer is armed to send an acknowledgement of a new order, or a reassignment, again. */
  predicate ArmedOk(n: Node) {
    forall m :: m in n.armed ==> m.event != EvAckNewOrder && m.event != EvReassignOrder
  }

  lemma LocalStep(n: Node, e: NodeEvent, sent: set<OrderMsg>, f: Floor, h: Hall)
    requires n.Valid() && ArmedOk(n) && !e.Message? && !e.Queued? && (e.Resend? ==> e.again in n.armed)
    requires Open(Next(n, e), f, h)
    ensures SlotStep(n, None, Next(n, e), sent, f, h)
  {
    if e.FloorEvent? {
      FloorSlot(n, e.reached, f, h);
      UntouchedStep(n, None, Next(n, e), sent, f, h);
    } else if e.Restoration? {
      RestorationSlot(n, e.r, e.now, f, h);
    } else {
      assert Next(n, e).node.matrix == n.matrix;
    }
  }

  lemma EventStep(n: Node, e: NodeEvent, sent: set<OrderMsg>, f: Floor, h: Hall)
    requires n.Valid() && ArmedOk(n) && (e.Queued? ==> n.queue != []) && (e.Resend? ==> e.again in n.armed)
    requires !Disturbs(n, Handled(n, e), sent, f, h) && Open(Next(n, e), f, h)
    ensures SlotStep(n, Handled(n, e), Next(n, e), sent, f, h)
  {
    hide Node.Receive, SlotStep;
    if e.Message? {
      ReceiveStep(n, e.m, sent, f, h);
    } else if e.Queued? {
      var rest := n.(queue := n.queue[1..]);
      ReceiveStep(rest, n.queue[0], sent, f, h);
      SameSlotStep(n, rest, Next(n, e), Handled(n, e), sent, f, h);
    } else {
      LocalStep(n, e, sent, f, h);
    }
  }

  lemma SameSlotStep(n: Node, n': Node, out: Out, got: Option<OrderMsg>, sent: set<OrderMsg>, f: Floor, h: Hall)
    requires n'.matrix == n.matrix && n'.ip == n.ip && SlotStep(n', got, out, sent, f, h)
    ensures SlotStep(n, got, out, sent, f, h)
  {
  }

  // ---------------------------------------------------------------- acknowledgements are never repeated

  lemma ArmedReceive(n: Node, m: OrderMsg)
    requires n.Valid() && ArmedOk(n)
    ensures ArmedOk(n.Receive(m).node)
  {
    if m.event == EvOrderConfirmed {
      assert n.OnOrderConfirmed(m).node.armed == n.armed;
    }
  }

  lemma ArmedNext(n: Node, e: NodeEvent)
    requires n.Valid() && ArmedOk(n) && (e.Queued? ==> n.queue != [])
    ensures ArmedOk(Next(n, e).node)
  {
    hide Node.Receive;
    if e.Message? {
      ArmedReceive(n, e.m);
    } else if e.Queued? {
      ArmedReceive(n.(queue := n.queue[1..]), n.queue[0]);
    } else if e.FloorEvent? {
      assert forall m :: m in Next(n, e).orders ==> m.event == EvOrderDone by {
        forall m | m in n.OnFloorReached(e.reached).orders ensures m.event == EvOrderDone {
          FloorMessages(n, e.reached, m);
        }
      }
      assert Next(n, e).node.armed == n.armed + set m | m in Next(n, e).orders;
    } else if e.Restoration? {
      RestorationSlot(n, e.r, e.now, 0, CallUp);
    } else {
      assert Next(n, e).node.armed == n.armed;
    }
  }

  predicate NoAckArmed(s: Sys) {
    forall i :: i in s.nodes ==> ArmedOk(s.nodes[i])
  }

  // ---------------------------------------------------------------- the invariant of a round

  ghost predicate Acked(sent: set<OrderMsg>, f: Floor, h: Hall, o: IP, x: IP) {
    exists a :: AckMsg(f, h, a, o, x) in sent
  }

  /** A node acknowledges one new order only, and then keeps the slot and the assignee. */
  ghost predicate AcksOk(s: Sys, sent: set<OrderMsg>, f: Floor, h: Hall) {
    && (forall a, o, x :: AckMsg(f, h, a, o, x) in sent ==>
          x in s.nodes && s.nodes[x].Slot(f, h).status != NotActive && s.nodes[x].Slot(f, h).assignedTo == a)
    && (forall a, o, a', o', x :: AckMsg(f, h, a, o, x) in sent && AckMsg(f, h, a', o', x) in sent ==> o == o')
  }

  ghost predicate CollectedOk(n: Node, sent: set<OrderMsg>, f: Floor, h: Hall) {
    n.Slot(f, h).status == Awaiting ==> forall x :: x in n.Slot(f, h).confirmedBy ==> Acked(sent, f, h, n.ip, x)
  }

  /** With `sent` what has been sent in the round. */
  ghost predicate RoundInv(s: Sys, sent: set<OrderMsg>, f: Floor, h: Hall) {
    && WellFormed(s) && NoAckArmed(s)
    && AcksOk(s, sent, f, h)
    && (forall i :: i in s.nodes ==> CollectedOk(s.nodes[i], sent, f, h))
  }

  lemma CollectedStep(n: Node, got: Option<OrderMsg>, out: Out, sent: set<OrderMsg>, f: Floor, h: Hall)
    requires SlotStep(n, got, out, sent, f, h) && CollectedOk(n, sent, f, h) && out.node.ip == n.ip
    ensures CollectedOk(out.node, sent, f, h)
  {
    if out.node.Slot(f, h).status == Awaiting {
      forall x | x in out.node.Slot(f, h).confirmedBy ensures Acked(sent, f, h, n.ip, x) {
        if !(n.Slot(f, h).status == Awaiting && x in n.Slot(f, h).confirmedBy) {
          assert AckMsg(f, h, got.value.assignedTo, n.ip, x) in sent;
        }
      }
    }
  }

  lemma AckedMore(n: Node, sent: set<OrderMsg>, more: set<OrderMsg>, f: Floor, h: Hall)
    requires sent <= more && CollectedOk(n, sent, f, h)
    ensures CollectedOk(n, more, f, h)
  {
    forall x | Acked(sent, f, h, n.ip, x) ensures Acked(more, f, h, n.ip, x) {
      var a :| AckMsg(f, h, a, n.ip, x) in sent;
      assert AckMsg(f, h, a, n.ip, x) in more;
    }
  }

  lemma AcksStep(s: Sys, i: IP, out: Out, got: Option<OrderMsg>, s': Sys, sent: set<OrderMsg>, f: Floor, h: Hall)
    requires WellFormed(s) && AcksOk(s, sent, f, h) && Updates(s, i, out, s')
    requires SlotStep(s.nodes[i], got, out, sent, f, h)
    ensures AcksOk(s', sent + (set m | m in out.orders), f, h)
  {
    forall a, o, x | AckMsg(f, h, a, o, x) in sent + (set m | m in out.orders)
      ensures AckMsg(f, h, a, o, x) in sent || (AckMsg(f, h, a, o, x) in out.orders && AckMsg(f, h, a, o, x).Is(f, h))
    {
    }
  }

  lemma RoundStep(s: Sys, i: IP, e: NodeEvent, s': Sys, sent: set<OrderMsg>, f: Floor, h: Hall)
    requires RoundInv(s, sent, f, h) && Steps(s, i, e, s')
    requires !Disturbs(s.nodes[i], Handled(s.nodes[i], e), sent, f, h) && Open(Next(s.nodes[i], e), f, h)
    ensures RoundInv(s', sent + StepSent(s, i, e), f, h)
  {
    hide Next, SlotStep, AcksOk, CollectedOk, Handled, Disturbs, ArmedOk, Chosen;
    var n, out := s.nodes[i], Next(s.nodes[i], e);
    NextValid(n, e);
    ArmedNext(n, e);
    EventStep(n, e, sent, f, h);
    AcksStep(s, i, out, Handled(n, e), s', sent, f, h);
    CollectedStep(n, Handled(n, e), out, sent, f, h);
    forall j | j in s'.nodes ensures CollectedOk(s'.nodes[j], sent + StepSent(s, i, e), f, h) {
      AckedMore(s'.nodes[j], sent, sent + StepSent(s, i, e), f, h);
    }
  }

  // ---------------------------------------------------------------- rounds of a run

  /** What has been sent in the run from step `p` to step `k`. */
  function SentIn(ss: seq<Sys>, who: seq<IP>, es: seq<NodeEvent>, p: nat, k: nat): set<OrderMsg>
    requires |ss| == |es| + 1 == |who| + 1 && p <= k <= |es|
    decreases k
  {
    if k == p then {} else SentIn(ss, who, es, p, k - 1) + StepSent(ss[k - 1], who[k - 1], es[k - 1])
  }

  /** Step `k` neither ends the round that started at `p` nor is disturbed by an earlier order. */
  ghost predicate Quiet(ss: seq<Sys>, who: seq<IP>, es: seq<NodeEvent>, p: nat, k: nat, f: Floor, h: Hall)
    requires |ss| == |es| + 1 == |who| + 1 && p <= k < |es|
  {
    && (forall m :: m in StepSent(ss[k], who[k], es[k]) ==> !Closes(m, f, h))
    && (who[k] in ss[k].nodes ==>
          var n := ss[k].nodes[who[k]]; !Disturbs(n, Handled(n, es[k]), SentIn(ss, who, es, p, k), f, h))
  }

  /** From step `p` to step `q` the run is in a round of the button. */
  ghost predicate Round(ss: seq<Sys>, who: seq<IP>, es: seq<NodeEvent>, p: nat, q: nat, f: Floor, h: Hall) {
    && SysRun(ss, who, es) && NoAckArmed(ss[0]) && p <= q <= |es|
    && (forall i :: i in ss[p].nodes ==> ss[p].nodes[i].Slot(f, h).status == NotActive)
    && (forall k :: p <= k < q ==> Quiet(ss, who, es, p, k, f, h))
  }

  lemma {:induction false} ArmedOverRun(ss: seq<Sys>, who: seq<IP>, es: seq<NodeEvent>, k: nat)
    requires SysRun(ss, who, es) && NoAckArmed(ss[0]) && k < |ss|
    ensures NoAckArmed(ss[k])
  {
    hide Next, ArmedOk;
    if k == 0 {
    } else {
      ArmedOverRun(ss, who, es, k - 1);
      assert Steps(ss[k - 1], who[k - 1], es[k - 1], ss[k]);
      ArmedNext(ss[k - 1].nodes[who[k - 1]], es[k - 1]);
    }
  }

  lemma QuietStep(s: Sys, i: IP, e: NodeEvent, s': Sys, f: Floor, h: Hall)
    requires Steps(s, i, e, s') && forall m :: m in StepSent(s, i, e) ==> !Closes(m, f, h)
    ensures i in s.nodes && s.nodes[i].Valid() && (e.Queued? ==> s.nodes[i].queue != [])
    ensures Open(Next(s.nodes[i], e), f, h)
  {
    hide Next;
  }

  lemma {:induction false} RoundHolds(
    ss: seq<Sys>, who: seq<IP>, es: seq<NodeEvent>, p: nat, q: nat, k: nat, f: Floor, h: Hall)
    requires Round(ss, who, es, p, q, f, h) && p <= k <= q
    ensures RoundInv(ss[k], SentIn(ss, who, es, p, k), f, h)
    decreases k
  {
    hide Steps, Disturbs, StepSent, Handled;
    if k == p {
      ArmedOverRun(ss, who, es, p);
      RunWellFormed(ss, who, es, p);
    } else {
      RoundHolds(ss, who, es, p, q, k - 1, f, h);
      assert Quiet(ss, who, es, p, k - 1, f, h);
      QuietStep(ss[k - 1], who[k - 1], es[k - 1], ss[k], f, h);
      RoundStep(ss[k - 1], who[k - 1], es[k - 1], ss[k], SentIn(ss, who, es, p, k - 1), f, h);
    }
  }

  lemma {:induction false} SentGrows(ss: seq<Sys>, who: seq<IP>, es: seq<NodeEvent>, p: nat, j: nat, k: nat)
    requires |ss| == |es| + 1 == |who| + 1 && p <= j <= k <= |es|
    ensures SentIn(ss, who, es, p, j) <= SentIn(ss, who, es, p, k)
    decreases k
  {
    hide StepSent;
    if j == k {
    } else {
      SentGrows(ss, who, es, p, j, k - 1);
    }
  }

  // ---------------------------------------------------------------- confirmations

  /** At step `k` of the run an origin has all acknowledgements and confirms. */
  predicate ConfirmedAt(ss: seq<Sys>, who: seq<IP>, es: seq<NodeEvent>, k: nat, f: Floor, h: Hall, c: Confirmation)
    requires |ss| == |es| + 1 == |who| + 1 && k < |es|
  {
    c.floor == f && c.hall == h && c in StepConfirms(ss[k], who[k], es[k])
  }

  lemma ConfirmsWhen(n: Node, e: NodeEvent, c: Confirmation)
    requires n.Valid() && (e.Queued? ==> n.queue != []) && c in Confirms(n, e)
    ensures Handled(n, e).Some?
    ensures var m := Handled(n, e).value;
            && m == AckMsg(c.floor, c.hall, c.assignee, n.ip, m.sender)
            && n.Slot(c.floor, c.hall).status == Awaiting
            && c == Confirmation(n.ip, c.floor, c.hall, c.assignee, n.active.Keys)
            && n.active.Keys <= n.Slot(c.floor, c.hall).confirmedBy + {m.sender}
  {
    var n' := if e.Queued? then n.(queue := n.queue[1..]) else n;
    var m := Handled(n, e).value;
    assert Next(n, e) == n'.OnAckNewOrder(m);
  }

  /** What a confirmation stands for: all of the origin's active set have acknowledged to it in this
      round, one of them for this assignee. */
  lemma ConfirmedMeans(
    ss: seq<Sys>, who: seq<IP>, es: seq<NodeEvent>, p: nat, q: nat, f: Floor, h: Hall, k: nat, c: Confirmation)
    requires Round(ss, who, es, p, q, f, h) && p <= k < q && ConfirmedAt(ss, who, es, k, f, h, c)
    ensures c.origin == who[k] && who[k] in ss[k].nodes && c.active == ss[k].nodes[who[k]].active.Keys
    ensures forall x :: x in c.active ==> Acked(SentIn(ss, who, es, p, k), f, h, c.origin, x)
    ensures exists x :: AckMsg(f, h, c.assignee, c.origin, x) in SentIn(ss, who, es, p, k)
  {
    hide Next, Confirms, Steps;
    RoundHolds(ss, who, es, p, q, k, f, h);
    var n, sent := ss[k].nodes[who[k]], SentIn(ss, who, es, p, k);
    ConfirmsWhen(n, es[k], c);
    assert Quiet(ss, who, es, p, k, f, h);
    var m := Handled(n, es[k]).value;
    assert AckMsg(f, h, c.assignee, c.origin, m.sender) in sent;
    forall x | x in c.active ensures Acked(sent, f, h, c.origin, x) {
    }
  }

  /** Acknowledgements last to the end of the round. */
  lemma AckedLater(
    ss: seq<Sys>, who: seq<IP>, es: seq<NodeEvent>, p: nat, k: nat, q: nat, f: Floor, h: Hall, o: IP, x: IP)
    returns (a: IP)
    requires |ss| == |es| + 1 == |who| + 1 && p <= k <= q <= |es| && Acked(SentIn(ss, who, es, p, k), f, h, o, x)
    ensures AckMsg(f, h, a, o, x) in SentIn(ss, who, es, p, q)
  {
    SentGrows(ss, who, es, p, k, q);
    a :| AckMsg(f, h, a, o, x) in SentIn(ss, who, es, p, k);
  }

  /** `m` is the EvOrderConfirmed by which `c` is made known. */
  predicate Announces(m: OrderMsg, c: Confirmation) {
    m == OrderMsg(c.floor, c.hall, c.assignee, c.origin, c.origin, EvOrderConfirmed)
  }

  /** Where EvOrderConfirmed comes from: a confirmation, a timer that repeats one, or the execution
      timer of an order that is awaiting. */
  lemma ConfirmedSource(n: Node, e: NodeEvent, m: OrderMsg)
    requires n.Valid() && (e.Queued? ==> n.queue != []) && m in Next(n, e).orders && m.event == EvOrderConfirmed
    ensures || (exists c :: c in Confirms(n, e) && Announces(m, c))
            || (e.Resend? && m == e.again)
            || (e.ExecutionTimeout? && m.Is(e.f, e.h) && n.Slot(e.f, e.h).status == Awaiting)
  {
    if Handled(n, e).Some? {
      var n' := if e.Queued? then n.(queue := n.queue[1..]) else n;
      assert Next(n, e) == n'.Receive(Handled(n, e).value);
      ConfirmedByAck(n', Handled(n, e).value, m);
      var c := Confirmation(n.ip, m.floor, m.button, m.assignedTo, n.active.Keys);
      assert c in Confirms(n, e) && Announces(m, c);
    } else if e.FloorEvent? {
      FloorMessages(n, e.reached, m);
    }
  }

  /** The confirmation is not sent, nor armed to be sent again. */
  predicate Without(n: Node, out: Out, x: OrderMsg) {
    x !in out.orders && (x in out.node.armed ==> x in n.armed)
  }

  lemma RequestsConfirmNothing(n: Node, m: OrderMsg, x: OrderMsg)
    requires x.event == EvOrderConfirmed
    ensures Without(n, n.OnNewOrder(m), x) && Without(n, n.OnOrderDone(m), x) && Without(n, n.OnReassignOrder(m), x)
  {
  }

  lemma LaterAcksConfirmNothing(n: Node, m: OrderMsg, x: OrderMsg)
    requires x.event == EvOrderConfirmed
    ensures Without(n, n.OnAckOrderConfirmed(m), x) && Without(n, n.OnAckOrderDone(m), x)
  {
  }

  lemma ConfirmedConfirmsNothing(n: Node, m: OrderMsg, x: OrderMsg)
    requires n.Valid() && x.event == EvOrderConfirmed
    ensures Without(n, n.OnOrderConfirmed(m), x)
  {
    hide Car.Confirm;
    assert n.OnOrderConfirmed(m).node.armed == n.armed;
  }

  lemma ConfirmedByAck(n: Node, m: OrderMsg, x: OrderMsg)
    requires n.Valid() && x.event == EvOrderConfirmed && !Without(n, n.Receive(m), x)
    ensures m.event == EvAckNewOrder && x == m.As(n.ip, EvOrderConfirmed) && m.origin == n.ip
    ensures x in n.Receive(m).orders
  {
    hide Node.OnNewOrder, Node.OnOrderConfirmed, Node.OnAckOrderConfirmed, Node.OnOrderDone, Node.OnAckOrderDone,
      Node.OnReassignOrder;
    RequestsConfirmNothing(n, m, x);
    LaterAcksConfirmNothing(n, m, x);
    ConfirmedConfirmsNothing(n, m, x);
  }

  /** A timer that repeats EvOrderConfirmed is armed by a confirmation. */
  lemma ArmedConfirmed(n: Node, e: NodeEvent, m: OrderMsg)
    requires n.Valid() && (e.Queued? ==> n.queue != []) && m.event == EvOrderConfirmed
    requires m in Next(n, e).node.armed && m !in n.armed
    ensures exists c :: c in Confirms(n, e) && Announces(m, c)
  {
    if Handled(n, e).Some? {
      var n' := if e.Queued? then n.(queue := n.queue[1..]) else n;
      assert Next(n, e) == n'.Receive(Handled(n, e).value);
      ConfirmedByAck(n', Handled(n, e).value, m);
      var c := Confirmation(n.ip, m.floor, m.button, m.assignedTo, n.active.Keys);
      assert c in Confirms(n, e) && Announces(m, c);
    } else if e.FloorEvent? {
      FloorArms(n, e.reached, m);
    } else if e.Restoration? {
      RestorationSlot(n, e.r, e.now, 0, CallUp);
    }
  }

  lemma FloorArms(n: Node, g: Floor, m: OrderMsg)
    requires n.Valid() && m in n.OnFloorReached(g).node.armed && m !in n.armed
    ensures m.event == EvOrderDone
  {
    assert m in n.OnFloorReached(g).orders;
    FloorMessages(n, g, m);
  }

  /** The execution timer of the button is started only where the order is under execution. */
  lemma RunningStarted(n: Node, e: NodeEvent, f: Floor, h: Hall, o: IP)
    requires n.Valid() && (e.Queued? ==> n.queue != []) && Open(Next(n, e), f, h)
    requires (f, h, o) in Next(n, e).node.running && (f, h, o) !in n.running
    ensures Next(n, e).node.Slot(f, h).status == UnderExecution
  {
    if Handled(n, e).Some? {
      var n' := if e.Queued? then n.(queue := n.queue[1..]) else n;
      assert Next(n, e) == n'.Receive(Handled(n, e).value);
      RunningByMessage(n', Handled(n, e).value, f, h, o);
    } else if e.Restoration? {
      RestorationSlot(n, e.r, e.now, f, h);
    }
  }

  lemma RunningByMessage(n: Node, m: OrderMsg, f: Floor, h: Hall, o: IP)
    requires n.Valid() && Open(n.Receive(m), f, h)
    requires (f, h, o) in n.Receive(m).node.running && (f, h, o) !in n.running
    ensures n.Receive(m).node.Slot(f, h).status == UnderExecution
  {
    if !m.Is(f, h) {
      OtherSlot(n, m, f, h);
    } else if m.event == EvOrderConfirmed {
      ConfirmedStep(n, m, {}, f, h);
    }
  }

  // ---------------------------------------------------------------- the theorems

  /** Exclusive confirmation. In one round, under loss, duplication and reordering, no two origins
      whose active sets share a node both get their order confirmed. */
  lemma ExclusiveConfirmation(
    ss: seq<Sys>, who: seq<IP>, es: seq<NodeEvent>, p: nat, q: nat, f: Floor, h: Hall,
    k: nat, c: Confirmation, l: nat, d: Confirmation)
    requires Round(ss, who, es, p, q, f, h)
    requires p <= k < q && ConfirmedAt(ss, who, es, k, f, h, c)
    requires p <= l < q && ConfirmedAt(ss, who, es, l, f, h, d)
    ensures c.origin != d.origin ==> c.active !! d.active
  {
    hide Steps, Round, ConfirmedAt;
    assert p <= q <= |es| && SysRun(ss, who, es) by { RoundIsRun(ss, who, es, p, q, f, h); }
    RoundHolds(ss, who, es, p, q, q, f, h);
    ConfirmedMeans(ss, who, es, p, q, f, h, k, c);
    ConfirmedMeans(ss, who, es, p, q, f, h, l, d);
    forall x | x in c.active && x in d.active ensures c.origin == d.origin {
      var a := AckedLater(ss, who, es, p, k, q, f, h, c.origin, x);
      var b := AckedLater(ss, who, es, p, l, q, f, h, d.origin, x);
    }
  }

  lemma RoundIsRun(ss: seq<Sys>, who: seq<IP>, es: seq<NodeEvent>, p: nat, q: nat, f: Floor, h: Hall)
    requires Round(ss, who, es, p, q, f, h)
    ensures p <= q <= |es| && SysRun(ss, who, es)
  {
  }

  /** From the moment an origin confirms assignee `a` to the end of the round, every elevator that was
      in its active set holds the order, and holds it for `a` if and only if that is the assignee
      whose new order it acknowledged to that origin. */
  lemma AgreementIff(
    ss: seq<Sys>, who: seq<IP>, es: seq<NodeEvent>, p: nat, q: nat, f: Floor, h: Hall,
    k: nat, c: Confirmation, x: IP)
    requires Round(ss, who, es, p, q, f, h)
    requires p <= k < q && ConfirmedAt(ss, who, es, k, f, h, c) && x in c.active
    ensures x in ss[q].nodes && ss[q].nodes[x].Slot(f, h).status in {Awaiting, UnderExecution}
    ensures ss[q].nodes[x].Slot(f, h).assignedTo == c.assignee
            <==> AckMsg(f, h, c.assignee, c.origin, x) in SentIn(ss, who, es, p, q)
  {
    hide Steps;
    RoundHolds(ss, who, es, p, q, q, f, h);
    ConfirmedMeans(ss, who, es, p, q, f, h, k, c);
    var a := AckedLater(ss, who, es, p, k, q, f, h, c.origin, x);
  }

  /** The new orders of one origin that are handled in the round all name the same assignee. */
  ghost predicate OneAssigneePerOrigin(
    ss: seq<Sys>, who: seq<IP>, es: seq<NodeEvent>, p: nat, q: nat, f: Floor, h: Hall)
    requires |ss| == |es| + 1 == |who| + 1 && q <= |es|
  {
    forall j, k, a, b, o ::
      && p <= j < q && HandlesNew(ss[j], who[j], es[j], f, h, a, o)
      && p <= k < q && HandlesNew(ss[k], who[k], es[k], f, h, b, o)
      ==> a == b
  }

  predicate HandlesNew(s: Sys, i: IP, e: NodeEvent, f: Floor, h: Hall, a: IP, o: IP) {
    && i in s.nodes && Handled(s.nodes[i], e).Some?
    && var m := Handled(s.nodes[i], e).value;
       m.Is(f, h) && m.event == EvNewOrder && m.assignedTo == a && m.origin == o
  }

  /** Every acknowledgement of the round answers a new order handled in it. */
  lemma {:induction false} AckSource(
    ss: seq<Sys>, who: seq<IP>, es: seq<NodeEvent>, p: nat, q: nat, f: Floor, h: Hall, k: nat, a: IP, o: IP, x: IP)
    returns (j: nat)
    requires Round(ss, who, es, p, q, f, h) && p <= k <= q && AckMsg(f, h, a, o, x) in SentIn(ss, who, es, p, k)
    ensures p <= j < k && HandlesNew(ss[j], who[j], es[j], f, h, a, o)
    decreases k
  {
    hide Steps, Disturbs, StepSent, Handled, HandlesNew;
    if AckMsg(f, h, a, o, x) in SentIn(ss, who, es, p, k - 1) {
      j := AckSource(ss, who, es, p, q, f, h, k - 1, a, o, x);
    } else {
      j := k - 1;
      RoundHolds(ss, who, es, p, q, j, f, h);
      assert Quiet(ss, who, es, p, j, f, h);
      QuietStep(ss[j], who[j], es[j], ss[k], f, h);
      AnswersNew(ss[j], who[j], es[j], ss[k], SentIn(ss, who, es, p, j), f, h, a, o, x);
    }
  }

  lemma AnswersNew(
    s: Sys, i: IP, e: NodeEvent, s': Sys, sent: set<OrderMsg>, f: Floor, h: Hall, a: IP, o: IP, x: IP)
    requires RoundInv(s, sent, f, h) && Steps(s, i, e, s')
    requires !Disturbs(s.nodes[i], Handled(s.nodes[i], e), sent, f, h) && Open(Next(s.nodes[i], e), f, h)
    requires AckMsg(f, h, a, o, x) in StepSent(s, i, e)
    ensures HandlesNew(s, i, e, f, h, a, o)
  {
    hide Next, Disturbs, AcksOk, Handled;
    EventStep(s.nodes[i], e, sent, f, h);
    assert AckMsg(f, h, a, o, x).Is(f, h);
  }

  /** Agreement. As long as every origin keeps to one assignee, every elevator of the active set holds
      the order for it; so the assignee, if active, has the order, and no other of them holds it as its
      own. */
  lemma Agreement(
    ss: seq<Sys>, who: seq<IP>, es: seq<NodeEvent>, p: nat, q: nat, f: Floor, h: Hall,
    k: nat, c: Confirmation, x: IP)
    requires Round(ss, who, es, p, q, f, h) && OneAssigneePerOrigin(ss, who, es, p, q, f, h)
    requires p <= k < q && ConfirmedAt(ss, who, es, k, f, h, c) && x in c.active
    ensures x in ss[q].nodes
    ensures var n := ss[q].nodes[x];
            && n.Slot(f, h).status in {Awaiting, UnderExecution}
            && n.Slot(f, h).assignedTo == c.assignee
            && n.Valid() && (x != c.assignee ==> !n.Car().view.Own(f, h))
  {
    hide Steps, Quiet, HandlesNew;
    RunWellFormed(ss, who, es, q);
    AgreementIff(ss, who, es, p, q, f, h, k, c, x);
    ConfirmedMeans(ss, who, es, p, q, f, h, k, c);
    var y :| AckMsg(f, h, c.assignee, c.origin, y) in SentIn(ss, who, es, p, k);
    var a := AckedLater(ss, who, es, p, k, q, f, h, c.origin, x);
    var i := AckSource(ss, who, es, p, q, f, h, k, c.assignee, c.origin, y);
    var j := AckSource(ss, who, es, p, q, f, h, q, a, c.origin, x);
  }

  /** What the timers of a node can repeat: a confirmation of this round, or what they could when it
      started. */
  lemma {:induction false} ArmedMeans(
    ss: seq<Sys>, who: seq<IP>, es: seq<NodeEvent>, p: nat, k: nat, i: IP, f: Floor, h: Hall, m: OrderMsg)
    returns (j: nat, c: Confirmation)
    requires SysRun(ss, who, es) && p <= k <= |es| && i in ss[p].nodes && i in ss[k].nodes
    requires m in ss[k].nodes[i].armed && m.Is(f, h) && m.event == EvOrderConfirmed && m !in ss[p].nodes[i].armed
    ensures p <= j < k && ConfirmedAt(ss, who, es, j, f, h, c) && Announces(m, c)
    decreases k
  {
    hide Next, Confirms, Chosen;
    assert Steps(ss[k - 1], who[k - 1], es[k - 1], ss[k]);
    if m in ss[k - 1].nodes[i].armed {
      j, c := ArmedMeans(ss, who, es, p, k - 1, i, f, h, m);
    } else {
      j := k - 1;
      ArmedConfirmed(ss[j].nodes[i], es[j], m);
      c :| c in Confirms(ss[j].nodes[i], es[j]) && Announces(m, c);
    }
  }

  lemma RunningStep(
    s: Sys, j: IP, e: NodeEvent, s': Sys, sent: set<OrderMsg>, i: IP, f: Floor, h: Hall, o: IP)
    requires RoundInv(s, sent, f, h) && Steps(s, j, e, s') && i in s.nodes && i in s'.nodes
    requires !Disturbs(s.nodes[j], Handled(s.nodes[j], e), sent, f, h) && Open(Next(s.nodes[j], e), f, h)
    requires (f, h, o) in s.nodes[i].running ==> s.nodes[i].Slot(f, h).status == UnderExecution
    requires (f, h, o) in s'.nodes[i].running
    ensures s'.nodes[i].Slot(f, h).status == UnderExecution
  {
    hide Next, Disturbs, Handled, Chosen, SlotStep, AcksOk, CollectedOk;
    var n := s.nodes[j];
    EventStep(n, e, sent, f, h);
    if j == i {
      if (f, h, o) in n.running {
        StaysUnderExecution(n, Handled(n, e), Next(n, e), sent, f, h);
      } else {
        RunningStarted(n, e, f, h, o);
      }
    }
  }

  lemma {:induction false} RunningMeans(
    ss: seq<Sys>, who: seq<IP>, es: seq<NodeEvent>, p: nat, q: nat, k: nat, i: IP, f: Floor, h: Hall, o: IP)
    requires Round(ss, who, es, p, q, f, h) && p <= k <= q && i in ss[p].nodes && i in ss[k].nodes
    requires (f, h, o) in ss[k].nodes[i].running && (f, h, o) !in ss[p].nodes[i].running
    ensures ss[k].nodes[i].Slot(f, h).status == UnderExecution
    decreases k
  {
    hide Steps, Disturbs, StepSent, Handled, RoundInv;
    NodesStay(ss, who, es, k - 1);
    NodesStay(ss, who, es, p);
    assert Quiet(ss, who, es, p, k - 1, f, h);
    QuietStep(ss[k - 1], who[k - 1], es[k - 1], ss[k], f, h);
    if (f, h, o) in ss[k - 1].nodes[i].running {
      RunningMeans(ss, who, es, p, q, k - 1, i, f, h, o);
    }
    RoundHolds(ss, who, es, p, q, k - 1, f, h);
    RunningStep(ss[k - 1], who[k - 1], es[k - 1], ss[k], SentIn(ss, who, es, p, k - 1), i, f, h, o);
  }

  lemma StaysUnderExecution(n: Node, got: Option<OrderMsg>, out: Out, sent: set<OrderMsg>, f: Floor, h: Hall)
    requires SlotStep(n, got, out, sent, f, h) && n.Slot(f, h).status == UnderExecution
    ensures out.node.Slot(f, h).status == UnderExecution
  {
  }

  /** Every EvOrderConfirmed sent in the round, also when sent again, stands for a confirmation of the
      round by its sender, unless a timer sends it that was pending when the round started. */
  lemma ConfirmedMeansConfirmed(
    ss: seq<Sys>, who: seq<IP>, es: seq<NodeEvent>, p: nat, q: nat, f: Floor, h: Hall, k: nat, m: OrderMsg)
    returns (j: nat, c: Confirmation)
    requires Round(ss, who, es, p, q, f, h) && p <= k < q
    requires m in StepSent(ss[k], who[k], es[k]) && m.Is(f, h) && m.event == EvOrderConfirmed
    ensures who[k] in ss[p].nodes
    ensures || (p <= j <= k && ConfirmedAt(ss, who, es, j, f, h, c) && Announces(m, c))
            || (es[k].Resend? && m == es[k].again && m in ss[p].nodes[who[k]].armed)
            || (es[k].ExecutionTimeout? && (f, h, es[k].origin) in ss[p].nodes[who[k]].running)
  {
    hide Next, Confirms, Chosen, Round;
    RoundIsRun(ss, who, es, p, q, f, h);
    assert Steps(ss[k], who[k], es[k], ss[k + 1]);
    NodesStay(ss, who, es, p);
    NodesStay(ss, who, es, k);
    var n := ss[k].nodes[who[k]];
    ConfirmedSource(n, es[k], m);
    j, c := k, Confirmation("", f, h, "", {});
    if x :| x in Confirms(n, es[k]) && Announces(m, x) {
      c := x;
    } else if es[k].Resend? {
      if m !in ss[p].nodes[who[k]].armed {
        j, c := ArmedMeans(ss, who, es, p, k, who[k], f, h, m);
      }
    } else if (f, h, es[k].origin) !in ss[p].nodes[who[k]].running {
      RunningMeans(ss, who, es, p, q, k, who[k], f, h, es[k].origin);
    }
  }
}
