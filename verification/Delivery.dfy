/** Single deliveries, as steps of the system: the material for runs that show what can happen. */
module Deliveries {
  import opened Typedef
  import opened Cars
  import opened Nodes
  import opened Network
  import opened Handshake

  /** Step `e` of node `i` leads from `s` to `s'`, sends `sent`, and changes at most the slot, the timers
      and the queue of that node. */
  ghost predicate Delivers(s: Sys, i: IP, e: NodeEvent, s': Sys, sent: set<OrderMsg>, f: Floor, h: Hall) {
    && Steps(s, i, e, s') && WellFormed(s') && StepSent(s, i, e) == sent && s'.orders == s.orders + sent
    && s'.nodes.Keys == s.nodes.Keys && (forall j :: j in s.nodes && j != i ==> s'.nodes[j] == s.nodes[j])
    && var n, n' := s.nodes[i], s'.nodes[i];
       n' == n.(matrix := Update(n.matrix, f, h, n'.Slot(f, h)),
                armed := n'.armed, queue := n'.queue, running := n'.running)
  }

  /** A step, and what it sends. */
  ghost predicate Sends(s: Sys, i: IP, e: NodeEvent, s': Sys, sent: set<OrderMsg>) {
    Steps(s, i, e, s') && StepSent(s, i, e) == sent
  }

  lemma DeliverNew(s: Sys, i: IP, m: OrderMsg) returns (s': Sys)
    requires WellFormed(s) && i in s.nodes && m in s.orders && m.event == EvNewOrder
    requires s.nodes[i].Slot(m.floor, m.button).status == NotActive
    ensures Delivers(s, i, Message(m), s', {m.As(i, EvAckNewOrder)}, m.floor, m.button)
    ensures s'.nodes[i].Slot(m.floor, m.button) == ElevOrder(Awaiting, m.assignedTo, {})
  {
    var out := s.nodes[i].OnNewOrder(m);
    assert s.nodes[i].Receive(m) == out && out.orders == [m.As(i, EvAckNewOrder)];
    s' := Then(s, i, Message(m));
  }

  lemma DeliverAck(s: Sys, i: IP, m: OrderMsg) returns (s': Sys)
    requires WellFormed(s) && i in s.nodes && m in s.orders && m.event == EvAckNewOrder && m.origin == i
    requires s.nodes[i].Slot(m.floor, m.button).status == Awaiting
    requires !(s.nodes[i].active.Keys <= s.nodes[i].Slot(m.floor, m.button).confirmedBy + {m.sender})
    ensures Delivers(s, i, Message(m), s', {}, m.floor, m.button)
    ensures var o := s.nodes[i].Slot(m.floor, m.button);
            s'.nodes[i].Slot(m.floor, m.button) == o.(confirmedBy := o.confirmedBy + {m.sender})
  {
    var out := s.nodes[i].OnAckNewOrder(m);
    assert s.nodes[i].Receive(m) == out && out.orders == [];
    s' := Then(s, i, Message(m));
  }

  lemma DeliverLastAck(s: Sys, i: IP, m: OrderMsg) returns (s': Sys, c: Confirmation)
    requires WellFormed(s) && i in s.nodes && m in s.orders && m.event == EvAckNewOrder && m.origin == i
    requires s.nodes[i].Slot(m.floor, m.button).status == Awaiting
    requires s.nodes[i].active.Keys <= s.nodes[i].Slot(m.floor, m.button).confirmedBy + {m.sender}
    ensures Delivers(s, i, Message(m), s', {m.As(i, EvOrderConfirmed)}, m.floor, m.button)
    ensures s'.nodes[i].Slot(m.floor, m.button) == s.nodes[i].Slot(m.floor, m.button).(confirmedBy := {})
    ensures c == Confirmation(i, m.floor, m.button, m.assignedTo, s.nodes[i].active.Keys)
    ensures c in StepConfirms(s, i, Message(m))
  {
    var out := s.nodes[i].OnAckNewOrder(m);
    assert s.nodes[i].Receive(m) == out && out.orders == [m.As(i, EvOrderConfirmed)];
    s' := Then(s, i, Message(m));
    c := Confirmation(i, m.floor, m.button, m.assignedTo, s.nodes[i].active.Keys);
    assert m.As(i, EvOrderConfirmed) in Next(s.nodes[i], Message(m)).orders;
  }

  lemma DeliverAckDone(s: Sys, i: IP, m: OrderMsg) returns (s': Sys)
    requires WellFormed(s) && i in s.nodes && m in s.orders && m.event == EvAckOrderDone && m.assignedTo == i
    requires !(s.nodes[i].active.Keys <= s.nodes[i].Slot(m.floor, m.button).confirmedBy + {m.sender})
    ensures Delivers(s, i, Message(m), s', {}, m.floor, m.button)
    ensures var o := s.nodes[i].Slot(m.floor, m.button);
            s'.nodes[i].Slot(m.floor, m.button) == o.(confirmedBy := o.confirmedBy + {m.sender})
  {
    var out := s.nodes[i].OnAckOrderDone(m);
    assert s.nodes[i].Receive(m) == out && out.orders == [];
    s' := Then(s, i, Message(m));
  }

  lemma DeliverDone(s: Sys, i: IP, m: OrderMsg) returns (s': Sys)
    requires WellFormed(s) && i in s.nodes && m in s.orders && m.event == EvOrderDone
    ensures Delivers(s, i, Message(m), s', {m.As(i, EvAckOrderDone)}, m.floor, m.button)
    ensures s'.nodes[i].Slot(m.floor, m.button) == NO_ORDER
  {
    var out := s.nodes[i].OnOrderDone(m);
    assert s.nodes[i].Receive(m) == out && out.orders == [m.As(i, EvAckOrderDone)];
    s' := Then(s, i, Message(m));
  }

  /** A confirmation of an order for another elevator. */
  lemma DeliverConfirmed(s: Sys, i: IP, m: OrderMsg) returns (s': Sys)
    requires WellFormed(s) && i in s.nodes && m in s.orders && m.event == EvOrderConfirmed && m.assignedTo != i
    requires s.nodes[i].Slot(m.floor, m.button).status == Awaiting
    ensures Delivers(s, i, Message(m), s', {m.As(i, EvAckOrderConfirmed)}, m.floor, m.button)
    ensures s'.nodes[i].Slot(m.floor, m.button) == s.nodes[i].Slot(m.floor, m.button).(status := UnderExecution)
  {
    var out := s.nodes[i].OnOrderConfirmed(m);
    assert s.nodes[i].Receive(m) == out && out.orders == [m.As(i, EvAckOrderConfirmed)];
    assert out.node.Car().view.localState == s.nodes[i].Car().view.localState;
    assert out.node.known == s.nodes[i].known;
    s' := Then(s, i, Message(m));
  }

  lemma DeliverReassign(s: Sys, i: IP, m: OrderMsg) returns (s': Sys)
    requires WellFormed(s) && i in s.nodes && m in s.orders && m.event == EvReassignOrder
    requires s.nodes[i].Slot(m.floor, m.button).status == UnderExecution
    ensures Delivers(s, i, Message(m), s', {}, m.floor, m.button)
    ensures s'.nodes[i].Slot(m.floor, m.button).status == NotActive
  {
    var out := s.nodes[i].OnReassignOrder(m);
    assert s.nodes[i].Receive(m) == out && out.orders == [];
    s' := Then(s, i, Message(m));
  }

  // ---------------------------------------------------------------- quiet steps of such runs

  lemma {:induction false} SentEarlier(ss: seq<Sys>, who: seq<IP>, es: seq<NodeEvent>, p: nat, j: nat, k: nat)
    requires |ss| == |es| + 1 == |who| + 1 && p <= j < k <= |es|
    ensures StepSent(ss[j], who[j], es[j]) <= SentIn(ss, who, es, p, k)
  {
    hide StepSent;
    SentGrows(ss, who, es, p, j + 1, k);
  }

  /** The step handles no message, a new order or a confirmation, and closes nothing. */
  predicate Calm(s: Sys, i: IP, e: NodeEvent, f: Floor, h: Hall) {
    && (forall m :: m in StepSent(s, i, e) ==> !Closes(m, f, h))
    && (!e.Queued? && (e.Message? ==> e.m.event == EvNewOrder || e.m.event == EvOrderConfirmed))
  }

  lemma CalmIsQuiet(ss: seq<Sys>, who: seq<IP>, es: seq<NodeEvent>, p: nat, k: nat, f: Floor, h: Hall)
    requires |ss| == |es| + 1 == |who| + 1 && p <= k < |es| && Calm(ss[k], who[k], es[k], f, h)
    ensures Quiet(ss, who, es, p, k, f, h)
  {
    hide StepSent, SentIn;
  }

  /** The step handles an acknowledgement that was sent at step `j`, and closes nothing. */
  lemma AnsweredIsQuiet(ss: seq<Sys>, who: seq<IP>, es: seq<NodeEvent>, p: nat, j: nat, k: nat, f: Floor, h: Hall)
    requires |ss| == |es| + 1 == |who| + 1 && p <= j < k < |es|
    requires es[k].Message? && es[k].m.event == EvAckNewOrder && es[k].m in StepSent(ss[j], who[j], es[j])
    requires forall m :: m in StepSent(ss[k], who[k], es[k]) ==> !Closes(m, f, h)
    ensures Quiet(ss, who, es, p, k, f, h)
  {
    hide StepSent;
    SentEarlier(ss, who, es, p, j, k);
  }
}
