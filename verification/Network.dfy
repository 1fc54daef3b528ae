/** n nodes on a broadcast network that may lose, duplicate, delay and reorder: a message, once
    sent, may reach any node, its sender included, any number of times or never. */
module Network {
  import opened Typedef
  import opened Cost
  import opened Nodes

  datatype NodeEvent =
    | Message(m: OrderMsg)
    | Queued
    | CabPress(floor: Floor)
    | HallPress(at: Floor, hall: Hall, chosen: IP)
    | FloorEvent(reached: Floor)
    | DoorEvent
    | Resend(again: OrderMsg)
    | ExecutionTimeout(f: Floor, h: Hall, origin: IP, next: IP)
    | Restoration(r: RestoreMsg, now: int)
    | AliveTick
    | CheckAlive(time: int)

  /** The elevator that `AssignNewOrder` picks on this node's view. */
  ghost predicate Chosen(n: Node, f: Floor, h: Hall, a: IP) {
    CostReady(n.known, n.active.Keys, n.matrix, f, h) ==> Assign(n.known, n.active.Keys, n.matrix, f, h) == Ok(a)
  }

  ghost predicate Enabled(n: Node, e: NodeEvent, orders: set<OrderMsg>, restores: set<RestoreMsg>) {
    match e
    case Message(m) => m in orders
    case Queued => n.queue != []
    case HallPress(f, h, a) => n.ip in n.active && Chosen(n, f, h, a)
    case DoorEvent => n.doorTimer
    case Resend(m) => m in n.armed
    case ExecutionTimeout(f, h, origin, a) =>
      && (f, h, origin) in n.running
      && (n.Slot(f, h).status == UnderExecution ==> n.Slot(f, h).assignedTo != n.ip && Chosen(n, f, h, a))
    case Restoration(r, _) => r in restores
    case _ => true
  }

  function Next(n: Node, e: NodeEvent): Out
    requires n.Valid() && (e.Queued? ==> n.queue != [])
  {
    match e
    case Message(m) => n.Receive(m)
    case Queued => n.(queue := n.queue[1..]).Receive(n.queue[0])
    case CabPress(f) => n.Own(n.Car().InternalButton(f))
    case HallPress(f, h, a) => Out(n, [OrderMsg(f, h, a, n.ip, n.ip, EvNewOrder)], [])
    case FloorEvent(f) => n.OnFloorReached(f)
    case DoorEvent => n.Own(n.Car().DoorTimeout())
    case Resend(m) => Out(n, [m], [])
    case ExecutionTimeout(f, h, origin, a) => n.OnExecutionTimeout(f, h, origin, a)
    case Restoration(r, now) => n.OnRestoreMsg(r, now)
    case AliveTick => Out(n, [], [EvIAmAlive(n.State().localIP, n.State())])
    case CheckAlive(now) => Out(n.(active := UpdateActive(n.known, n.active, now)), [], [])
  }

  /** `origin` has all acknowledgements and confirms the order to `assignee`,
      when `active` is the set of elevators it believes to be active. */
  datatype Confirmation = Confirmation(origin: IP, floor: Floor, hall: Hall, assignee: IP, active: set<IP>)

  datatype Sys = Sys(nodes: map<IP, Node>, orders: set<OrderMsg>, restores: set<RestoreMsg>)

  /** The message of the order protocol that the event makes the node handle. */
  function Handled(n: Node, e: NodeEvent): Option<OrderMsg> {
    if e.Message? then Some(e.m) else if e.Queued? && n.queue != [] then Some(n.queue[0]) else None
  }

  /** Sending EvOrderConfirmed on the last acknowledgement, as opposed to sending it again. */
  function Confirms(n: Node, e: NodeEvent): set<Confirmation>
    requires n.Valid() && (e.Queued? ==> n.queue != [])
  {
    if Handled(n, e).Some? && Handled(n, e).value.event == EvAckNewOrder then
      set m | m in Next(n, e).orders :: Confirmation(n.ip, m.floor, m.button, m.assignedTo, n.active.Keys)
    else {}
  }

  predicate WellFormed(s: Sys) {
    forall i :: i in s.nodes ==> s.nodes[i].Valid() && s.nodes[i].ip == i
  }

  /** Node `i` has become `out.node` and broadcast what `out` holds. */
  predicate Updates(s: Sys, i: IP, out: Out, s': Sys) {
    && i in s.nodes
    && s' == Sys(s.nodes[i := out.node],
                 s.orders + (set m | m in out.orders),
                 s.restores + (set r | r in out.restores))
  }

  ghost predicate Steps(s: Sys, i: IP, e: NodeEvent, s': Sys) {
    && WellFormed(s)
    && i in s.nodes
    && Enabled(s.nodes[i], e, s.orders, s.restores)
    && Updates(s, i, Next(s.nodes[i], e), s')
  }

  /** No event changes a node's address, nor the address in its own record. */
  lemma NextValid(n: Node, e: NodeEvent)
    requires n.Valid() && (e.Queued? ==> n.queue != [])
    ensures Next(n, e).node.Valid() && Next(n, e).node.ip == n.ip
  {
    match e {
      case Queued => ReceiveValid(n.(queue := n.queue[1..]), n.queue[0]);
      case Message(m) => ReceiveValid(n, m);
      case _ =>
    }
  }

  lemma ConfirmedValid(n: Node, m: OrderMsg)
    requires n.Valid() && m.event == EvOrderConfirmed
    ensures n.Receive(m).node.Valid() && n.Receive(m).node.ip == n.ip
  {
    assert n.Receive(m) == n.OnOrderConfirmed(m);
    assert n.Car().Confirm(m.floor, m.button, m.assignedTo).0.view.localState.localIP == n.ip;
  }

  /** Apart from a confirmation, no order message touches what a node knows of elevators. */
  lemma ReceiveKeepsViews(n: Node, m: OrderMsg)
    requires n.Valid() && m.event != EvOrderConfirmed
    ensures n.Receive(m).node.known == n.known && n.Receive(m).node.active == n.active
    ensures n.Receive(m).node.ip == n.ip && n.Receive(m).restores == []
  {
    match m.event
    case EvNewOrder => assert n.Receive(m) == n.OnNewOrder(m);
    case EvAckNewOrder => assert n.Receive(m) == n.OnAckNewOrder(m);
    case EvAckOrderConfirmed => assert n.Receive(m) == n.OnAckOrderConfirmed(m);
    case EvOrderDone => assert n.Receive(m) == n.OnOrderDone(m);
    case EvAckOrderDone => assert n.Receive(m) == n.OnAckOrderDone(m);
    case EvReassignOrder => assert n.Receive(m) == n.OnReassignOrder(m);
  }

  lemma ReceiveValid(n: Node, m: OrderMsg)
    requires n.Valid()
    ensures n.Receive(m).node.Valid() && n.Receive(m).node.ip == n.ip
  {
    if m.event == EvOrderConfirmed {
      ConfirmedValid(n, m);
    } else {
      ReceiveKeepsViews(n, m);
    }
  }

  lemma StepsWellFormed(s: Sys, i: IP, e: NodeEvent, s': Sys)
    requires Steps(s, i, e, s')
    ensures WellFormed(s')
  {
    NextValid(s.nodes[i], e);
  }

  /** What one event at node `i` makes of the system. */
  ghost function Then(s: Sys, i: IP, e: NodeEvent): (s': Sys)
    requires WellFormed(s) && i in s.nodes && (e.Queued? ==> s.nodes[i].queue != [])
    ensures Enabled(s.nodes[i], e, s.orders, s.restores) ==> Steps(s, i, e, s')
    ensures WellFormed(s') && i in s'.nodes && s'.nodes[i] == Next(s.nodes[i], e).node
  {
    var n := s.nodes[i];
    var out := Next(n, e);
    NextValid(n, e);
    Sys(s.nodes[i := out.node], s.orders + (set x | x in out.orders), s.restores + (set r | r in out.restores))
  }

  /** What the step of node `i` sends and confirms. */
  function StepSent(s: Sys, i: IP, e: NodeEvent): set<OrderMsg> {
    if i in s.nodes && s.nodes[i].Valid() && (e.Queued? ==> s.nodes[i].queue != []) then
      set m | m in Next(s.nodes[i], e).orders
    else {}
  }

  function StepConfirms(s: Sys, i: IP, e: NodeEvent): set<Confirmation> {
    if i in s.nodes && s.nodes[i].Valid() && (e.Queued? ==> s.nodes[i].queue != []) then Confirms(s.nodes[i], e) else {}
  }

  /** A run of the system: at step k node `who[k]` handles event `es[k]`. */
  ghost predicate SysRun(ss: seq<Sys>, who: seq<IP>, es: seq<NodeEvent>) {
    && |ss| == |es| + 1 == |who| + 1
    && WellFormed(ss[0])
    && forall k :: 0 <= k < |es| ==> Steps(ss[k], who[k], es[k], ss[k + 1])
  }

  lemma {:induction false} RunWellFormed(ss: seq<Sys>, who: seq<IP>, es: seq<NodeEvent>, k: nat)
    requires SysRun(ss, who, es) && k < |ss|
    ensures WellFormed(ss[k])
  {
    hide Steps;
    if k == 0 {
    } else {
      StepsWellFormed(ss[k - 1], who[k - 1], es[k - 1], ss[k]);
    }
  }

  lemma {:induction false} NodesStay(ss: seq<Sys>, who: seq<IP>, es: seq<NodeEvent>, k: nat)
    requires SysRun(ss, who, es) && k < |ss|
    ensures ss[k].nodes.Keys == ss[0].nodes.Keys
  {
    hide Next;
    if k == 0 {
    } else {
      NodesStay(ss, who, es, k - 1);
      assert Steps(ss[k - 1], who[k - 1], es[k - 1], ss[k]);
    }
  }

  /** The part of a run from step `p` to step `q` is a run. */
  lemma PartIsRun(ss: seq<Sys>, who: seq<IP>, es: seq<NodeEvent>, p: nat, q: nat)
    requires SysRun(ss, who, es) && p <= q <= |es|
    ensures SysRun(ss[p..q + 1], who[p..q], es[p..q])
  {
    hide Steps;
    RunWellFormed(ss, who, es, p);
    forall k | 0 <= k < q - p ensures Steps(ss[p..q + 1][k], who[p..q][k], es[p..q][k], ss[p..q + 1][k + 1]) {
      assert Steps(ss[p + k], who[p + k], es[p + k], ss[p + k + 1]);
    }
  }
}
