/** What nodes know of each other: in every reachable state the cost function can be evaluated on
    every active elevator. */
module Views {
  import opened Typedef
  import opened CostWalk
  import opened Cost
  import opened Cars
  import CarRun
  import opened Nodes
  import opened Network

  predicate StateOk(ip: IP, s: ElevState) {
    s.localIP == ip && s.Walkable()
  }

  predicate NodeOk(n: Node) {
    && n.Valid()
    && (forall k :: k in n.known ==> StateOk(k, n.known[k].state))
    && n.active.Keys <= n.known.Keys
    && (forall k :: k in n.active ==> n.active[k])
  }

  /** A published state names its sender and belongs to a car that moves in some direction. */
  predicate RestoreOk(r: RestoreMsg) {
    match r
    case EvIAmAlive(who, state) => StateOk(who, state)
    case EvBackupState(who, state, _) => StateOk(who, state)
    case _ => true
  }

  predicate SysOk(s: Sys) {
    && WellFormed(s)
    && (forall i :: i in s.nodes ==> NodeOk(s.nodes[i]))
    && (forall r :: r in s.restores ==> RestoreOk(r))
  }

  /** main.go:79-92 for one node, before the first pass over the active elevators. */
  predicate InitNode(n: Node) {
    && n.known.Keys == {n.ip} && n.Valid() && n.active == map[]
    && CarRun.Init(n.Car())
    && n.queue == [] && n.armed == {} && n.running == {}
  }

  predicate InitSys(s: Sys) {
    && WellFormed(s)
    && (forall i :: i in s.nodes ==> InitNode(s.nodes[i]))
    && s.orders == {}
    && (forall r :: r in s.restores ==> r.EvRequestingState?)
  }

  /** One pass of `updateActiveElevators` with one clock reading leaves exactly the known elevators
      that were heard from within the limit. */
  lemma ActiveAfterPass(known: map<IP, Elevator>, active: map<IP, bool>, now: int)
    requires active.Keys <= known.Keys && forall k :: k in active ==> active[k]
    ensures UpdateActive(known, active, now).Keys == set k | k in known && Fresh(known[k], now)
    ensures forall k :: k in UpdateActive(known, active, now) ==> UpdateActive(known, active, now)[k]
  {
  }

  lemma CarEventsWalkable(c: Car, f: Floor, h: Hall, a: IP)
    requires c.view.localState.Walkable()
    ensures StateOk(c.Ip(), c.InternalButton(f).view.localState)
    ensures StateOk(c.Ip(), c.Confirm(f, h, a).0.view.localState)
    ensures StateOk(c.Ip(), c.FloorReached(f).0.view.localState)
    ensures StateOk(c.Ip(), c.DoorTimeout().view.localState)
  {
  }

  lemma WithCarOk(n: Node, c: Car)
    requires NodeOk(n) && StateOk(n.ip, c.view.localState)
    ensures NodeOk(n.WithCar(c))
  {
  }

  lemma SameKnownOk(n: Node, n': Node)
    requires NodeOk(n) && n'.known == n.known && n'.ip == n.ip && n'.active == n.active
    ensures NodeOk(n')
  {
  }

  lemma HeardOk(n: Node, who: IP, e: Elevator, now: int)
    requires NodeOk(n) && StateOk(who, e.state)
    ensures NodeOk(n.Heard(who, e, now))
  {
    ActiveAfterPass(n.known[who := e], n.active, now);
  }

  lemma RestoreMsgOk(n: Node, r: RestoreMsg, now: int)
    requires NodeOk(n) && RestoreOk(r)
    ensures NodeOk(n.OnRestoreMsg(r, now).node)
    ensures forall x :: x in n.OnRestoreMsg(r, now).restores ==> RestoreOk(x)
  {
    match r {
      case EvIAmAlive(who, state) =>
        HeardOk(n, who, if who in n.known then n.known[who].(time := now) else Elevator(state, now), now);
      case EvBackupState(who, state, _) =>
        HeardOk(n, who, Elevator(state, now), now);
      case EvRestoredStateReturned(asker, _, state, reply) =>
        WithCarOk(n, CarRun.Restore(n.Car(), state, n.Adopt(reply)));
      case EvRequestingState(_) =>
    }
  }

  lemma ConfirmedOk(n: Node, m: OrderMsg)
    requires NodeOk(n)
    ensures NodeOk(n.OnOrderConfirmed(m).node)
    ensures forall x :: x in n.OnOrderConfirmed(m).restores ==> RestoreOk(x)
  {
    var n' := n.OnOrderConfirmed(m).node;
    if n.Slot(m.floor, m.button).status == Awaiting {
      var c := n.Car().Confirm(m.floor, m.button, m.assignedTo).0;
      CarEventsWalkable(n.Car(), m.floor, m.button, m.assignedTo);
      WithCarOk(n, c);
      SameKnownOk(n.WithCar(c), n');
    } else {
      SameKnownOk(n, n');
    }
  }

  lemma ReceiveOk(n: Node, m: OrderMsg)
    requires NodeOk(n)
    ensures NodeOk(n.Receive(m).node)
    ensures forall x :: x in n.Receive(m).restores ==> RestoreOk(x)
  {
    if m.event == EvOrderConfirmed {
      ConfirmedOk(n, m);
    } else {
      ReceiveKeepsViews(n, m);
      SameKnownOk(n, n.Receive(m).node);
    }
  }

  lemma FloorOk(n: Node, f: Floor)
    requires NodeOk(n)
    ensures NodeOk(n.OnFloorReached(f).node)
    ensures forall x :: x in n.OnFloorReached(f).restores ==> RestoreOk(x)
  {
    CarEventsWalkable(n.Car(), f, CallUp, n.ip);
    WithCarOk(n, n.Car().FloorReached(f).0);
    SameKnownOk(n.WithCar(n.Car().FloorReached(f).0), n.OnFloorReached(f).node);
  }

  lemma NextOk(n: Node, e: NodeEvent)
    requires NodeOk(n) && (e.Queued? ==> n.queue != []) && (e.Restoration? ==> RestoreOk(e.r))
    ensures NodeOk(Next(n, e).node)
    ensures forall x :: x in Next(n, e).restores ==> RestoreOk(x)
  {
    hide Node.Receive, Node.OnFloorReached, Node.OnRestoreMsg, Car.DoorTimeout, Car.InternalButton, UpdateActive;
    match e
    case Message(m) => ReceiveOk(n, m);
    case Queued => ReceiveOk(n.(queue := n.queue[1..]), n.queue[0]);
    case CabPress(f) =>
      CarEventsWalkable(n.Car(), f, CallUp, n.ip);
      WithCarOk(n, n.Car().InternalButton(f));
    case FloorEvent(f) => FloorOk(n, f);
    case DoorEvent =>
      CarEventsWalkable(n.Car(), 0, CallUp, n.ip);
      WithCarOk(n, n.Car().DoorTimeout());
    case Restoration(r, now) => RestoreMsgOk(n, r, now);
    case CheckAlive(now) => ActiveAfterPass(n.known, n.active, now);
    case _ =>
  }

  lemma InitOk(s: Sys)
    requires InitSys(s)
    ensures SysOk(s)
  {
  }

  lemma {:induction false} RunOk(ss: seq<Sys>, who: seq<IP>, es: seq<NodeEvent>, k: nat)
    requires SysRun(ss, who, es) && InitSys(ss[0]) && k < |ss|
    ensures SysOk(ss[k])
  {
    hide Steps;
    if k == 0 {
      InitOk(ss[0]);
    } else {
      RunOk(ss, who, es, k - 1);
      assert Steps(ss[k - 1], who[k - 1], es[k - 1], ss[k]);
      StepOk(ss[k - 1], who[k - 1], es[k - 1], ss[k]);
    }
  }

  lemma StepOk(s: Sys, i: IP, e: NodeEvent, s': Sys)
    requires SysOk(s) && Steps(s, i, e, s')
    ensures SysOk(s')
  {
    hide Next;
    NextOk(s.nodes[i], e);
    StepsWellFormed(s, i, e, s');
  }

  lemma CanAssign(n: Node, f: Floor, b: Button)
    requires NodeOk(n)
    ensures CostReady(n.known, n.active.Keys, n.matrix, f, b)
  {
  }

  /** In every reachable state of the system, on every node and for every button, `AssignNewOrder`
      finds each active elevator among the known ones and its cost walk ends. */
  lemma AssignmentAlwaysDefined(ss: seq<Sys>, who: seq<IP>, es: seq<NodeEvent>, k: nat, i: IP, f: Floor, b: Button)
    requires SysRun(ss, who, es) && InitSys(ss[0]) && k < |ss| && i in ss[k].nodes
    ensures var n := ss[k].nodes[i]; CostReady(n.known, n.active.Keys, n.matrix, f, b)
  {
    RunOk(ss, who, es, k);
    assert NodeOk(ss[k].nodes[i]);
    CanAssign(ss[k].nodes[i], f, b);
  }

  /** The event makes the node go over its active elevators, at this clock reading: the tick, a sign of
      life, and another elevator's backup (main.go:620, 110 and 136). */
  function PassAt(n: Node, e: NodeEvent): Option<int> {
    if e.CheckAlive? then Some(e.time)
    else if e.Restoration?
            && (e.r.EvIAmAlive? || (e.r.EvBackupState? && e.r.responder != n.ip && e.r.responder == e.r.state.localIP))
    then Some(e.now)
    else None
  }

  lemma PassFreshens(n: Node, e: NodeEvent)
    requires NodeOk(n) && PassAt(n, e).Some?
    ensures var n' := Next(n, e).node;
            n'.active.Keys == set j | j in n'.known && Fresh(n'.known[j], PassAt(n, e).value)
  {
    var now := PassAt(n, e).value;
    if e.CheckAlive? {
      ActiveAfterPass(n.known, n.active, now);
    } else {
      var heard := Next(n, e).node.known;
      assert forall k :: k in n.known ==> k in heard;
      ActiveAfterPass(heard, n.active, now);
    }
  }
}
