/** Why agreement needs every origin to keep to one assignee: a run from initialisation in which it does
    not, and which ends with a car parked with its order. */
module Disagreement {
  import opened Typedef
  import opened CostWalk
  import opened Cost
  import opened Cars
  import CarRun
  import opened Nodes
  import opened Network
  import opened Views
  import opened Handshake
  import opened Deliveries

  // ---------------------------------------------------------------- two acknowledgements, two assignees

  /** Two new orders of one origin, two inactive nodes. */
  ghost predicate TwoAssignees(s: Sys, i: IP, j: IP, f: Floor, h: Hall, x: IP, y: IP) {
    && WellFormed(s) && i in s.nodes && j in s.nodes && i != j && x != y
    && s.nodes[i].active.Keys == {i, j}
    && s.nodes[i].Slot(f, h).status == NotActive && s.nodes[j].Slot(f, h).status == NotActive
    && NewMsg(f, h, x, i) in s.orders && NewMsg(f, h, y, i) in s.orders
  }

  function Confirm(f: Floor, h: Hall, y: IP, i: IP): OrderMsg { OrderMsg(f, h, y, i, i, EvOrderConfirmed) }

  /** Whenever one origin has two new orders for the button on the network, assigned to `x` and to
      `y`, and it and another node of its active set are still inactive, four deliveries make it
      confirm `y` while it holds the order for `x` itself. */
  lemma FourDeliveries(s: Sys, i: IP, j: IP, f: Floor, h: Hall, x: IP, y: IP)
    returns (s1: Sys, s2: Sys, s3: Sys, s4: Sys, c: Confirmation)
    requires TwoAssignees(s, i, j, f, h, x, y)
    ensures Sends(s, i, Message(NewMsg(f, h, x, i)), s1, {AckMsg(f, h, x, i, i)})
    ensures Sends(s1, j, Message(NewMsg(f, h, y, i)), s2, {AckMsg(f, h, y, i, j)})
    ensures Sends(s2, i, Message(AckMsg(f, h, x, i, i)), s3, {})
    ensures Sends(s3, i, Message(AckMsg(f, h, y, i, j)), s4, {Confirm(f, h, y, i)})
    ensures c == Confirmation(i, f, h, y, {i, j}) && c in StepConfirms(s3, i, Message(AckMsg(f, h, y, i, j)))
    ensures WellFormed(s4) && s4.nodes.Keys == s.nodes.Keys && Confirm(f, h, y, i) in s4.orders
    ensures s4.nodes[i].Slot(f, h) == ElevOrder(Awaiting, x, {}) && SameCar(s.nodes[i], s4.nodes[i])
  {
    hide Steps, WellFormed, StepSent, StepConfirms;
    assert NewMsg(f, h, x, i).As(i, EvAckNewOrder) == AckMsg(f, h, x, i, i);
    assert NewMsg(f, h, y, i).As(j, EvAckNewOrder) == AckMsg(f, h, y, i, j);
    assert AckMsg(f, h, y, i, j).As(i, EvOrderConfirmed) == Confirm(f, h, y, i);
    assert j !in {i};
    s1 := DeliverNew(s, i, NewMsg(f, h, x, i));
    s2 := DeliverNew(s1, j, NewMsg(f, h, y, i));
    s3 := DeliverAck(s2, i, AckMsg(f, h, x, i, i));
    s4, c := DeliverLastAck(s3, i, AckMsg(f, h, y, i, j));
  }

  predicate SameCar(n: Node, n': Node) {
    && n'.ip == n.ip && n'.known == n.known
    && n'.doorTimer == n.doorTimer && n'.doorLamp == n.doorLamp && n'.motor == n.motor
  }

  /** An idle car with its own order awaiting is parked by a confirmation for another elevator. */
  lemma ParkedByConfirm(s: Sys, i: IP, f: Floor, h: Hall, y: IP) returns (s': Sys)
    requires WellFormed(s) && i in s.nodes && Confirm(f, h, y, i) in s.orders && y != i
    requires var n := s.nodes[i];
             n.Slot(f, h).status == Awaiting && n.Slot(f, h).assignedTo == i
             && !n.State().isMoving && !n.doorTimer
    ensures Sends(s, i, Message(Confirm(f, h, y, i)), s', {Confirm(f, h, y, i).As(i, EvAckOrderConfirmed)})
    ensures i in s'.nodes && s'.nodes[i].Valid()
    ensures CarRun.Parked(s'.nodes[i].Car()) && s'.nodes[i].Car().view.Own(f, h)
  {
    s' := DeliverConfirmed(s, i, Confirm(f, h, y, i));
    var c := s'.nodes[i].Car();
    assert c.view.Own(f, h) && c.view.OwnAt(f);
    assert c.view.HaveOrders();
  }

  // ---------------------------------------------------------------- two elevators find each other

  function Empty(): Matrix { seq(N_FLOORS, _ => Row(NO_ORDER, NO_ORDER)) }

  function Idle(ip: IP, x: Floor): ElevState {
    ElevState(ip, x, Stop, false, false, seq(N_FLOORS, _ => false))
  }

  function Record(s: ElevState): Elevator { Elevator(s, 0) }

  /** A node after initialisation. */
  function Alone(ip: IP, x: Floor): Node {
    Node(ip, map[ip := Record(Idle(ip, x))], map[], Empty(), false, false, Stop, [], {}, {})
  }

  /** Node `ip`, with "a" idle at floor 0 and "b" in state `b`. */
  function Pair(ip: IP, b: ElevState): Node {
    Node(ip, map["a" := Record(Idle("a", 0)), "b" := Record(b)], map["a" := true, "b" := true],
         Empty(), false, false, Stop, [], {}, {})
  }

  function Start(): Sys { Sys(map["a" := Alone("a", 0), "b" := Alone("b", 1)], {}, {}) }

  lemma StartIsInit()
    ensures InitSys(Start())
  {
    assert CarRun.Init(Alone("a", 0).Car()) && CarRun.Init(Alone("b", 1).Car());
  }

  lemma SaysAlive(s: Sys, i: IP) returns (s': Sys)
    requires WellFormed(s) && i in s.nodes
    ensures WellFormed(s') && Sends(s, i, AliveTick, s', {})
    ensures s'.nodes == s.nodes && s'.orders == s.orders
    ensures s'.restores == s.restores + {EvIAmAlive(i, s.nodes[i].State())}
  {
    s' := Then(s, i, AliveTick);
    assert Next(s.nodes[i], AliveTick) == Out(s.nodes[i], [], [EvIAmAlive(i, s.nodes[i].State())]);
    assert s'.nodes == s.nodes;
  }

  lemma Hears(s: Sys, i: IP, r: RestoreMsg) returns (s': Sys)
    requires WellFormed(s) && i in s.nodes && r in s.restores && r.EvIAmAlive? && r.responder !in s.nodes[i].known
    ensures WellFormed(s') && Sends(s, i, Restoration(r, 0), s', {})
    ensures s'.nodes == s.nodes[i := s.nodes[i].Heard(r.responder, Record(r.state), 0)]
    ensures s'.orders == s.orders && s'.restores == s.restores
  {
    s' := Then(s, i, Restoration(r, 0));
    assert Next(s.nodes[i], Restoration(r, 0)) == Out(s.nodes[i].Heard(r.responder, Record(r.state), 0), [], []);
  }

  lemma FindsOther(ip: IP)
    ensures Alone("a", 0).Heard("b", Record(Idle("b", 1)), 0) == Pair("a", Idle("b", 1))
    ensures Alone("b", 1).Heard("a", Record(Idle("a", 0)), 0) == Pair("b", Idle("b", 1))
  {
    assert Pair("b", Idle("b", 1)).known == map["b" := Record(Idle("b", 1)), "a" := Record(Idle("a", 0))];
  }

  /** Each hears of the other, and both are active. */
  lemma Meet() returns (s: Sys, s1: Sys, s2: Sys, s3: Sys, s4: Sys)
    ensures InitSys(s) && WellFormed(s4)
    ensures Sends(s, "a", AliveTick, s1, {}) && Sends(s1, "b", AliveTick, s2, {})
    ensures Sends(s2, "a", Restoration(EvIAmAlive("b", Idle("b", 1)), 0), s3, {})
    ensures Sends(s3, "b", Restoration(EvIAmAlive("a", Idle("a", 0)), 0), s4, {})
    ensures s4.nodes == map["a" := Pair("a", Idle("b", 1)), "b" := Pair("b", Idle("b", 1))] && s4.orders == {}
  {
    hide Sends, Idle;
    s := Start();
    StartIsInit();
    s1 := SaysAlive(s, "a");
    s2 := SaysAlive(s1, "b");
    s3 := Hears(s2, "a", EvIAmAlive("b", Idle("b", 1)));
    s4 := Hears(s3, "b", EvIAmAlive("a", Idle("a", 0)));
    FindsOther("a");
  }

  // ---------------------------------------------------------------- one button pressed twice

  lemma PickIs(costs: map<IP, nat>, ip: IP)
    requires Cheapest(costs, ip) && ip != ""
    ensures Pick(costs) == Ok(ip)
  {
    forall j | Cheapest(costs, j) ensures j == ip {
      CheapestUnique(costs, j, ip);
    }
  }

  /** For the button down of floor 1, "a" one floor away costs two. */
  lemma CostOfA()
    ensures !Diverges(ExtendedElevState(Idle("a", 0), Empty()), 1, CallDown)
    ensures CostOf(Idle("a", 0), Empty(), 1, CallDown) == 2
  {
    var s := ExtendedElevState(Idle("a", 0), Empty());
    var m := Marks(s);
    assert forall f: Floor :: !s.OwnAt(f);
    assert !Above(m, 1) && Arrived(m, Up, 1, CallDown);
    assert Walk(m, Up, 0, 1, CallDown) == (1, 0);
  }

  /** The choice between "a" and "b" at a node that sees "b" in state `b`. */
  lemma Chooses(n: Node, b: ElevState)
    requires n.known == Pair("a", b).known && n.active.Keys == {"a", "b"} && n.matrix == Empty()
    requires !Diverges(ExtendedElevState(b, Empty()), 1, CallDown) && CostOf(b, Empty(), 1, CallDown) != 2
    ensures Chosen(n, 1, CallDown, if CostOf(b, Empty(), 1, CallDown) < 2 then "b" else "a")
  {
    CostOfA();
    var costs := Costs(n.known, n.active.Keys, n.matrix, 1, CallDown);
    PickIs(costs, if CostOf(b, Empty(), 1, CallDown) < 2 then "b" else "a");
  }

  /** "b" on its way down to floor 0. */
  function Leaving(): ElevState {
    ElevState("b", 1, Down, true, false, seq(N_FLOORS, f => f == 0))
  }

  lemma CostOfLeaving(m: Matrix)
    ensures !Diverges(ExtendedElevState(Leaving(), m), 1, CallDown)
    ensures CostOf(Leaving(), m, 1, CallDown) >= 4
  {
    var s := ExtendedElevState(Leaving(), m);
    var y: Floor := 0;
    WalkBounds(Marks(s), Bounce(Down, y), y, 1, CallDown);
  }

  lemma ChoosesFirst()
    ensures Chosen(Pair("a", Idle("b", 1)), 1, CallDown, "b")
  {
    Chooses(Pair("a", Idle("b", 1)), Idle("b", 1));
  }

  lemma ChoosesSecond()
    ensures Chosen(Pair("a", Leaving()), 1, CallDown, "a")
  {
    CostOfLeaving(Empty());
    Chooses(Pair("a", Leaving()), Leaving());
  }

  /** "b" has the button of floor 0 pressed, closes its door and leaves. */
  lemma Leaves(n: Node)
    requires n == Pair("b", Idle("b", 1))
    ensures var p := Next(n, CabPress(0)).node;
            && p.Valid() && p.doorTimer
            && Next(p, DoorEvent).node == n.(known := n.known["b" := Record(Leaving())], motor := Down)
            && Next(p, DoorEvent).restores == [EvBackupState("b", Leaving(), Empty())]
            && Next(n, CabPress(0)).orders == [] && Next(p, DoorEvent).orders == []
  {
    var p := Next(n, CabPress(0)).node;
    var flags := seq(N_FLOORS, f => f == 0);
    assert p.State().internalOrders == flags;
    var v := p.Car().view;
    forall f: Floor, h: Hall ensures !v.Own(f, h) {
    }
    var closed := v.(localState := v.localState.(doorIsOpen := false));
    assert closed.Own(0, Command) && closed.OwnAt(0);
    assert forall g: Floor :: g != 0 ==> !closed.OwnAt(g);
    NextDirectionPointsAtWork(closed);
    assert p.Car().DoorTimeout().view.localState == Leaving();
  }

  lemma Press(s: Sys, a: IP) returns (s': Sys)
    requires WellFormed(s) && "a" in s.nodes && "a" in s.nodes["a"].active && Chosen(s.nodes["a"], 1, CallDown, a)
    ensures WellFormed(s') && Sends(s, "a", HallPress(1, CallDown, a), s', {NewMsg(1, CallDown, a, "a")})
    ensures s'.nodes == s.nodes && s'.orders == s.orders + {NewMsg(1, CallDown, a, "a")}
  {
    s' := Then(s, "a", HallPress(1, CallDown, a));
    assert Next(s.nodes["a"], HallPress(1, CallDown, a)).orders == [NewMsg(1, CallDown, a, "a")];
    assert s'.nodes == s.nodes;
  }

  lemma OwnEvent(s: Sys, e: NodeEvent) returns (s': Sys)
    requires WellFormed(s) && "b" in s.nodes && (e == DoorEvent || e.CabPress?)
    requires e.DoorEvent? ==> s.nodes["b"].doorTimer
    requires Next(s.nodes["b"], e).orders == []
    ensures WellFormed(s') && Sends(s, "b", e, s', {})
    ensures s'.orders == s.orders && s'.nodes == s.nodes["b" := Next(s.nodes["b"], e).node]
    ensures s'.restores == s.restores + set r | r in Next(s.nodes["b"], e).restores
  {
    hide Next;
    s' := Then(s, "b", e);
  }

  lemma BackupOfB(b: ElevState, m: Matrix)
    requires b.localIP == "b"
    ensures Pair("a", Idle("b", 1)).Valid()
    ensures Pair("a", Idle("b", 1)).OnRestoreMsg(EvBackupState("b", b, m), 0) == Out(Pair("a", b), [], [])
  {
    var n := Pair("a", Idle("b", 1));
    assert n.Heard("b", Record(b), 0).known == Pair("a", b).known;
    assert n.Heard("b", Record(b), 0).active == Pair("a", b).active;
  }

  /** And "a" hears of it. */
  lemma LearnsState(s: Sys, b: ElevState, m: Matrix) returns (s': Sys)
    requires WellFormed(s) && "a" in s.nodes && s.nodes["a"] == Pair("a", Idle("b", 1))
    requires b.localIP == "b" && EvBackupState("b", b, m) in s.restores
    ensures WellFormed(s') && Sends(s, "a", Restoration(EvBackupState("b", b, m), 0), s', {})
    ensures s'.orders == s.orders && s'.nodes == s.nodes["a" := Pair("a", b)]
  {
    hide Node.OnRestoreMsg, Pair;
    BackupOfB(b, m);
    s' := Then(s, "a", Restoration(EvBackupState("b", b, m), 0));
    assert Next(s.nodes["a"], Restoration(EvBackupState("b", b, m), 0)) == Out(Pair("a", b), [], []);
  }

  lemma Departs(s: Sys) returns (s1: Sys, s2: Sys)
    requires WellFormed(s) && "b" in s.nodes && s.nodes["b"] == Pair("b", Idle("b", 1))
    ensures WellFormed(s2) && Sends(s, "b", CabPress(0), s1, {}) && Sends(s1, "b", DoorEvent, s2, {})
    ensures s2.orders == s.orders && EvBackupState("b", Leaving(), Empty()) in s2.restores
    ensures s2.nodes == s.nodes["b" := Pair("b", Leaving()).(motor := Down)]
  {
    hide Next, Leaving, Sends, Idle;
    Leaves(s.nodes["b"]);
    s1 := OwnEvent(s, CabPress(0));
    s2 := OwnEvent(s1, DoorEvent);
    assert Pair("b", Idle("b", 1)).known["b" := Record(Leaving())] == Pair("b", Leaving()).known;
  }

  lemma Presses(s: Sys) returns (s1: Sys, s2: Sys, s3: Sys, s4: Sys, s5: Sys)
    requires WellFormed(s) && s.orders == {}
    requires s.nodes == map["a" := Pair("a", Idle("b", 1)), "b" := Pair("b", Idle("b", 1))]
    ensures Sends(s, "a", HallPress(1, CallDown, "b"), s1, {NewMsg(1, CallDown, "b", "a")})
    ensures Sends(s1, "b", CabPress(0), s2, {}) && Sends(s2, "b", DoorEvent, s3, {})
    ensures Sends(s3, "a", Restoration(EvBackupState("b", Leaving(), Empty()), 0), s4, {})
    ensures Sends(s4, "a", HallPress(1, CallDown, "a"), s5, {NewMsg(1, CallDown, "a", "a")})
    ensures TwoAssignees(s5, "a", "b", 1, CallDown, "a", "b")
    ensures s5.nodes["a"] == Pair("a", Leaving())
  {
    hide Sends, Chosen, CostOf, WellFormed;
    ChoosesFirst();
    s1 := Press(s, "b");
    s2, s3 := Departs(s1);
    s4 := LearnsState(s3, Leaving(), Empty());
    ChoosesSecond();
    s5 := Press(s4, "a");
  }

  // ---------------------------------------------------------------- the run

  function Who(): seq<IP> {
    ["a", "b", "a", "b", "a", "b", "b", "a", "a", "a", "b", "a", "a", "a"]
  }

  function Events(): seq<NodeEvent> {
    [AliveTick, AliveTick,
     Restoration(EvIAmAlive("b", Idle("b", 1)), 0), Restoration(EvIAmAlive("a", Idle("a", 0)), 0),
     HallPress(1, CallDown, "b"), CabPress(0), DoorEvent,
     Restoration(EvBackupState("b", Leaving(), Empty()), 0), HallPress(1, CallDown, "a"),
     Message(NewMsg(1, CallDown, "a", "a")), Message(NewMsg(1, CallDown, "b", "a")),
     Message(AckMsg(1, CallDown, "a", "a", "a")), Message(AckMsg(1, CallDown, "b", "a", "b")),
     Message(Confirm(1, CallDown, "b", "a"))]
  }

  /** What each step of the round sends. */
  ghost predicate RoundSends(ss: seq<Sys>)
    requires |ss| == 15
  {
    && (forall k :: 0 <= k < 14 ==> Steps(ss[k], Who()[k], Events()[k], ss[k + 1]))
    && StepSent(ss[4], "a", Events()[4]) == {NewMsg(1, CallDown, "b", "a")}
    && StepSent(ss[5], "b", Events()[5]) == {} && StepSent(ss[6], "b", Events()[6]) == {}
    && StepSent(ss[7], "a", Events()[7]) == {}
    && StepSent(ss[8], "a", Events()[8]) == {NewMsg(1, CallDown, "a", "a")}
    && StepSent(ss[9], "a", Events()[9]) == {AckMsg(1, CallDown, "a", "a", "a")}
    && StepSent(ss[10], "b", Events()[10]) == {AckMsg(1, CallDown, "b", "a", "b")}
    && StepSent(ss[11], "a", Events()[11]) == {}
    && StepSent(ss[12], "a", Events()[12]) == {Confirm(1, CallDown, "b", "a")}
    && StepSent(ss[13], "a", Events()[13]) == {Confirm(1, CallDown, "b", "a").As("a", EvAckOrderConfirmed)}
  }

  lemma AllSteps() returns (ss: seq<Sys>, c: Confirmation)
    ensures |ss| == 15 && InitSys(ss[0]) && RoundSends(ss)
    ensures forall i :: i in ss[4].nodes ==> ss[4].nodes[i].Slot(1, CallDown).status == NotActive
    ensures c == Confirmation("a", 1, CallDown, "b", {"a", "b"}) && c in StepConfirms(ss[12], "a", Events()[12])
    ensures "a" in ss[13].nodes && ss[13].nodes["a"].Slot(1, CallDown).assignedTo == "a"
    ensures "a" in ss[14].nodes && ss[14].nodes["a"].Valid()
    ensures CarRun.Parked(ss[14].nodes["a"].Car()) && ss[14].nodes["a"].Car().view.Own(1, CallDown)
  {
    hide Steps, StepSent, StepConfirms, WellFormed, InitSys, Leaving, CarRun.Parked;
    var s0, s1, s2, s3, s4 := Meet();
    var s5, s6, s7, s8, s9 := Presses(s4);
    var s10, s11, s12, s13;
    s10, s11, s12, s13, c := FourDeliveries(s9, "a", "b", 1, CallDown, "a", "b");
    var s14 := ParkedByConfirm(s13, "a", 1, CallDown, "b");
    ss := [s0, s1, s2, s3, s4, s5, s6, s7, s8, s9, s10, s11, s12, s13, s14];
  }

  lemma AllQuiet(ss: seq<Sys>)
    requires |ss| == 15 && RoundSends(ss)
    ensures forall k :: 4 <= k < 14 ==> Quiet(ss, Who(), Events(), 4, k, 1, CallDown)
  {
    hide Steps, StepSent, SentIn, Quiet, Leaving, Idle, Empty;
    var who, es := Who(), Events();
    forall k | 4 <= k < 14 && k != 11 && k != 12 ensures Quiet(ss, who, es, 4, k, 1, CallDown) {
      CalmIsQuiet(ss, who, es, 4, k, 1, CallDown);
    }
    AnsweredIsQuiet(ss, who, es, 4, 9, 11, 1, CallDown);
    AnsweredIsQuiet(ss, who, es, 4, 10, 12, 1, CallDown);
  }

  /** Agreement does depend on every origin keeping to one assignee. Two elevators start, "a" at floor 0
      and "b" at floor 1, and hear of each other. The down button of floor 1 is pressed at "a", which
      assigns the order to "b"; "b" leaves for floor 0, "a" hears of it, the button is pressed again, and
      "a" assigns the order to itself. "a" takes the second new order and "b" the first, both acknowledge,
      and "a" confirms "b" while it holds the order for itself: all of that within one round, steps 4 to
      14. When "a" handles its own confirmation, its car is parked with the order. */
  lemma TwoAssigneesBreakAgreement() returns (ss: seq<Sys>, c: Confirmation)
    ensures SysRun(ss, Who(), Events()) && InitSys(ss[0])
    ensures Round(ss, Who(), Events(), 4, 14, 1, CallDown)
    ensures ConfirmedAt(ss, Who(), Events(), 12, 1, CallDown, c) && c.assignee == "b" && "a" in c.active
    ensures "a" in ss[13].nodes && ss[13].nodes["a"].Slot(1, CallDown).assignedTo != c.assignee
    ensures "a" in ss[14].nodes && ss[14].nodes["a"].Valid()
    ensures CarRun.Parked(ss[14].nodes["a"].Car()) && ss[14].nodes["a"].Car().view.Own(1, CallDown)
  {
    hide Steps, StepSent, StepConfirms, Quiet, Leaving, Idle, Empty, CarRun.Parked;
    ss, c := AllSteps();
    AllQuiet(ss);
    InitUnarmed(ss[0]);
  }

  lemma InitUnarmed(s: Sys)
    requires InitSys(s)
    ensures WellFormed(s) && NoAckArmed(s)
  {
  }
}
