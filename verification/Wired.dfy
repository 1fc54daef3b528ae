/** A node of the system whose hardware is the simulated motor: its floor events come in order. */
module WiredNodes {
  import opened Typedef
  import opened Cars
  import CarRun
  import opened Nodes
  import opened Network
  import opened Motors
  import opened ClosedLoop
  import EndToEnd

  /** The motor timer fires `n` times in between. */
  ghost predicate Turns(l: Loop, l': Loop, n: nat)
    decreases n
  {
    if n == 0 then l' == l else exists m :: LoopStep(l, MotorTimer, m) && Turns(m, l', n - 1)
  }

  /** The event at the node, as its hardware has part in it: a floor event is what the sensor reads, a
      door event sends the motor off, and all others leave the motor alone. */
  predicate HardwareStep(l: Loop, e: NodeEvent, l': Loop) {
    if e.FloorEvent? then ArrivalPending(l) && l.plant.Reading() == Some(e.reached) && l' == AfterFloor(l, e.reached)
    else if e.DoorEvent? then l.car.doorTimer && l' == AfterDoor(l)
    else l' == l.(car := l'.car)
  }

  ghost predicate WiredStep(l: Loop, i: IP, j: IP, e: NodeEvent, l': Loop) {
    exists m, n :: Turns(l, m, n) && if j == i then HardwareStep(m, e, l') else l' == m
  }

  /** `ls` is what car and motor of node `i` do in the run. */
  ghost predicate Wired(ss: seq<Sys>, who: seq<IP>, es: seq<NodeEvent>, i: IP, ls: seq<Loop>) {
    && SysRun(ss, who, es) && |ls| == |ss|
    && (forall k :: 0 <= k < |ss| ==> i in ss[k].nodes && ss[k].nodes[i].Valid() && ls[k].car == ss[k].nodes[i].Car())
    && LoopInit(ls[0])
    && forall k :: 0 <= k < |es| ==> WiredStep(ls[k], i, who[k], es[k], ls[k + 1])
  }

  lemma {:induction false} TurnsInv(l: Loop, l': Loop, n: nat)
    requires LoopInv(l) && Turns(l, l', n)
    ensures LoopInv(l') && l'.car == l.car
    decreases n
  {
    if n == 0 {
    } else {
      var m :| LoopStep(l, MotorTimer, m) && Turns(m, l', n - 1);
      LoopStepInv(l, MotorTimer, m);
      TurnsInv(m, l', n - 1);
    }
  }

  /** What the sensor reads is the next floor of a moving car. */
  lemma ReadsNextFloor(l: Loop)
    requires LoopInv(l) && ArrivalPending(l)
    ensures l.car.Moving() && l.plant.Reading().value == l.car.At() + l.car.Heading().Delta()
  {
    ReadingExact(l.plant);
  }

  lemma HardwareInv(l: Loop, n: Node, e: NodeEvent, l': Loop)
    requires LoopInv(l) && HardwareStep(l, e, l') && n.Valid() && l.car == n.Car()
    requires (e.Queued? ==> n.queue != []) && Next(n, e).node.Valid() && l'.car == Next(n, e).node.Car()
    ensures EndToEnd.FloorInOrder(n, e) && LoopInv(l')
  {
    hide Next, LoopInv, CarRun.Step;
    if e.FloorEvent? {
      ReadsNextFloor(l);
      SampleSafe(l);
    } else if e.DoorEvent? {
      DoorSafe(l);
    } else {
      EndToEnd.NodeRefinesCar(n, e);
      var ev := EndToEnd.CarEvent(n, e);
      assert !ev.DoorClosed?;
      OtherSafe(l, ev, l');
    }
  }

  lemma WiredStepInv(s: Sys, j: IP, e: NodeEvent, s': Sys, i: IP, l: Loop, l': Loop)
    requires Steps(s, j, e, s') && i in s.nodes && s.nodes[i].Valid() && i in s'.nodes && s'.nodes[i].Valid()
    requires LoopInv(l) && WiredStep(l, i, j, e, l') && l.car == s.nodes[i].Car() && l'.car == s'.nodes[i].Car()
    ensures LoopInv(l') && (j == i ==> EndToEnd.FloorInOrder(s.nodes[i], e))
  {
    hide Next, LoopInv, HardwareStep, Chosen;
    var m, n :| Turns(l, m, n) && if j == i then HardwareStep(m, e, l') else l' == m;
    TurnsInv(l, m, n);
    if j == i {
      HardwareInv(m, s.nodes[i], e, l');
    }
  }

  lemma {:induction false} WiredInv(
    ss: seq<Sys>, who: seq<IP>, es: seq<NodeEvent>, i: IP, ls: seq<Loop>, k: nat)
    requires Wired(ss, who, es, i, ls) && k < |ss|
    ensures LoopInv(ls[k])
  {
    hide Steps, WiredStep, LoopInit, LoopInv;
    if k == 0 {
      InitLoop(ls[0]);
    } else {
      WiredInv(ss, who, es, i, ls, k - 1);
      WiredStepInv(ss[k - 1], who[k - 1], es[k - 1], ss[k], i, ls[k - 1], ls[k]);
    }
  }

  lemma InitLoop(l: Loop)
    requires LoopInit(l)
    ensures LoopInv(l)
  {
    CarRun.InitInv(l.car);
  }

  /** So on the simulated motor the floor events of a node are in order, whatever the node receives,
      and what is said of such nodes holds of it. */
  lemma WiredInOrder(ss: seq<Sys>, who: seq<IP>, es: seq<NodeEvent>, i: IP, ls: seq<Loop>)
    requires Wired(ss, who, es, i, ls)
    ensures EndToEnd.InOrder(ss, who, es, i)
  {
    hide Steps, WiredStep, LoopInit, LoopInv, EndToEnd.FloorInOrder;
    forall k | 0 <= k < |es| && who[k] == i ensures EndToEnd.FloorInOrder(ss[k].nodes[i], es[k]) {
      WiredInv(ss, who, es, i, ls, k);
      WiredStepInv(ss[k], who[k], es[k], ss[k + 1], i, ls[k], ls[k + 1]);
    }
  }
}
