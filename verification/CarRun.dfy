/** Runs of one car under arbitrary orders and messages: what every reachable state satisfies. */
module CarRun {
  import opened Typedef
  import opened Cars

  /** What can happen to a car. `Protocol` is any change of the matrix that gives the car no new order:
      new orders, acknowledgements, other cars' orders, and messages that take an own order away.
      `Restored` is any restore reply (main.go:158-188), and `Confirmed` any confirmation of an order
      that awaits it, whether or not it names the elevator that the matrix does. */
  datatype Event =
    | Pressed(floor: Floor)
    | Confirmed(at: Floor, hall: Hall, assignee: IP)
    | Arrival
    | DoorClosed
    | Protocol(matrix: Matrix)
    | Restored(reply: ElevState, adopted: Matrix)

  predicate SameOwn(c: Car, m: Matrix) {
    forall f: Floor, h: Hall :: c.view.(externalOrders := m).Own(f, h) == c.view.Own(f, h)
  }

  /** The matrix gives the car no order that it does not have already. */
  predicate NoNewOwn(c: Car, m: Matrix) {
    forall f: Floor, h: Hall :: c.view.(externalOrders := m).Own(f, h) ==> c.view.Own(f, h)
  }

  function Merged(a: Flags, b: Flags): (r: Flags)
    ensures forall f: Floor :: r[f] == (a[f] || b[f])
  {
    seq(N_FLOORS, f requires 0 <= f < N_FLOORS => a[f] || b[f])
  }

  /** `MergeStates` and the door timer, main.go:181-187. */
  function Restore(c: Car, reply: ElevState, adopted: Matrix): Car {
    var s := c.view.localState;
    Car(ExtendedElevState(s.(internalOrders := Merged(s.internalOrders, reply.internalOrders)), adopted),
        c.doorTimer || (s.IsIdle() && !s.doorIsOpen), c.doorLamp, c.motor)
  }

  /** The one assumption is about floor events: they come from a moving car, one floor further on
      (proved of the simulated motor in ClosedLoop). */
  predicate Step(c: Car, e: Event, c': Car) {
    match e
    case Pressed(f) =>
      c' == c.InternalButton(f)
    case Confirmed(f, h, a) =>
      c.Slot(f, h).status == Awaiting && c' == c.Confirm(f, h, a).0
    case Arrival =>
      c.Moving() && InShaft(c.At() + c.Heading().Delta()) && c' == c.FloorReached(c.At() + c.Heading().Delta()).0
    case DoorClosed =>
      c.doorTimer && c' == c.DoorTimeout()
    case Protocol(m) =>
      NoNewOwn(c, m) && c' == c.(view := c.view.(externalOrders := m))
    case Restored(reply, adopted) =>
      SameOwn(c, adopted) && c' == Restore(c, reply, adopted)
  }

  /** The state after initialisation, main.go:79-90. */
  predicate Init(c: Car) {
    && c.view.localState == ElevState(c.Ip(), c.At(), Stop, false, false, seq(N_FLOORS, _ => false))
    && (forall f: Floor, h: Hall :: c.Slot(f, h).status == NotActive)
    && !c.doorTimer && !c.doorLamp && c.motor == Stop
  }

  // ---------------------------------------------------------------- the invariant

  /** Door, motor and timer agree. */
  predicate Coherent(c: Car) {
    && c.motor == (if c.Moving() then c.Heading() else Stop)
    && (c.Moving() ==> c.Heading() != Stop)
    && (c.doorTimer ==> !c.Moving())
    && (c.doorLamp ==> c.doorTimer)
    && (c.view.localState.doorIsOpen ==> c.doorTimer)
    && (!c.Moving() && c.Heading() != Stop ==> c.doorTimer && c.doorLamp)
  }

  /** A moving car has an own order strictly ahead. */
  predicate WorkAhead(c: Car) {
    && (c.Moving() && c.Heading() == Up ==> c.view.OwnAbove(c.At()))
    && (c.Moving() && c.Heading() == Down ==> c.view.OwnBelow(c.At()))
  }

  /** What holds after any events at all. */
  predicate Sound(c: Car) {
    Coherent(c) && (c.Moving() ==> InShaft(c.At() + c.Heading().Delta()))
  }

  /** A standing car with work has its timer running, and not all of its work is at its own floor. */
  predicate WillLeave(c: Car) {
    && (c.view.HaveOrders() ==> c.doorTimer)
    && (c.view.OwnAt(c.At()) ==> c.view.OwnAbove(c.At()) || c.view.OwnBelow(c.At()))
  }

  predicate Live(c: Car) {
    Sound(c) && (!c.Moving() ==> WillLeave(c))
  }

  predicate Inv(c: Car) {
    Live(c) && WorkAhead(c)
  }

  /** The event takes no own order away without serving it. */
  predicate Keeps(c: Car, e: Event) {
    e.Protocol? ==> SameOwn(c, e.matrix)
  }

  // ---------------------------------------------------------------- events and the invariant

  lemma NothingOwn(c: Car)
    requires Init(c)
    ensures forall f: Floor, b: Button :: !c.view.Own(f, b)
  {
    forall f: Floor, b: Button ensures !c.view.Own(f, b) {
      if b != Command { assert c.Slot(f, b).status == NotActive; }
    }
  }

  lemma InitInv(c: Car)
    requires Init(c)
    ensures Inv(c)
  {
    NothingOwn(c);
  }

  lemma OwnMonotone(s: ExtendedElevState, s': ExtendedElevState, x: Floor)
    requires forall g: Floor, b: Button :: s.Own(g, b) ==> s'.Own(g, b)
    ensures s.OwnAbove(x) ==> s'.OwnAbove(x)
    ensures s.OwnBelow(x) ==> s'.OwnBelow(x)
  {
    if s.OwnAbove(x) {
      var g :| x < g < N_FLOORS && s.OwnAt(g);
      assert s'.OwnAt(g);
    }
    if s.OwnBelow(x) {
      var g :| 0 <= g < x && s.OwnAt(g);
      assert s'.OwnAt(g);
    }
  }

  /** Taking a confirmed order adds that order if it is this car's and is not served at once. */
  lemma ConfirmOwn(c: Car, f: Floor, h: Hall, a: IP, g: Floor, b: Button)
    requires Step(c, Confirmed(f, h, a), c.Confirm(f, h, a).0)
    ensures var taken := c.view.SetOrder(f, h, c.Slot(f, h).(status := UnderExecution));
            && taken.Own(g, b) == (c.view.Own(g, b) || (g == f && b == h && c.Slot(f, h).assignedTo == c.Ip()))
            && c.Confirm(f, h, a).0.view.Own(g, b)
               == (if c.Confirm(f, h, a).1 then c.view.Own(g, b) else taken.Own(g, b))
  {
  }

  /** Every event except a floor event keeps every own order. */
  lemma OwnKept(c: Car, e: Event, c': Car, g: Floor, b: Button)
    requires Step(c, e, c') && Keeps(c, e) && !e.Arrival?
    ensures c.view.Own(g, b) ==> c'.view.Own(g, b)
    ensures c.At() == c'.At() && c.Ip() == c'.Ip()
  {
    if e.Confirmed? {
      ConfirmOwn(c, e.at, e.hall, e.assignee, g, b);
    }
  }

  lemma ArriveSound(c: Car)
    requires Sound(c) && c.Moving()
    ensures Sound(c.FloorReached(c.At() + c.Heading().Delta()).0)
  {
  }

  /** Closing the door: the car leaves towards work, or there is none above or below. */
  lemma DoorFacts(c: Car)
    requires Sound(c) && c.doorTimer
    ensures var c' := c.DoorTimeout();
            && (forall g: Floor, b: Button :: c'.view.Own(g, b) == c.view.Own(g, b))
            && c'.At() == c.At() && !c'.doorTimer
            && c'.Heading() == (if !c.view.OwnAbove(c.At()) && !c.view.OwnBelow(c.At()) then Stop
                                else if c.view.OwnAbove(c.At()) && (c.Heading() != Down || !c.view.OwnBelow(c.At()))
                                then Up else Down)
            && (c'.Moving() <==> c'.Heading() != Stop)
  {
    var c' := c.DoorTimeout();
    var closed := c.view.(localState := c.view.localState.(doorIsOpen := false));
    assert forall g: Floor, b: Button :: c'.view.Own(g, b) == c.view.Own(g, b) && closed.Own(g, b) == c.view.Own(g, b);
    OwnMonotone(c.view, closed, c.At());
    OwnMonotone(closed, c.view, c.At());
    NextDirectionPointsAtWork(closed);
  }

  lemma DoorSound(c: Car)
    requires Sound(c) && c.doorTimer
    ensures Sound(c.DoorTimeout())
  {
    DoorFacts(c);
  }

  /** All other events leave the car where it is and as it moves. */
  lemma OthersDoNotMove(c: Car, e: Event, c': Car)
    requires Step(c, e, c') && !e.Arrival? && !e.DoorClosed?
    ensures c'.At() == c.At() && c'.Moving() == c.Moving() && c'.Heading() == c.Heading() && c'.motor == c.motor
  {
  }

  /** Any event keeps door, motor and timer coherent and the car in the shaft. */
  lemma StepSound(c: Car, e: Event, c': Car)
    requires Sound(c) && Step(c, e, c')
    ensures Sound(c')
  {
    if e.Arrival? {
      ArriveSound(c);
    } else if e.DoorClosed? {
      DoorSound(c);
    } else {
      OthersDoNotMove(c, e, c');
    }
  }

  /** Any event that takes no own order away keeps moving cars with an order ahead. */
  lemma StepWorkAhead(c: Car, e: Event, c': Car)
    requires Sound(c) && WorkAhead(c) && Step(c, e, c') && Keeps(c, e)
    ensures WorkAhead(c')
  {
    if e.Arrival? {
      forall g: Floor, b: Button
        ensures c'.view.Own(g, b) == (c.view.Own(g, b) && !(c.StopsAt(c'.At()) && g == c'.At()))
      {
        FloorReachedOwn(c, c'.At(), g, b);
      }
      if !c.StopsAt(c'.At()) { PassesOnlyWithWork(c, c'); }
    } else {
      if e.DoorClosed? { DoorFacts(c); } else { OthersDoNotMove(c, e, c'); }
      forall g: Floor, b: Button ensures c.view.Own(g, b) ==> c'.view.Own(g, b) {
        OwnKept(c, e, c', g, b);
      }
      OwnMonotone(c.view, c'.view, c.At());
    }
  }

  lemma PassesOnlyWithWork(c: Car, c': Car)
    requires Sound(c) && Step(c, Arrival, c') && !c.StopsAt(c'.At())
    ensures WorkAhead(c')
  {
  }

  // ---------------------------------------------------------------- parked with work

  /** The car has work, stands still, and no timer will wake it. */
  predicate Parked(c: Car) {
    c.view.HaveOrders() && !c.Moving() && !c.doorTimer
  }

  /** The car is not parked, and will not be when its door closes. */
  predicate Awake(c: Car) {
    !Parked(c) && (c.doorTimer ==> !Parked(c.DoorTimeout()))
  }

  /** And that is what `Live` says of it. */
  lemma LiveIffAwake(c: Car)
    requires Sound(c)
    ensures Live(c) <==> Awake(c)
  {
    if c.doorTimer {
      DoorFacts(c);
      OwnMonotone(c.view, c.DoorTimeout().view, c.At());
      OwnMonotone(c.DoorTimeout().view, c.view, c.At());
    }
  }

  /** The events that park a standing car: a restore reply with an order for its floor, when neither
      has an order elsewhere; a confirmation that names another elevator than the matrix does and
      finds the car without a timer, or with no order above or below; and a message that takes its
      orders for all other floors away and leaves it one for its own. */
  predicate Parks(c: Car, e: Event) {
    && !c.Moving()
    && match e
       case Restored(reply, _) =>
         reply.internalOrders[c.At()] && forall g: Floor :: g != c.At() ==> !c.view.OwnAt(g) && !reply.internalOrders[g]
       case Confirmed(f, h, a) =>
         && c.Slot(f, h).assignedTo == c.Ip() && a != c.Ip()
         && (!c.doorTimer || (f == c.At() && !c.view.OwnAbove(f) && !c.view.OwnBelow(f)))
       case Pressed(_) => false
       case Arrival => false
       case DoorClosed => false
       case Protocol(m) =>
         var v := c.view.(externalOrders := m);
         v.OwnAt(c.At()) && forall g: Floor :: g != c.At() ==> !v.OwnAt(g)
  }

  lemma RestoreParksIff(c: Car, reply: ElevState, adopted: Matrix)
    requires Live(c) && SameOwn(c, adopted)
    ensures Live(Restore(c, reply, adopted)) <==> !Parks(c, Restored(reply, adopted))
  {
    var c' := Restore(c, reply, adopted);
    StepSound(c, Restored(reply, adopted), c');
    forall g: Floor ensures c'.view.OwnAt(g) == (c.view.OwnAt(g) || reply.internalOrders[g]) {
      assert forall h: Hall :: c'.view.Own(g, h) == c.view.(externalOrders := adopted).Own(g, h);
    }
  }

  /** After such a reply the car keeps the restored order, and once its door has closed it stands
      with no timer left: only another button or message can wake it. */
  lemma RestoreCanPark(c: Car, reply: ElevState, adopted: Matrix)
    requires Live(c) && SameOwn(c, adopted) && Parks(c, Restored(reply, adopted))
    ensures var c' := Restore(c, reply, adopted);
            c'.doorTimer && c'.DoorTimeout().view.Own(c.At(), Command) && Parked(c'.DoorTimeout())
  {
    var c' := Restore(c, reply, adopted);
    StepSound(c, Restored(reply, adopted), c');
    RestoreParksIff(c, reply, adopted);
    LiveIffAwake(c');
    DoorFacts(c');
  }

  lemma ConfirmParksIff(c: Car, f: Floor, h: Hall, a: IP)
    requires Live(c) && c.Slot(f, h).status == Awaiting
    ensures Live(c.Confirm(f, h, a).0) <==> !Parks(c, Confirmed(f, h, a))
  {
    var c' := c.Confirm(f, h, a).0;
    var taken := c.view.SetOrder(f, h, c.Slot(f, h).(status := UnderExecution));
    StepSound(c, Confirmed(f, h, a), c');
    forall g: Floor, b: Button
      ensures taken.Own(g, b) == (c.view.Own(g, b) || (g == f && b == h && c.Slot(f, h).assignedTo == c.Ip()))
      ensures c'.view.Own(g, b) == (if c.Confirm(f, h, a).1 then c.view.Own(g, b) else taken.Own(g, b))
    {
      ConfirmOwn(c, f, h, a, g, b);
    }
    NextDirectionPointsAtWork(taken);
    OwnMonotone(c.view, taken, c.At());
    OwnMonotone(c.view, c'.view, c.At());
    if f == c.At() || c.Slot(f, h).assignedTo != c.Ip() {
      SameElsewhere(c.view, taken, c.At());
      SameElsewhere(c.view, c'.view, c.At());
    } else {
      assert taken.OwnAt(f);
    }
  }

  lemma SameElsewhere(s: ExtendedElevState, s': ExtendedElevState, x: Floor)
    requires forall g: Floor, b: Button :: g != x ==> s.Own(g, b) == s'.Own(g, b)
    ensures s.OwnAbove(x) == s'.OwnAbove(x) && s.OwnBelow(x) == s'.OwnBelow(x)
  {
    assert forall g: Floor :: g != x ==> s.OwnAt(g) == s'.OwnAt(g);
  }

  lemma PressLive(c: Car, f: Floor)
    requires Live(c)
    ensures Live(c.InternalButton(f))
  {
    var c' := c.InternalButton(f);
    StepSound(c, Pressed(f), c');
    forall g: Floor, b: Button ensures c.view.Own(g, b) ==> c'.view.Own(g, b) {
      OwnKept(c, Pressed(f), c', g, b);
    }
    OwnMonotone(c.view, c'.view, c.At());
    if !c.Moving() && c.At() == f {
      assert forall g: Floor, b: Button :: c.view.Own(g, b) == c'.view.Own(g, b);
      OwnMonotone(c'.view, c.view, c.At());
    }
  }

  lemma ProtocolParksIff(c: Car, m: Matrix)
    requires Live(c) && NoNewOwn(c, m)
    ensures Live(c.(view := c.view.(externalOrders := m))) <==> !Parks(c, Protocol(m))
  {
    var c' := c.(view := c.view.(externalOrders := m));
    StepSound(c, Protocol(m), c');
    assert forall g: Floor, b: Button :: c'.view.Own(g, b) ==> c.view.Own(g, b);
    OwnMonotone(c'.view, c.view, c.At());
  }

  lemma ArriveLive(c: Car)
    requires Live(c) && c.Moving()
    ensures Live(c.FloorReached(c.At() + c.Heading().Delta()).0)
  {
    ArriveSound(c);
    var f := c.At() + c.Heading().Delta();
    forall b: Button ensures c.StopsAt(f) ==> !c.FloorReached(f).0.view.Own(f, b) {
      FloorReachedOwn(c, f, f, b);
    }
  }

  lemma DoorLive(c: Car)
    requires Live(c) && c.doorTimer
    ensures Live(c.DoorTimeout())
  {
    DoorSound(c);
    DoorFacts(c);
    OwnMonotone(c.DoorTimeout().view, c.view, c.At());
  }

  lemma StepLiveIff(c: Car, e: Event, c': Car)
    requires Live(c) && Step(c, e, c')
    ensures Live(c') <==> !Parks(c, e)
  {
    match e
    case Pressed(f) => PressLive(c, f);
    case Confirmed(f, h, a) => ConfirmParksIff(c, f, h, a);
    case Arrival => ArriveLive(c);
    case DoorClosed => DoorLive(c);
    case Protocol(m) => ProtocolParksIff(c, m);
    case Restored(reply, adopted) => RestoreParksIff(c, reply, adopted);
  }

  /** Never parked with work, one step: a car that is awake stays so if and only if the event is not
      one of those that park it. */
  lemma StaysAwakeIff(c: Car, e: Event, c': Car)
    requires Sound(c) && Awake(c) && Step(c, e, c')
    ensures Sound(c') && (Awake(c') <==> !Parks(c, e))
  {
    LiveIffAwake(c);
    StepLiveIff(c, e, c');
    StepSound(c, e, c');
    LiveIffAwake(c');
  }

  /** Events that neither take an own order away nor park the car keep the whole invariant. */
  lemma StepInv(c: Car, e: Event, c': Car)
    requires Inv(c) && Step(c, e, c') && Keeps(c, e) && !Parks(c, e)
    ensures Inv(c')
  {
    StepLiveIff(c, e, c');
    StepWorkAhead(c, e, c');
  }

  lemma SameOwnInv(c: Car, m: Matrix)
    requires Inv(c) && SameOwn(c, m)
    ensures Inv(c.(view := c.view.(externalOrders := m)))
  {
    var c' := c.(view := c.view.(externalOrders := m));
    assert forall g: Floor, b: Button :: c'.view.Own(g, b) == c.view.Own(g, b);
    OwnMonotone(c.view, c'.view, c.At());
    OwnMonotone(c'.view, c.view, c.At());
  }

  lemma ArriveInv(c: Car)
    requires Inv(c) && c.Moving()
    ensures Inv(c.FloorReached(c.At() + c.Heading().Delta()).0)
  {
    StepInv(c, Arrival, c.FloorReached(c.At() + c.Heading().Delta()).0);
  }

  lemma DoorInv(c: Car)
    requires Inv(c) && c.doorTimer
    ensures Inv(c.DoorTimeout())
  {
    StepInv(c, DoorClosed, c.DoorTimeout());
  }

  /** A pressed floor is never forgotten: it becomes an own order, or the door is opened right there. */
  lemma PressRegisters(c: Car, f: Floor)
    ensures var c' := c.InternalButton(f);
            || c'.view.Own(f, Command)
            || (c'.At() == f && !c'.Moving() && c'.doorLamp && c'.doorTimer && c'.view.localState.doorIsOpen)
  {
    assert c.InternalButton(f).view.localState.internalOrders[f] || (c.At() == f && !c.Moving());
  }

  // ---------------------------------------------------------------- runs

  ghost predicate Run(cs: seq<Car>, es: seq<Event>) {
    && |cs| == |es| + 1
    && forall i :: 0 <= i < |es| ==> Step(cs[i], es[i], cs[i + 1])
  }

  lemma {:induction false} RunSound(cs: seq<Car>, es: seq<Event>, n: nat)
    requires Run(cs, es) && Sound(cs[0]) && n < |cs|
    ensures Sound(cs[n])
  {
    if n == 0 {
    } else {
      RunSound(cs, es, n - 1);
      StepSound(cs[n - 1], es[n - 1], cs[n]);
    }
  }

  lemma {:induction false} RunLive(cs: seq<Car>, es: seq<Event>, n: nat)
    requires Run(cs, es) && Live(cs[0]) && n < |cs|
    requires forall i :: 0 <= i < n ==> !Parks(cs[i], es[i])
    ensures Live(cs[n])
  {
    if n == 0 {
    } else {
      RunLive(cs, es, n - 1);
      StepLiveIff(cs[n - 1], es[n - 1], cs[n]);
    }
  }

  lemma {:induction false} RunWorkAhead(cs: seq<Car>, es: seq<Event>, n: nat)
    requires Run(cs, es) && Sound(cs[0]) && WorkAhead(cs[0]) && n < |cs|
    requires forall i :: 0 <= i < n ==> Keeps(cs[i], es[i])
    ensures WorkAhead(cs[n])
  {
    if n == 0 {
    } else {
      RunWorkAhead(cs, es, n - 1);
      RunSound(cs, es, n - 1);
      StepWorkAhead(cs[n - 1], es[n - 1], cs[n]);
    }
  }

  /** As long as no message takes an own order away and no event parks the car, the whole invariant
      holds over runs; it is what the estimate results ask for. */
  lemma RunInv(cs: seq<Car>, es: seq<Event>, n: nat)
    requires Run(cs, es) && Inv(cs[0]) && n < |cs|
    requires forall i :: 0 <= i < n ==> Keeps(cs[i], es[i]) && !Parks(cs[i], es[i])
    ensures Inv(cs[n])
  {
    RunLive(cs, es, n);
    RunWorkAhead(cs, es, n);
  }

  /** Over every run: the motor does what the state says and a moving car has a next floor; the door
      timer runs only at a standstill; the lamp is never lit while the motor turns; a car that stands
      with a direction will look again. As long as no message takes an own order away, a moving car
      has one strictly ahead. */
  lemma CoherentOverRuns(cs: seq<Car>, es: seq<Event>, n: nat)
    requires Run(cs, es) && Init(cs[0]) && n < |cs|
    ensures var c := cs[n];
            && c.motor == (if c.Moving() then c.Heading() else Stop)
            && (c.Moving() ==> c.Heading() != Stop && exists c' :: Step(c, Arrival, c'))
            && (c.doorTimer ==> !c.Moving())
            && (c.doorLamp ==> c.doorTimer && c.motor == Stop)
            && (c.view.localState.doorIsOpen ==> c.doorTimer)
            && (!c.Moving() && c.Heading() != Stop ==> c.doorTimer && c.doorLamp)
            && ((forall i :: 0 <= i < n ==> Keeps(cs[i], es[i])) && c.Moving() ==>
                  if c.Heading() == Up then c.view.OwnAbove(c.At()) else c.view.OwnBelow(c.At()))
  {
    InitInv(cs[0]);
    RunSound(cs, es, n);
    if cs[n].Moving() {
      assert Step(cs[n], Arrival, cs[n].FloorReached(cs[n].At() + cs[n].Heading().Delta()).0);
    }
    if forall i :: 0 <= i < n ==> Keeps(cs[i], es[i]) {
      RunWorkAhead(cs, es, n);
    }
  }

  /** Never parked with work: over a run, own orders always imply that the car is moving or its door
      timer is pending, and that it will not be left standing with them when the door closes, if and
      only if none of the events of the run is one of those that park a car. */
  lemma NeverParkedIff(cs: seq<Car>, es: seq<Event>)
    requires Run(cs, es) && Init(cs[0])
    ensures (forall n :: 0 <= n < |cs| ==> Awake(cs[n])) <==> (forall i :: 0 <= i < |es| ==> !Parks(cs[i], es[i]))
  {
    InitInv(cs[0]);
    forall n | 0 <= n < |cs| ensures Live(cs[n]) <==> Awake(cs[n]) {
      RunSound(cs, es, n);
      LiveIffAwake(cs[n]);
    }
    if forall i :: 0 <= i < |es| ==> !Parks(cs[i], es[i]) {
      forall n | 0 <= n < |cs| ensures Awake(cs[n]) {
        RunLive(cs, es, n);
      }
    } else {
      var i :| 0 <= i < |es| && Parks(cs[i], es[i]);
      if Live(cs[i]) {
        StepLiveIff(cs[i], es[i], cs[i + 1]);
        assert !Awake(cs[i + 1]);
      }
    }
  }

  /** A new car that gets its only order, for the floor at which it stands, from a restore reply. */
  lemma NewCarParksOnRestore(c: Car, reply: ElevState) returns (cs: seq<Car>, es: seq<Event>)
    requires Init(c) && reply.internalOrders == seq(N_FLOORS, f => f == c.At())
    ensures Run(cs, es) && cs[0] == c && es == [Restored(reply, c.view.externalOrders), DoorClosed]
    ensures Parked(cs[2]) && cs[2].view.Own(c.At(), Command)
  {
    InitInv(c);
    NothingOwn(c);
    var d := Restore(c, reply, c.view.externalOrders);
    cs, es := [c, d, d.DoorTimeout()], [Restored(reply, c.view.externalOrders), DoorClosed];
    RestoreCanPark(c, reply, c.view.externalOrders);
  }

  /** A new car for which an order awaits confirmation, when the confirmation names another one. */
  lemma NewCarParksOnConfirm(c: Car, f: Floor, h: Hall, a: IP) returns (cs: seq<Car>, es: seq<Event>)
    requires Init(c) && a != c.Ip()
    ensures Run(cs, es) && cs[0] == c && |es| == 2 && es[0].Protocol? && es[1] == Confirmed(f, h, a)
    ensures Parked(cs[2]) && cs[2].view.Own(f, h)
  {
    InitInv(c);
    NothingOwn(c);
    var m := Update(c.view.externalOrders, f, h, ElevOrder(Awaiting, c.Ip(), {}));
    var d := c.(view := c.view.(externalOrders := m));
    var p := d.Confirm(f, h, a).0;
    cs, es := [c, d, p], [Protocol(m), Confirmed(f, h, a)];
    assert p.view.Own(f, h) && p.view.OwnAt(f);
    assert p.view.HaveOrders();
  }

  /** After a message that leaves a standing car only an order for its own floor, the car stands with no
      timer left once its door has closed. */
  lemma MessageCanPark(c: Car, m: Matrix)
    requires Live(c) && NoNewOwn(c, m) && Parks(c, Protocol(m))
    ensures var c' := c.(view := c.view.(externalOrders := m)); c'.doorTimer && Parked(c'.DoorTimeout())
  {
    var c' := c.(view := c.view.(externalOrders := m));
    StepSound(c, Protocol(m), c');
    ProtocolParksIff(c, m);
    LiveIffAwake(c');
    assert c'.view.HaveOrders();
    assert c.view.OwnAt(c.At());
  }

  predicate OwnsExactly(c: Car, own: set<(Floor, Button)>) {
    forall f: Floor, b: Button :: c.view.Own(f, b) <==> (f, b) in own
  }

  /** A hall order is taken by a protocol message and its confirmation. */
  lemma TakesHall(c: Car, f: Floor, h: Hall, own: set<(Floor, Button)>) returns (d: Car, p: Car)
    requires Live(c) && OwnsExactly(c, own) && (f, h) !in own && !c.Moving()
    requires c.At() != f || (c.Heading() == Up && h == CallDown && c.view.OwnAbove(f))
    ensures Step(c, Protocol(d.view.externalOrders), d) && Step(d, Confirmed(f, h, c.Ip()), p)
    ensures Live(p) && OwnsExactly(p, own + {(f, h)}) && p.At() == c.At() && p.Heading() == c.Heading()
    ensures !p.Moving() && p.Ip() == c.Ip()
  {
    var m := Update(c.view.externalOrders, f, h, ElevOrder(Awaiting, c.Ip(), {}));
    d := c.(view := c.view.(externalOrders := m));
    p := d.Confirm(f, h, c.Ip()).0;
    assert forall g: Floor, b: Button :: d.view.Own(g, b) == c.view.Own(g, b);
    OwnMonotone(c.view, d.view, c.At());
    ProtocolParksIff(c, m);
    var taken := d.view.SetOrder(f, h, d.Slot(f, h).(status := UnderExecution));
    forall g: Floor, b: Button ensures taken.Own(g, b) <==> (g, b) in own + {(f, h)} {
      ConfirmOwn(d, f, h, c.Ip(), g, b);
    }
    OwnMonotone(c.view, taken, c.At());
    NextDirectionPointsAtWork(taken);
    assert p.view == taken;
    ConfirmParksIff(d, f, h, c.Ip());
  }

  /** The start of such a run: a car that was sent up to floor 2 for a call down stops for its own
      button at floor 1. */
  lemma StopsOnTheWay(c: Car) returns (c1: Car, c2: Car, c3: Car, c4: Car, c5: Car)
    requires N_FLOORS >= 3 && Init(c) && c.At() == 0
    ensures Step(c, Protocol(c1.view.externalOrders), c1) && Step(c1, Confirmed(2, CallDown, c.Ip()), c2)
    ensures Step(c2, Pressed(1), c3) && Step(c3, DoorClosed, c4) && Step(c4, Arrival, c5)
    ensures Live(c5) && OwnsExactly(c5, {(2, CallDown)}) && c5.At() == 1 && c5.Heading() == Up && !c5.Moving()
    ensures c5.Ip() == c.Ip()
  {
    hide Car.FloorReached;
    InitInv(c);
    NothingOwn(c);
    c1, c2 := TakesHall(c, 2, CallDown, {});
    c3 := c2.InternalButton(1);
    PressLive(c2, 1);
    assert OwnsExactly(c3, {(2, CallDown), (1, Command)});
    assert c3.view.Own(1, Command) && c3.view.OwnAt(1) && c3.view.OwnAbove(0);
    c4 := c3.DoorTimeout();
    DoorLive(c3);
    DoorFacts(c3);
    c5 := StopsAtOne(c4);
  }

  lemma StopsAtOne(c: Car) returns (d: Car)
    requires N_FLOORS >= 3 && Live(c) && OwnsExactly(c, {(2, CallDown), (1, Command)})
    requires c.At() == 0 && c.Moving() && c.Heading() == Up
    ensures Step(c, Arrival, d) && Live(d) && OwnsExactly(d, {(2, CallDown)})
    ensures d.At() == 1 && d.Heading() == Up && !d.Moving() && d.Ip() == c.Ip()
  {
    d := c.FloorReached(1).0;
    assert c.view.Own(1, Command) && c.StopsAt(1);
    ArriveLive(c);
    forall f: Floor, b: Button ensures d.view.Own(f, b) <==> (f, b) in {(2, CallDown)} {
      FloorReachedOwn(c, 1, f, b);
    }
  }

  /** There it takes a call down, and then loses its order above to a done or reassign message. */
  lemma NewCarParksOnMessage(c: Car) returns (cs: seq<Car>, es: seq<Event>)
    requires N_FLOORS >= 3 && Init(c) && c.At() == 0
    ensures Run(cs, es) && cs[0] == c && |es| == 9 && es[7].Protocol? && es[8] == DoorClosed
    ensures cs[7].view.Own(2, CallDown) && !cs[8].view.Own(2, CallDown) && Parks(cs[7], es[7])
    ensures Parked(cs[9]) && cs[9].view.Own(1, CallDown)
  {
    hide Step, Parked, Parks, Live, Init;
    var c1, c2, c3, c4, c5 := StopsOnTheWay(c);
    var c6, c7, c8, c9 := LosesOrderAbove(c5);
    cs := [c, c1, c2, c3, c4, c5, c6, c7, c8, c9];
    es := [Protocol(c1.view.externalOrders), Confirmed(2, CallDown, c.Ip()), Pressed(1), DoorClosed, Arrival,
           Protocol(c6.view.externalOrders), Confirmed(1, CallDown, c.Ip()), Protocol(c8.view.externalOrders),
           DoorClosed];
  }

  lemma LosesOrderAbove(c: Car) returns (c1: Car, c2: Car, c3: Car, c4: Car)
    requires N_FLOORS >= 3 && Live(c) && OwnsExactly(c, {(2, CallDown)})
    requires c.At() == 1 && c.Heading() == Up && !c.Moving()
    ensures Step(c, Protocol(c1.view.externalOrders), c1) && Step(c1, Confirmed(1, CallDown, c.Ip()), c2)
    ensures Step(c2, Protocol(c3.view.externalOrders), c3) && Step(c3, DoorClosed, c4)
    ensures c2.view.Own(2, CallDown) && !c3.view.Own(2, CallDown) && Parks(c2, Protocol(c3.view.externalOrders))
    ensures Parked(c4) && c4.view.Own(1, CallDown)
  {
    assert c.view.Own(2, CallDown) && c.view.OwnAt(2) && c.view.OwnAbove(1);
    c1, c2 := TakesHall(c, 1, CallDown, {(2, CallDown)});
    var m := Update(c2.view.externalOrders, 2, CallDown, NO_ORDER);
    c3 := c2.(view := c2.view.(externalOrders := m));
    assert forall f: Floor, b: Button :: c3.view.Own(f, b) <==> (f, b) == (1, CallDown);
    assert c3.view.OwnAt(1);
    MessageCanPark(c2, m);
    DoorFacts(c3);
    c4 := c3.DoorTimeout();
  }

  /** No stopping "just to be safe": a stop at a floor event clears an own order of that floor. */
  lemma NoPointlessStops(c: Car, c': Car)
    requires Sound(c) && WorkAhead(c) && Step(c, Arrival, c') && !c'.Moving()
    ensures exists b: Button :: c.view.Own(c'.At(), b) && !c'.view.Own(c'.At(), b)
  {
    var f := c.At() + c.Heading().Delta();
    var here := c.view.(localState := c.view.localState.(lastFloor := f));
    assert forall g: Floor :: here.OwnAt(g) == c.view.OwnAt(g);
    forall b: Button ensures c'.view.Own(f, b) == (c.view.Own(f, b) && !c.StopsAt(f)) {
      FloorReachedOwn(c, f, f, b);
    }
    assert c.view.OwnAt(f);
    var b := if c.view.Own(f, CallUp) then CallUp else if c.view.Own(f, CallDown) then CallDown else Command;
    assert c'.At() == f;
    assert c.view.Own(c'.At(), b) && !c'.view.Own(c'.At(), b);
  }

  /** An own order leaves only by a stop at its floor, or by a message that takes it away. */
  lemma LeavesOnlyByService(c: Car, e: Event, c': Car, t: Floor, b: Button)
    requires Step(c, e, c') && c.view.Own(t, b) && !c'.view.Own(t, b)
    ensures e.Arrival? || e.Protocol?
    ensures e.Arrival? ==> c'.At() == t && !c'.Moving() && c'.motor == Stop && c'.doorLamp
  {
    if e.Arrival? {
      FloorReachedOwn(c, c.At() + c.Heading().Delta(), t, b);
    } else if !e.Protocol? {
      OwnKept(c, e, c', t, b);
    }
  }
}
