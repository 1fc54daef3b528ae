/** The cost estimate against the car that takes the order: how far and with how many stops the
    controller really drives when no further orders come in. */
module Prediction {
  import opened Typedef
  import opened CostWalk
  import opened Cars
  import opened CarRun
  import opened Service

  // ---------------------------------------------------------------- the undisturbed car

  predicate Quiet(e: Event) { e.Arrival? || e.DoorClosed? }

  lemma DoorStartsMotor(c: Car, t: Floor, b: Button)
    requires Inv(c) && !c.Moving() && c.view.Own(t, b)
    ensures c.doorTimer
    ensures var c' := c.DoorTimeout();
            Inv(c') && c'.Moving() && c'.At() == c.At() && Rank(c', t, b) <= Rank(c, t, b)
            && forall g: Floor, d: Button :: c'.view.Own(g, d) == c.view.Own(g, d)
  {
    assert c.view.OwnAt(t);
    DoorInv(c);
    DoorKeepsRank(c, t, b);
    var c' := c.DoorTimeout();
    assert c'.view.Own(t, b);
    assert c'.view.OwnAt(t);
  }

  /** Arrivals until (t, b) is served, and stops before that one, if no order comes in. */
  function ServeCost(c: Car, t: Floor, b: Button): (nat, nat)
    requires Inv(c) && c.view.Own(t, b)
    decreases Rank(c, t, b), if c.Moving() then 0 else 1
  {
    if c.Moving() then
      ArriveInv(c);
      var c' := c.FloorReached(c.At() + c.Heading().Delta()).0;
      if !c'.view.Own(t, b) then
        (1, 0)
      else
        assert Step(c, Arrival, c');
        ArrivalLowersRank(c, c', t, b);
        var rest := ServeCost(c', t, b);
        (1 + rest.0, (if c'.Moving() then 0 else 1) + rest.1)
    else
      DoorStartsMotor(c, t, b);
      ServeCost(c.DoorTimeout(), t, b)
  }

  function Stops(cs: seq<Car>, es: seq<Event>): nat
    requires |cs| == |es| + 1
  {
    if es == [] then 0
    else (if es[0].Arrival? && !cs[1].Moving() then 1 else 0) + Stops(cs[1..], es[1..])
  }

  lemma ArrivalsFront(es: seq<Event>)
    requires es != []
    ensures Arrivals(es) == (if es[0].Arrival? then 1 else 0) + Arrivals(es[1..])
  {
    if |es| > 1 {
      ArrivalsFront(es[..|es| - 1]);
      assert es[..|es| - 1][1..] == es[1..][..|es| - 2];
    }
  }

  function NextFloor(c: Car): int { c.At() + c.Heading().Delta() }

  lemma StopsAtIff(c: Car)
    requires Inv(c) && c.Moving()
    ensures InShaft(NextFloor(c))
    ensures var y := NextFloor(c);
            c.StopsAt(y) <==>
            || c.view.Own(y, Command)
            || (c.Heading() == Up && (c.view.Own(y, CallUp) || !c.view.OwnAbove(y)))
            || (c.Heading() == Down && (c.view.Own(y, CallDown) || !c.view.OwnBelow(y)))
  {
    ArriveSound(c);
    var y := NextFloor(c);
    var here := c.view.(localState := c.view.localState.(lastFloor := y));
    assert forall g: Floor, k: Button :: here.Own(g, k) == c.view.Own(g, k);
    OwnMonotone(c.view, here, y);
    OwnMonotone(here, c.view, y);
  }

  /** The car drives, in direction `d` as long as there is work ahead. */
  predicate GoesOn(c: Car, d: Direction) {
    && c.Moving()
    && (d == Up ==> c.Heading() == if c.view.OwnAbove(c.At()) then Up else Down)
    && (d == Down ==> c.Heading() == if c.view.OwnBelow(c.At()) then Down else Up)
    && (d == Stop ==> c.Heading() == if c.view.OwnAbove(c.At()) then Up else Down)
  }

  /** The orders of `c'` are those of `c`, except that a stop has cleared floor `y`. */
  ghost predicate Cleared(c: Car, c': Car, y: Floor) {
    forall g: Floor, k: Button :: c'.view.Own(g, k) == (c.view.Own(g, k) && !(c.StopsAt(y) && g == y))
  }

  /** The door closes. */
  lemma DoorStep(c: Car, t: Floor, b: Button) returns (n: Car)
    requires Inv(c) && !c.Moving() && c.view.Own(t, b)
    ensures c.doorTimer && n == c.DoorTimeout() && Inv(n)
    ensures n.view.Own(t, b) && n.At() == c.At() && GoesOn(n, c.Heading())
    ensures forall g: Floor, k: Button :: n.view.Own(g, k) == c.view.Own(g, k)
    ensures Rank(n, t, b) <= Rank(c, t, b)
    ensures ServeCost(c, t, b) == ServeCost(n, t, b)
  {
    DoorStartsMotor(c, t, b);
    n := c.DoorTimeout();
    DoorFacts(c);
    OwnMonotone(n.view, c.view, c.At());
    OwnMonotone(c.view, n.view, c.At());
  }

  lemma ClearedAtNext(c: Car)
    requires Sound(c) && c.Moving() && InShaft(NextFloor(c))
    ensures Cleared(c, c.FloorReached(NextFloor(c)).0, NextFloor(c))
  {
    var y := NextFloor(c);
    forall g: Floor, k: Button
      ensures c.FloorReached(y).0.view.Own(g, k) == (c.view.Own(g, k) && !(c.StopsAt(y) && g == y))
    {
      FloorReachedOwn(c, y, g, k);
    }
  }

  lemma ArrivalFacts(c: Car, t: Floor, b: Button) returns (c': Car)
    requires Inv(c) && c.Moving() && c.view.Own(t, b)
    requires NextFloor(c) != t || !c.StopsAt(t)
    ensures InShaft(NextFloor(c)) && c' == c.FloorReached(NextFloor(c)).0
    ensures Inv(c') && c'.view.Own(t, b) && c'.At() == NextFloor(c) && c'.Heading() == c.Heading()
    ensures c'.Moving() == !c.StopsAt(NextFloor(c))
    ensures Rank(c', t, b) < Rank(c, t, b)
  {
    ArriveInv(c);
    c' := c.FloorReached(NextFloor(c)).0;
    assert Step(c, Arrival, c');
    FloorReachedOwn(c, NextFloor(c), t, b);
    ArrivalLowersRank(c, c', t, b);
  }

  /** A floor event that does not serve (t, b). */
  lemma ArrivalStep(c: Car, t: Floor, b: Button) returns (c': Car)
    requires Inv(c) && c.Moving() && c.view.Own(t, b)
    requires NextFloor(c) != t || !c.StopsAt(t)
    ensures InShaft(NextFloor(c)) && c' == c.FloorReached(NextFloor(c)).0
    ensures Inv(c') && c'.view.Own(t, b) && c'.At() == NextFloor(c) && c'.Heading() == c.Heading()
    ensures c'.Moving() == !c.StopsAt(NextFloor(c))
    ensures Rank(c', t, b) < Rank(c, t, b)
    ensures ServeCost(c, t, b) == (1 + ServeCost(c', t, b).0, (if c'.Moving() then 0 else 1) + ServeCost(c', t, b).1)
  {
    c' := ArrivalFacts(c, t, b);
  }

  /** A floor event that does. */
  lemma ServedNext(c: Car, t: Floor, b: Button)
    requires Inv(c) && c.Moving() && c.view.Own(t, b)
    requires NextFloor(c) == t && c.StopsAt(t)
    ensures ServeCost(c, t, b) == (1, 0)
    ensures !c.FloorReached(t).0.view.Own(t, b) && !c.FloorReached(t).0.Moving()
  {
    FloorReachedOwn(c, t, t, b);
  }

  lemma MovingGoesOn(c: Car)
    requires Inv(c) && c.Moving()
    ensures GoesOn(c, c.Heading())
  {
  }

  /** A moving car that does not serve (t, b) at the next floor: what it clears there, how it goes
      on, its stop included, and what that adds to the cost. */
  lemma Onward(c: Car, t: Floor, b: Button) returns (n: Car)
    requires Inv(c) && c.Moving() && c.view.Own(t, b)
    requires NextFloor(c) != t || !c.StopsAt(t)
    ensures InShaft(NextFloor(c)) && Cleared(c, n, NextFloor(c))
    ensures Inv(n) && n.At() == NextFloor(c) && GoesOn(n, c.Heading()) && n.view.Own(t, b)
    ensures Rank(n, t, b) < Rank(c, t, b)
    ensures ServeCost(c, t, b)
            == (1 + ServeCost(n, t, b).0, (if c.StopsAt(NextFloor(c)) then 1 else 0) + ServeCost(n, t, b).1)
  {
    hide ServeCost;
    var c' := ArrivalStep(c, t, b);
    ClearedAtNext(c);
    if c'.Moving() {
      MovingGoesOn(c');
      n := c';
    } else {
      n := DoorStep(c', t, b);
    }
  }

  lemma ServeCostStep(c: Car, e: Event, c': Car, t: Floor, b: Button)
    requires Inv(c) && Inv(c') && Step(c, e, c') && Quiet(e) && c.view.Own(t, b)
    ensures e.DoorClosed? <==> !c.Moving()
    ensures !c'.view.Own(t, b) ==> ServeCost(c, t, b) == (1, 0) && e.Arrival? && !c'.Moving()
    ensures c'.view.Own(t, b) ==>
              ServeCost(c, t, b) == ((if e.Arrival? then 1 else 0) + ServeCost(c', t, b).0,
                                     (if e.Arrival? && !c'.Moving() then 1 else 0) + ServeCost(c', t, b).1)
  {
    hide ServeCost, Rank, Car.FloorReached, Car.StopsAt;
    if e.DoorClosed? {
      var _ := DoorStep(c, t, b);
    } else if NextFloor(c) == t && c.StopsAt(t) {
      ServedNext(c, t, b);
    } else {
      var _ := ArrivalStep(c, t, b);
    }
  }

  /** An undisturbed run up to the stop that serves (t, b). */
  ghost predicate QuietRun(cs: seq<Car>, es: seq<Event>, t: Floor, b: Button)
    decreases |es|
  {
    && |cs| == |es| + 1 && es != []
    && Step(cs[0], es[0], cs[1]) && Quiet(es[0]) && cs[0].view.Own(t, b)
    && (cs[1].view.Own(t, b) <==> |es| > 1)
    && (|es| > 1 ==> QuietRun(cs[1..], es[1..], t, b))
  }

  /** `ServeCost` is what any undisturbed run pays up to the stop that serves the order; that stop
      itself is not an intermediate one. */
  lemma {:induction false} QuietRunCost(cs: seq<Car>, es: seq<Event>, t: Floor, b: Button)
    requires QuietRun(cs, es, t, b) && Inv(cs[0])
    ensures Arrivals(es) == ServeCost(cs[0], t, b).0
    ensures Stops(cs, es) == ServeCost(cs[0], t, b).1 + 1
    decreases |es|
  {
    var c, c' := cs[0], cs[1];
    if es[0].Arrival? { ArriveInv(c); } else { DoorInv(c); }
    ArrivalsFront(es);
    ServeCostStep(c, es[0], c', t, b);
    if |es| > 1 {
      QuietRunCost(cs[1..], es[1..], t, b);
    } else {
      assert Stops(cs[1..], es[1..]) == 0;
    }
  }

  // ---------------------------------------------------------------- simulation by the walk

  predicate Leq(p: (int, int), q: (int, int)) { p.0 <= q.0 && p.1 <= q.1 }

  lemma {:induction false} CountGrows(m: Flags, lo: int, mid: int, hi: int)
    requires 0 <= lo && mid <= hi <= N_FLOORS
    ensures Count(m, lo, mid) <= Count(m, lo, hi)
    decreases mid - lo
  {
    if lo >= mid {
    } else {
      CountGrows(m, lo + 1, mid, hi);
    }
  }

  /** Driving on to the end of the shaft before turning back to the target never costs less. */
  lemma TurnBackUp(m: Flags, x: Floor, t: Floor, b: Button)
    requires t < x < N_FLOORS - 1 || (t == x && 0 < x < N_FLOORS - 1 && b == CallUp && Below(m, x))
    ensures Leq(Walk(m, Down, x, t, b), Walk(m, Up, x, t, b))
  {
    WalkClosedForm(m, Up, x, t, b);
    WalkClosedForm(m, Down, x, t, b);
    CountGrows(m, t + 1, x, N_FLOORS - 1);
    CountGrows(m, 0, x, N_FLOORS - 1);
  }

  lemma {:induction false} CountTail(m: Flags, lo: int, mid: int, hi: int)
    requires 0 <= lo <= mid && hi <= N_FLOORS
    ensures Count(m, mid, hi) <= Count(m, lo, hi)
    decreases mid - lo
  {
    if lo >= mid {
    } else {
      CountTail(m, lo + 1, mid, hi);
    }
  }

  lemma TurnBackDown(m: Flags, x: Floor, t: Floor, b: Button)
    requires 0 < x < t || (t == x && 0 < x < N_FLOORS - 1 && b == CallDown && Above(m, x))
    ensures Leq(Walk(m, Up, x, t, b), Walk(m, Down, x, t, b))
  {
    WalkClosedForm(m, Up, x, t, b);
    WalkClosedForm(m, Down, x, t, b);
    CountTail(m, 1, x + 1, t);
    CountTail(m, 1, x + 1, N_FLOORS);
  }

  /** The marks of an earlier state cover the orders the car has now, the target aside. */
  predicate Covers(m: Flags, c: Car, t: Floor) {
    forall g: Floor :: c.view.OwnAt(g) ==> m[g] || g == t
  }

  /** If the car reaches the target and drives on, so does the walk. */
  lemma WalkPassesToo(c: Car, m: Flags, t: Floor, b: Button)
    requires Inv(c) && c.Moving() && c.view.Own(t, b) && Covers(m, c, t)
    requires t == NextFloor(c) && !c.StopsAt(t)
    ensures !Arrived(m, c.Heading(), t, b)
  {
    StopsAtIff(c);
    if c.Heading() == Up {
      var g :| t < g < N_FLOORS && c.view.OwnAt(g);
      assert m[g];
    } else {
      var g :| 0 <= g < t && c.view.OwnAt(g);
      assert m[g];
    }
  }

  lemma StopIsMarked(c: Car, m: Flags, t: Floor)
    requires Inv(c) && c.Moving() && Covers(m, c, t)
    requires InShaft(NextFloor(c)) && c.StopsAt(NextFloor(c)) && NextFloor(c) != t
    ensures m[NextFloor(c)]
  {
    StopsAtIff(c);
    assert c.view.OwnAt(NextFloor(c));
  }

  lemma ClearedCovers(c: Car, n: Car, y: Floor, m: Flags, t: Floor)
    requires Cleared(c, n, y) && Covers(m, c, t)
    ensures Covers(m, n, t)
  {
    assert forall g: Floor :: n.view.OwnAt(g) ==> c.view.OwnAt(g);
  }

  /** Turning where the car turns costs the walk no more than bouncing at the end of the shaft. */
  lemma TurnsOnlyForGood(c: Car, n: Car, m: Flags, t: Floor, b: Button)
    requires Inv(c) && c.Moving() && InShaft(NextFloor(c)) && Cleared(c, n, NextFloor(c))
    requires Inv(n) && n.At() == NextFloor(c) && GoesOn(n, c.Heading()) && n.view.Own(t, b)
    ensures InShaft(n.At() + n.Heading().Delta())
    ensures Leq(Walk(m, n.Heading(), n.At(), t, b), Walk(m, Bounce(c.Heading(), n.At()), n.At(), t, b))
  {
    StopsAtIff(c);
    assert n.view.OwnAt(t);
    if n.Heading() != Bounce(c.Heading(), n.At()) {
      assert c.StopsAt(n.At()) by {
        if !c.StopsAt(n.At()) {
          OwnMonotone(c.view, n.view, n.At());
        }
      }
      if c.Heading() == Up { TurnBackUp(m, n.At(), t, b); } else { TurnBackDown(m, n.At(), t, b); }
    }
  }

  /** The walk, started at the car's floor in the car's direction, costs at least what the car pays. */
  lemma {:induction false} WalkBoundsRun(c: Car, m: Flags, t: Floor, b: Button)
    requires Inv(c) && c.Moving() && c.view.Own(t, b) && Covers(m, c, t)
    ensures InShaft(NextFloor(c))
    ensures Leq(ServeCost(c, t, b), Walk(m, c.Heading(), c.At(), t, b))
    decreases Rank(c, t, b)
  {
    hide ServeCost;
    var y := NextFloor(c);
    if y == t && c.StopsAt(t) {
      ServedNext(c, t, b);
    } else {
      var n := Onward(c, t, b);
      ClearedCovers(c, n, y, m, t);
      WalkBoundsRun(n, m, t, b);
      TurnsOnlyForGood(c, n, m, t, b);
      if y == t { WalkPassesToo(c, m, t, b); } else if c.StopsAt(y) { StopIsMarked(c, m, t); }
    }
  }

  // ---------------------------------------------------------------- accepting a new order

  /** The top floor has no button up and the bottom floor none down. */
  predicate Physical(t: Floor, b: Button) {
    !(t == N_FLOORS - 1 && b == CallUp) && !(t == 0 && b == CallDown)
  }

  /** A new order that is accepted at once: an internal one by its button, a hall order by a
      handshake that ends in its confirmation for this car. */
  function Accept(c: Car, t: Floor, b: Button): Car {
    if b == Command then c.InternalButton(t)
    else c.(view := c.view.SetOrder(t, b, ElevOrder(Awaiting, c.Ip(), {}))).Confirm(t, b, c.Ip()).0
  }

  predicate AcceptedAs(c: Car, a: Car, t: Floor, b: Button) {
    && Inv(a) && a.At() == c.At() && a.Moving() == c.Moving() && a.Heading() == c.Heading()
    && (forall g: Floor, k: Button :: c.view.Own(g, k) ==> a.view.Own(g, k))
    && (forall g: Floor, k: Button :: a.view.Own(g, k) ==> c.view.Own(g, k) || (g == t && k == b))
    && (c.Moving() || c.At() != t ==> a.view.Own(t, b))
    && (a.view.Own(t, b) && c.At() == t && !c.Moving() ==> c.Heading() != Stop && b != Command)
  }

  lemma AcceptInternal(c: Car, t: Floor)
    requires Inv(c) && !c.view.Own(t, Command)
    ensures AcceptedAs(c, c.InternalButton(t), t, Command)
  {
    StepInv(c, Pressed(t), c.InternalButton(t));
  }

  lemma AcceptHall(c: Car, t: Floor, h: Hall)
    requires Inv(c) && c.Slot(t, h).status == Awaiting && c.Slot(t, h).assignedTo == c.Ip()
    ensures AcceptedAs(c, c.Confirm(t, h, c.Ip()).0, t, h)
  {
    var a := c.Confirm(t, h, c.Ip()).0;
    StepInv(c, Confirmed(t, h, c.Ip()), a);
    forall g: Floor, k: Button
      ensures c.view.Own(g, k) ==> a.view.Own(g, k)
      ensures a.view.Own(g, k) ==> c.view.Own(g, k) || (g == t && k == h)
    {
      ConfirmOwn(c, t, h, c.Ip(), g, k);
    }
    ConfirmOwn(c, t, h, c.Ip(), t, h);
  }

  lemma AcceptFacts(c: Car, t: Floor, b: Button)
    requires Inv(c) && !c.view.Own(t, b)
    ensures AcceptedAs(c, Accept(c, t, b), t, b)
  {
    if b == Command {
      AcceptInternal(c, t);
    } else {
      var m := Update(c.view.externalOrders, t, b, ElevOrder(Awaiting, c.Ip(), {}));
      var waiting := c.(view := c.view.(externalOrders := m));
      assert forall g: Floor, k: Button :: waiting.view.Own(g, k) == c.view.Own(g, k);
      SameOwnInv(c, m);
      AcceptHall(waiting, t, b);
    }
  }

  lemma AcceptCovers(c: Car, t: Floor, b: Button)
    requires Inv(c) && !c.view.Own(t, b)
    ensures Covers(Marks(c.view), Accept(c, t, b), t)
    ensures c.view.OwnAbove(c.At()) ==> Accept(c, t, b).view.OwnAbove(c.At())
    ensures c.view.OwnBelow(c.At()) ==> Accept(c, t, b).view.OwnBelow(c.At())
    ensures Accept(c, t, b).view.OwnAbove(c.At()) ==> c.view.OwnAbove(c.At()) || t > c.At()
    ensures Accept(c, t, b).view.OwnBelow(c.At()) ==> c.view.OwnBelow(c.At()) || t < c.At()
  {
    AcceptFacts(c, t, b);
    var a := Accept(c, t, b);
    OwnMonotone(c.view, a.view, c.At());
    forall g: Floor ensures a.view.OwnAt(g) ==> c.view.OwnAt(g) || g == t {
    }
    if a.view.OwnAbove(c.At()) && t <= c.At() {
      var g :| c.At() < g < N_FLOORS && a.view.OwnAt(g);
      assert c.view.OwnAt(g);
    }
    if a.view.OwnBelow(c.At()) && t >= c.At() {
      var g :| 0 <= g < c.At() && a.view.OwnAt(g);
      assert c.view.OwnAt(g);
    }
  }

  /** An idle car with orders above that is asked to go below. */
  predicate SentAway(c: Car, t: Floor) {
    c.Heading() == Stop && c.view.HaveOrdersAbove() && t < c.At()
  }

  /** The direction in which the car with the new order leaves. */
  function Leaves(a: Car): Direction {
    if a.Moving() then a.Heading() else a.DoorTimeout().Heading()
  }

  lemma LeavesTowards(a: Car, t: Floor, b: Button)
    requires Inv(a) && a.view.Own(t, b)
    ensures a.Heading() == Up && a.view.OwnAbove(a.At()) ==> Leaves(a) == Up
    ensures a.Heading() == Down && a.view.OwnBelow(a.At()) ==> Leaves(a) == Down
    ensures a.Heading() == Stop ==> Leaves(a) == if a.view.OwnAbove(a.At()) then Up else Down
    ensures Leaves(a) == Up ==> a.view.OwnAbove(a.At())
    ensures Leaves(a) == Down ==> a.view.OwnBelow(a.At())
    ensures Leaves(a) != Stop
  {
    if !a.Moving() {
      DoorStartsMotor(a, t, b);
      var closed := a.view.(localState := a.view.localState.(doorIsOpen := false));
      assert forall g: Floor, d: Button :: closed.Own(g, d) == a.view.Own(g, d);
      OwnMonotone(a.view, closed, a.At());
      OwnMonotone(closed, a.view, a.At());
      assert closed.OwnAt(t);
      NextDirectionPointsAtWork(closed);
      assert a.DoorTimeout().Heading() == closed.GetNextDirection();
    }
  }

  /** The walk guesses the car's first direction right for every other floor, except exactly when
      the car is sent away. */
  lemma FirstLegAgrees(c: Car, t: Floor, b: Button)
    requires Inv(c) && !c.view.Own(t, b) && t != c.At()
    ensures Leaves(Accept(c, t, b)) == FirstLeg(c.view, t) <==> !SentAway(c, t)
  {
    AcceptFacts(c, t, b);
    AcceptCovers(c, t, b);
    var a := Accept(c, t, b);
    assert a.view.OwnAt(t);
    assert t > c.At() ==> a.view.OwnAbove(c.At());
    assert t < c.At() ==> a.view.OwnBelow(c.At());
    LeavesTowards(a, t, b);
  }

  /** A hall order for the floor at which the car is, and which is not served at once: the walk
      starts in the car's direction, which may not be the one in which the car leaves. */
  lemma OrderAtOwnFloor(c: Car, b: Button)
    requires Inv(c) && !c.view.Own(c.At(), b) && Physical(c.At(), b)
    requires Accept(c, c.At(), b).view.Own(c.At(), b)
    ensures var d := Leaves(Accept(c, c.At(), b));
            && c.Heading() != Stop && InShaft(c.At() + c.Heading().Delta())
            && d != Stop && InShaft(c.At() + d.Delta())
            && Leq(Walk(Marks(c.view), d, c.At(), c.At(), b), Walk(Marks(c.view), c.Heading(), c.At(), c.At(), b))
  {
    var t := c.At();
    AcceptFacts(c, t, b);
    AcceptCovers(c, t, b);
    MarksAgree(c.view, t);
    var a := Accept(c, t, b);
    LeavesTowards(a, t, b);
    if Leaves(a) != c.Heading() {
      if c.Heading() == Up { TurnBackUp(Marks(c.view), t, t, b); } else { TurnBackDown(Marks(c.view), t, t, b); }
    }
  }

  /** The estimate bounds the real run. From any state that satisfies the invariant, a new order it accepts at
      once and alone is served after at most the floors and the intermediate stops that
      `LengthToOrder` reported beforehand, unless the car is sent away. */
  lemma EstimateBoundsRun(c: Car, t: Floor, b: Button)
    requires Inv(c) && !c.view.Own(t, b) && Physical(t, b) && !SentAway(c, t)
    ensures Inv(Accept(c, t, b))
    ensures Accept(c, t, b).view.Own(t, b) ==> Leq(ServeCost(Accept(c, t, b), t, b), Estimate(c.view, t, b))
  {
    AcceptFacts(c, t, b);
    AcceptCovers(c, t, b);
    var a := Accept(c, t, b);
    if a.view.Own(t, b) {
      var m := Marks(c.view);
      var d := Leaves(a);
      RunAgainstWalk(a, m, t, b);
      if t == c.At() {
        OrderAtOwnFloor(c, b);
      } else {
        FirstLegAgrees(c, t, b);
      }
    }
  }

  lemma RunAgainstWalk(a: Car, m: Flags, t: Floor, b: Button)
    requires Inv(a) && a.view.Own(t, b) && Covers(m, a, t)
    ensures Leaves(a) != Stop && InShaft(a.At() + Leaves(a).Delta())
    ensures Leq(ServeCost(a, t, b), Walk(m, Leaves(a), a.At(), t, b))
  {
    if a.Moving() {
      WalkBoundsRun(a, m, t, b);
    } else {
      DoorStartsMotor(a, t, b);
      var c := a.DoorTimeout();
      assert forall g: Floor :: c.view.OwnAt(g) == a.view.OwnAt(g);
      WalkBoundsRun(c, m, t, b);
    }
  }

  /** There is such a run for every own order. */
  lemma {:induction false} QuietRunExists(c: Car, t: Floor, b: Button) returns (cs: seq<Car>, es: seq<Event>)
    requires Inv(c) && c.view.Own(t, b)
    ensures QuietRun(cs, es, t, b) && cs[0] == c
    decreases Rank(c, t, b), if c.Moving() then 0 else 1
  {
    var e, c' := Arrival, c;
    if c.Moving() {
      ArriveInv(c);
      c' := c.FloorReached(c.At() + c.Heading().Delta()).0;
    } else {
      DoorStartsMotor(c, t, b);
      e, c' := DoorClosed, c.DoorTimeout();
    }
    assert Step(c, e, c');
    if c'.view.Own(t, b) {
      if e.Arrival? { ArrivalLowersRank(c, c', t, b); }
      var cs', es' := QuietRunExists(c', t, b);
      cs, es := [c] + cs', [e] + es';
      assert cs[1..] == cs' && es[1..] == es';
    } else {
      cs, es := [c, c'], [e];
    }
  }
}
