/** The cost walk `LengthToOrder` of src/typedef/typedef.go: a virtual car bounces between the
    ends of the shaft until it would stop at the target. */
module CostWalk {
  import opened Typedef

  /** Floors passed from `x` in direction `d` until a car that always runs to the end of the
      shaft meets the button (t, b) travelling the way that serves it. */
  function Sweep(d: Direction, x: Floor, t: Floor, b: Button): nat
    requires d != Stop
  {
    if d == Up then
      if t > x then
        if b != CallDown then t - x else (N_FLOORS - 1 - x) + (N_FLOORS - 1 - t)
      else
        if b != CallUp then (N_FLOORS - 1 - x) + (N_FLOORS - 1 - t) else (N_FLOORS - 1 - x) + (N_FLOORS - 1) + t
    else
      if t < x then
        if b != CallUp then x - t else x + t
      else
        if b != CallDown then x + t else x + (N_FLOORS - 1) + (N_FLOORS - 1 - t)
  }

  /** The floors that hold an order of this car: all that the walk reads of the orders. */
  function Marks(s: ExtendedElevState): (m: Flags)
    ensures forall f: Floor :: m[f] == s.OwnAt(f)
  {
    seq(N_FLOORS, f requires 0 <= f < N_FLOORS => s.OwnAt(f))
  }

  predicate Above(m: Flags, f: Floor) {
    exists g: int :: f < g < N_FLOORS && m[g]
  }

  predicate Below(m: Flags, f: Floor) {
    exists g: int :: 0 <= g < f && m[g]
  }

  lemma MarksAgree(s: ExtendedElevState, f: Floor)
    ensures Above(Marks(s), f) == s.OwnAbove(f) == s.CreateFakeElev(f).HaveOrdersAbove()
    ensures Below(Marks(s), f) == s.OwnBelow(f) == s.CreateFakeElev(f).HaveOrdersBelow()
  {
    assert forall g: Floor :: s.CreateFakeElev(f).OwnAt(g) == s.OwnAt(g) == Marks(s)[g];
  }

  /** The conditions under which the walk ends on reaching the target floor. */
  predicate Arrived(m: Flags, d: Direction, t: Floor, b: Button) {
    || t == 0
    || t == N_FLOORS - 1
    || (d == Down && b == CallDown)
    || (d == Up && b == CallUp)
    || b == Command
    || (d == Up && !Above(m, t))
    || (d == Down && !Below(m, t))
  }

  function Bounce(d: Direction, y: Floor): Direction {
    if y == N_FLOORS - 1 then Down else if y == 0 then Up else d
  }

  /** Floors and stops of the walk that is at floor `x` and is about to move in direction `d`. */
  function Walk(m: Flags, d: Direction, x: Floor, t: Floor, b: Button): (nat, nat)
    requires d != Stop && InShaft(x + d.Delta())
    decreases Sweep(d, x, t, b)
  {
    var y := x + d.Delta();
    if y == t && Arrived(m, d, t, b) then
      (1, 0)
    else
      var rest := Walk(m, Bounce(d, y), y, t, b);
      (1 + rest.0, (if m[y] then 1 else 0) + rest.1)
  }

  /** The direction the walk starts in (typedef.go:305-313). */
  function FirstLeg(s: ExtendedElevState, t: Floor): Direction {
    var dir, x := s.localState.direction, s.localState.lastFloor;
    if t > x then
      if !(dir == Down && s.HaveOrdersBelow()) then Up else dir
    else if t < x then
      if !(dir == Up && s.HaveOrdersAbove()) then Down else dir
    else
      dir
  }

  predicate AlreadyThere(s: ExtendedElevState, t: Floor) {
    s.localState.IsIdle() && s.localState.lastFloor == t
  }

  /** The one family of inputs on which the Go loop never ends. */
  predicate Diverges(s: ExtendedElevState, t: Floor, b: Button) {
    && s.localState.direction == Stop
    && s.localState.isMoving
    && s.localState.lastFloor == t
    && 0 < t < N_FLOORS - 1
    && b != Command
  }

  function Estimate(s: ExtendedElevState, t: Floor, b: Button): (nat, nat)
    requires !Diverges(s, t, b)
  {
    if AlreadyThere(s, t) then (0, 0)
    else Remaining(Marks(s), FirstLeg(s, t), s.localState.lastFloor, t, b)
  }

  /** The walk from floor `x`, with the two degenerate first steps of the loop: a standing start
      that is at its target, and a first step out of the shaft. */
  function Remaining(m: Flags, d: Direction, x: Floor, t: Floor, b: Button): (nat, nat) {
    if d == Stop then (1, 0)
    else if !InShaft(x + d.Delta()) then (0, 0)
    else Walk(m, d, x, t, b)
  }

  // ---------------------------------------------------------------- closed form

  /** Number of floors f with lo <= f < hi that hold an order of this car. */
  function Count(m: Flags, lo: int, hi: int): nat
    requires 0 <= lo && hi <= N_FLOORS
    decreases hi - lo
  {
    if lo >= hi then 0 else (if m[lo] then 1 else 0) + Count(m, lo + 1, hi)
  }

  lemma {:induction false} CountLast(m: Flags, lo: int, hi: int)
    requires 0 <= lo <= hi < N_FLOORS
    ensures Count(m, lo, hi + 1) == Count(m, lo, hi) + if m[hi] then 1 else 0
    decreases hi - lo
  {
    if lo >= hi {
    } else {
      CountLast(m, lo + 1, hi);
    }
  }

  predicate AnswersGoingUp(m: Flags, t: Floor, b: Button) {
    t == N_FLOORS - 1 || b != CallDown || !Above(m, t)
  }

  predicate AnswersGoingDown(m: Flags, t: Floor, b: Button) {
    t == 0 || b != CallUp || !Below(m, t)
  }

  /** Sweep to the target; or to one end and back to it; or to one end, to the other, and back. */
  function ClosedForm(m: Flags, d: Direction, x: Floor, t: Floor, b: Button): (nat, nat)
    requires d != Stop
  {
    var top := N_FLOORS - 1;
    if d == Up then
      if t > x && AnswersGoingUp(m, t, b) then
        (t - x, Count(m, x + 1, t))
      else if t > x || AnswersGoingDown(m, t, b) then
        ((top - x) + (top - t), Count(m, x + 1, top + 1) + Count(m, t + 1, top))
      else
        ((top - x) + top + t, Count(m, x + 1, top + 1) + Count(m, 0, top) + Count(m, 1, t))
    else
      if t < x && AnswersGoingDown(m, t, b) then
        (x - t, Count(m, t + 1, x))
      else if t < x || AnswersGoingUp(m, t, b) then
        (x + t, Count(m, 0, x) + Count(m, 1, t))
      else
        (x + top + (top - t), Count(m, 0, x) + Count(m, 1, top + 1) + Count(m, t + 1, top))
  }

  lemma ClosedFormStepUp(m: Flags, x: Floor, t: Floor, b: Button)
    requires InShaft(x + 1)
    requires !(x + 1 == t && Arrived(m, Up, t, b))
    ensures var rest := ClosedForm(m, Bounce(Up, x + 1), x + 1, t, b);
            ClosedForm(m, Up, x, t, b) == (1 + rest.0, (if m[x + 1] then 1 else 0) + rest.1)
  {
  }

  lemma ClosedFormStepDown(m: Flags, x: Floor, t: Floor, b: Button)
    requires InShaft(x - 1)
    requires !(x - 1 == t && Arrived(m, Down, t, b))
    ensures var rest := ClosedForm(m, Bounce(Down, x - 1), x - 1, t, b);
            ClosedForm(m, Down, x, t, b) == (1 + rest.0, (if m[x - 1] then 1 else 0) + rest.1)
  {
    CountLast(m, 0, x - 1);
    if t + 1 <= x - 1 {
      CountLast(m, t + 1, x - 1);
    }
  }

  lemma ClosedFormEnd(m: Flags, d: Direction, x: Floor, t: Floor, b: Button)
    requires d != Stop && x + d.Delta() == t && Arrived(m, d, t, b)
    ensures ClosedForm(m, d, x, t, b) == (1, 0)
  {
  }

  /** The bouncing walk has a closed form in at most three straight legs. */
  lemma WalkClosedForm(m: Flags, d: Direction, x: Floor, t: Floor, b: Button)
    requires d != Stop && InShaft(x + d.Delta())
    ensures Walk(m, d, x, t, b) == ClosedForm(m, d, x, t, b)
    decreases Sweep(d, x, t, b), 1
  {
    if d == Up { WalkUpClosedForm(m, x, t, b); } else { WalkDownClosedForm(m, x, t, b); }
  }

  lemma {:induction false} WalkUpClosedForm(m: Flags, x: Floor, t: Floor, b: Button)
    requires InShaft(x + 1)
    ensures Walk(m, Up, x, t, b) == ClosedForm(m, Up, x, t, b)
    decreases Sweep(Up, x, t, b), 0
  {
    hide ClosedForm, Sweep, Arrived, Count, Walk;
    if x + 1 == t && Arrived(m, Up, t, b) {
      LastStep(m, Up, x, t, b);
      ClosedFormEnd(m, Up, x, t, b);
    } else {
      var _ := AfterStep(m, Up, x, t, b);
      SweepFalls(m, Up, x, t, b);
      WalkClosedForm(m, Bounce(Up, x + 1), x + 1, t, b);
      ClosedFormStepUp(m, x, t, b);
    }
  }

  lemma {:induction false} WalkDownClosedForm(m: Flags, x: Floor, t: Floor, b: Button)
    requires InShaft(x - 1)
    ensures Walk(m, Down, x, t, b) == ClosedForm(m, Down, x, t, b)
    decreases Sweep(Down, x, t, b), 0
  {
    hide ClosedForm, Sweep, Arrived, Count, Walk;
    if x - 1 == t && Arrived(m, Down, t, b) {
      LastStep(m, Down, x, t, b);
      ClosedFormEnd(m, Down, x, t, b);
    } else {
      var _ := AfterStep(m, Down, x, t, b);
      SweepFalls(m, Down, x, t, b);
      WalkClosedForm(m, Bounce(Down, x - 1), x - 1, t, b);
      ClosedFormStepDown(m, x, t, b);
    }
  }

  /** So the estimate is read off the first leg: the legs driven, and on each of them the floors
      that hold an own order, the final visit to the target not counted. */
  lemma EstimateClosedForm(s: ExtendedElevState, t: Floor, b: Button)
    requires s.localState.Walkable()
    ensures Estimate(s, t, b) ==
            if AlreadyThere(s, t) || !InShaft(s.localState.lastFloor + FirstLeg(s, t).Delta()) then (0, 0)
            else ClosedForm(Marks(s), FirstLeg(s, t), s.localState.lastFloor, t, b)
  {
    var d, x := FirstLeg(s, t), s.localState.lastFloor;
    if !AlreadyThere(s, t) && InShaft(x + d.Delta()) {
      WalkClosedForm(Marks(s), d, x, t, b);
    }
  }

  /** `LengthToOrder` never reports more than two full shaft lengths, nor more stops than floors. */
  lemma EstimateBounds(s: ExtendedElevState, t: Floor, b: Button)
    requires !Diverges(s, t, b)
    ensures Estimate(s, t, b).0 <= 2 * (N_FLOORS - 1)
    ensures Estimate(s, t, b).1 <= Estimate(s, t, b).0
  {
    var d, x := FirstLeg(s, t), s.localState.lastFloor;
    if !AlreadyThere(s, t) && d != Stop && InShaft(x + d.Delta()) {
      WalkBounds(Marks(s), d, x, t, b);
    }
  }

  lemma {:induction false} WalkBounds(m: Flags, d: Direction, x: Floor, t: Floor, b: Button)
    requires d != Stop && InShaft(x + d.Delta())
    ensures Walk(m, d, x, t, b).0 <= Sweep(d, x, t, b) <= 2 * (N_FLOORS - 1)
    ensures Walk(m, d, x, t, b).1 < Walk(m, d, x, t, b).0
    decreases Sweep(d, x, t, b)
  {
    var y := x + d.Delta();
    if !(y == t && Arrived(m, d, t, b)) {
      WalkBounds(m, Bounce(d, y), y, t, b);
    }
  }

  lemma SweepFalls(m: Flags, d: Direction, x: Floor, t: Floor, b: Button)
    requires d != Stop && InShaft(x + d.Delta())
    requires !(x + d.Delta() == t && Arrived(m, d, t, b))
    ensures Sweep(Bounce(d, x + d.Delta()), x + d.Delta(), t, b) < Sweep(d, x, t, b)
  {
  }

  lemma LastStep(m: Flags, d: Direction, x: Floor, t: Floor, b: Button)
    requires x + d.Delta() == t && Arrived(m, d, t, b)
    ensures Remaining(m, d, x, t, b) == (1, 0)
  {
  }

  /** What is left of the walk after one step that does not end it. */
  lemma AfterStep(m: Flags, d: Direction, x: Floor, t: Floor, b: Button) returns (rest: (nat, nat))
    requires InShaft(x + d.Delta())
    requires !(x + d.Delta() == t && Arrived(m, d, t, b))
    requires d != Stop
    ensures rest == Remaining(m, Bounce(d, x + d.Delta()), x + d.Delta(), t, b)
    ensures Remaining(m, d, x, t, b) == (1 + rest.0, (if m[x + d.Delta()] then 1 else 0) + rest.1)
  {
    rest := Walk(m, Bounce(d, x + d.Delta()), x + d.Delta(), t, b);
  }

  // ---------------------------------------------------------------- the Go loop, step by step

  datatype Loop = Running(floor: int, dir: Direction, floors: nat, stops: nat)
                | Returned(floors: nat, stops: nat)

  /** The state in which the for statement is first reached, typedef.go:295-315. */
  function Start(s: ExtendedElevState, t: Floor): Loop {
    if AlreadyThere(s, t) then Returned(0, 0)
    else Running(s.localState.lastFloor + FirstLeg(s, t).Delta(), FirstLeg(s, t), 0, 0)
  }

  /** One test of the guard and one execution of the body, typedef.go:315-350. */
  function Iterate(s: ExtendedElevState, t: Floor, b: Button, l: Loop): Loop {
    if l.Returned? then l
    else if !InShaft(l.floor) then Returned(l.floors, l.stops)
    else if l.floor == t && Arrived(Marks(s), l.dir, t, b) then Returned(l.floors + 1, l.stops)
    else
      var dir := Bounce(l.dir, l.floor);
      Running(l.floor + dir.Delta(), dir, l.floors + 1, l.stops + if s.OwnAt(l.floor) then 1 else 0)
  }

  function Unroll(s: ExtendedElevState, t: Floor, b: Button, l: Loop, n: nat): Loop
    decreases n
  {
    if n == 0 then l else Unroll(s, t, b, Iterate(s, t, b, l), n - 1)
  }

  /** The loop of `LengthToOrder` ends exactly when the input is not in the diverging family. */
  lemma TerminatesIff(s: ExtendedElevState, t: Floor, b: Button)
    ensures (exists n: nat :: Unroll(s, t, b, Start(s, t), n).Returned?) <==> !Diverges(s, t, b)
    ensures s.localState.Walkable() ==> !Diverges(s, t, b)
  {
    var l := Start(s, t);
    if Diverges(s, t, b) {
      forall n: nat
        ensures !Unroll(s, t, b, l, n).Returned?
      {
        SpinsForever(s, t, b, l, n);
      }
    } else {
      var n := EventuallyReturns(s, t, b);
      assert Unroll(s, t, b, l, n).Returned?;
    }
  }

  lemma {:induction false} SpinsForever(s: ExtendedElevState, t: Floor, b: Button, l: Loop, n: nat)
    requires Diverges(s, t, b)
    requires l.Running? && l.dir == Stop && l.floor == t
    ensures Unroll(s, t, b, l, n).Running?
    decreases n
  {
    if n == 0 {
    } else {
      SpinsForever(s, t, b, Iterate(s, t, b, l), n - 1);
    }
  }

  /** Where the loop ends, it returns the estimate. */
  lemma EventuallyReturns(s: ExtendedElevState, t: Floor, b: Button) returns (n: nat)
    requires !Diverges(s, t, b)
    ensures Unroll(s, t, b, Start(s, t), n) == Returned(Estimate(s, t, b).0, Estimate(s, t, b).1)
  {
    var d, x := FirstLeg(s, t), s.localState.lastFloor;
    if AlreadyThere(s, t) {
      n := 0;
    } else if d == Stop || !InShaft(x + d.Delta()) {
      n := 1;
      assert Unroll(s, t, b, Start(s, t), 1) == Unroll(s, t, b, Iterate(s, t, b, Start(s, t)), 0);
    } else {
      n := UnrollWalk(s, d, x, t, b, 0, 0);
    }
  }

  lemma {:induction false} UnrollWalk(s: ExtendedElevState, d: Direction, x: Floor, t: Floor, b: Button, k: nat, j: nat)
    returns (n: nat)
    requires d != Stop && InShaft(x + d.Delta())
    ensures Unroll(s, t, b, Running(x + d.Delta(), d, k, j), n)
            == Returned(k + Remaining(Marks(s), d, x, t, b).0, j + Remaining(Marks(s), d, x, t, b).1)
    decreases Sweep(d, x, t, b)
  {
    hide Sweep, Arrived;
    var y := x + d.Delta();
    var l := Running(y, d, k, j);
    if y == t && Arrived(Marks(s), d, t, b) {
      n := 1;
      assert Unroll(s, t, b, l, 1) == Unroll(s, t, b, Iterate(s, t, b, l), 0);
    } else {
      SweepFalls(Marks(s), d, x, t, b);
      var rest := AfterStep(Marks(s), d, x, t, b);
      var j' := j + if s.OwnAt(y) then 1 else 0;
      var d' := Bounce(d, y);
      assert Iterate(s, t, b, l) == Running(y + d'.Delta(), d', k + 1, j');
      var m := UnrollWalk(s, d', y, t, b, k + 1, j');
      n := m + 1;
    }
  }

  /** The inner loop of the walk, typedef.go:333-342: does the virtual car stop at this floor? */
  method StopsAt(s: ExtendedElevState, floor: Floor) returns (stops: bool)
    ensures stops == Marks(s)[floor]
  {
    var halls: seq<Hall> := [CallUp, CallDown];
    var button := 0;
    while button < |halls|
      invariant 0 <= button <= |halls|
      invariant 0 < button ==> !s.Own(floor, CallUp) && !s.Own(floor, Command)
      invariant 1 < button ==> !s.Own(floor, CallDown)
    {
      var order := s.externalOrders[floor].Get(halls[button]);
      if order.status == UnderExecution && s.localState.localIP == order.assignedTo {
        return true;
      } else if s.localState.internalOrders[floor] {
        return true;
      }
      button := button + 1;
    }
    return false;
  }

  /** The tests on reaching the target floor, typedef.go:317-332. */
  method ReturnsAtTarget(s: ExtendedElevState, dir: Direction, floor: Floor, orderType: Button) returns (done: bool)
    ensures done == Arrived(Marks(s), dir, floor, orderType)
  {
    MarksAgree(s, floor);
    if floor == 0 || floor == N_FLOORS - 1 {
      return true;
    } else if (dir == Down && orderType == CallDown) || (dir == Up && orderType == CallUp) || orderType == Command {
      return true;
    } else {
      var fakeElev := s.CreateFakeElev(floor);
      if dir == Up {
        var above := fakeElev.ScanOrdersAbove();
        return !above;
      } else if dir == Down {
        var below := fakeElev.ScanOrdersBelow();
        return !below;
      }
    }
    return false;
  }

  /** The body of the loop of the walk, typedef.go:317-348: what happens on reaching `floor`. */
  method VisitFloor(s: ExtendedElevState, dir: Direction, floor: Floor, orderFloor: Floor, orderType: Button)
    returns (done: bool, stops: bool, next: Direction)
    requires InShaft(floor - dir.Delta())
    requires dir == Stop ==> floor == orderFloor && Arrived(Marks(s), Stop, orderFloor, orderType)
    ensures done == (floor == orderFloor && Arrived(Marks(s), dir, orderFloor, orderType))
    ensures done ==> Remaining(Marks(s), dir, floor - dir.Delta(), orderFloor, orderType) == (1, 0)
    ensures !done ==>
              var rest := Remaining(Marks(s), next, floor, orderFloor, orderType);
              && next == Bounce(dir, floor) != Stop
              && Remaining(Marks(s), dir, floor - dir.Delta(), orderFloor, orderType)
                 == (1 + rest.0, (if stops then 1 else 0) + rest.1)
  {
    hide Walk, Sweep;
    stops, next := false, dir;
    if floor == orderFloor {
      done := ReturnsAtTarget(s, dir, floor, orderType);
      if done {
        LastStep(Marks(s), dir, floor - dir.Delta(), orderFloor, orderType);
        return;
      }
    }
    done := false;
    stops := StopsAt(s, floor);
    if floor == N_FLOORS - 1 {
      next := Down;
    } else if floor == 0 {
      next := Up;
    }
    ghost var _ := AfterStep(Marks(s), dir, floor - dir.Delta(), orderFloor, orderType);
  }

  /** The for loop of the walk, typedef.go:315-350, from floor `x` in direction `d`. */
  method RunWalk(s: ExtendedElevState, d: Direction, x: Floor, orderFloor: Floor, orderType: Button)
    returns (numbersOfFloors: nat, numbersOfStops: nat)
    requires d == Stop ==> x == orderFloor && Arrived(Marks(s), Stop, orderFloor, orderType)
    ensures (numbersOfFloors, numbersOfStops) == Remaining(Marks(s), d, x, orderFloor, orderType)
  {
    hide Walk, Sweep, Arrived;
    numbersOfFloors, numbersOfStops := 0, 0;
    var dir := d;
    var floor := x + dir.Delta();
    ghost var m := Marks(s);
    ghost var rest := Remaining(m, d, x, orderFloor, orderType);
    while floor < N_FLOORS && floor >= 0
      invariant InShaft(floor - dir.Delta())
      invariant dir == Stop ==> floor == orderFloor && Arrived(m, Stop, orderFloor, orderType)
      invariant rest == Remaining(m, dir, floor - dir.Delta(), orderFloor, orderType)
      invariant Remaining(m, d, x, orderFloor, orderType) == (numbersOfFloors + rest.0, numbersOfStops + rest.1)
      decreases rest.0
    {
      numbersOfFloors := numbersOfFloors + 1;
      var done, stops, next := VisitFloor(s, dir, floor, orderFloor, orderType);
      if done {
        return;
      }
      rest := Remaining(m, next, floor, orderFloor, orderType);
      if stops {
        numbersOfStops := numbersOfStops + 1;
      }
      dir := next;
      floor := floor + dir.Delta();
    }
  }

  /** typedef.go:294-351. */
  method LengthToOrder(s: ExtendedElevState, orderFloor: Floor, orderType: Button)
    returns (numbersOfFloors: nat, numbersOfStops: nat)
    requires !Diverges(s, orderFloor, orderType)
    ensures (numbersOfFloors, numbersOfStops) == Estimate(s, orderFloor, orderType)
  {
    var dir := s.localState.direction;
    var lastFloor := s.localState.lastFloor;
    if dir == Stop && !s.localState.isMoving && lastFloor == orderFloor {
      return 0, 0;
    }
    if orderFloor > lastFloor {
      var below := s.ScanOrdersBelow();
      if !(dir == Down && below) {
        dir := Up;
      }
    } else if orderFloor < lastFloor {
      var above := s.ScanOrdersAbove();
      if !(dir == Up && above) {
        dir := Down;
      }
    }
    numbersOfFloors, numbersOfStops := RunWalk(s, dir, lastFloor, orderFloor, orderType);
  }
}
