/** The one case in which the cost walk starts the wrong way: an idle car with orders above that is
    asked to go below. What it really drives, in closed form, and so exactly when the estimate of
    `LengthToOrder` holds. */
module Detour {
  import opened Typedef
  import opened CostWalk
  import opened Cars
  import opened CarRun
  import opened Service
  import opened Prediction

  /** The car stops for the orders of this floor on its way down. */
  predicate StopsDown(s: ExtendedElevState, f: Floor) { s.Own(f, CallDown) || s.Own(f, Command) }

  function DownMarks(s: ExtendedElevState): (m: Flags)
    ensures forall f: Floor :: m[f] == StopsDown(s, f)
  {
    seq(N_FLOORS, f requires 0 <= f < N_FLOORS => StopsDown(s, f))
  }

  // ---------------------------------------------------------------- counting

  lemma {:induction false} CountSame(m: Flags, m': Flags, lo: int, hi: int)
    requires 0 <= lo && hi <= N_FLOORS && forall f :: lo <= f < hi ==> m[f] == m'[f]
    ensures Count(m, lo, hi) == Count(m', lo, hi)
    decreases hi - lo
  {
    if lo >= hi {
    } else {
      CountSame(m, m', lo + 1, hi);
    }
  }

  /** Clearing the mark of floor `y` lowers a count over it by that mark. */
  lemma {:induction false} CountCleared(m: Flags, m': Flags, y: Floor, lo: int, hi: int)
    requires 0 <= lo <= y < hi <= N_FLOORS && !m'[y] && forall f: Floor :: f != y ==> m[f] == m'[f]
    ensures Count(m, lo, hi) == Count(m', lo, hi) + if m[y] then 1 else 0
    decreases hi - lo
  {
    if lo < y {
      CountCleared(m, m', y, lo + 1, hi);
    } else {
      CountSame(m, m', y + 1, hi);
    }
  }

  /** Floors without a mark at the low end do not count. */
  lemma {:induction false} CountFrom(m: Flags, lo: int, mid: int, hi: int)
    requires 0 <= lo <= mid && hi <= N_FLOORS && forall f :: lo <= f < mid && f < N_FLOORS ==> !m[f]
    ensures Count(m, lo, hi) == Count(m, mid, hi)
    decreases mid - lo
  {
    if lo < mid && lo < hi {
      CountFrom(m, lo + 1, mid, hi);
    }
  }

  // ---------------------------------------------------------------- the legs of the real run

  /** What a stop at `y`, or none, does to the marks. */
  lemma ClearedMarks(c: Car, n: Car, y: Floor)
    requires Cleared(c, n, y)
    ensures forall f: Floor :: f != y ==>
              Marks(n.view)[f] == Marks(c.view)[f] && DownMarks(n.view)[f] == DownMarks(c.view)[f]
    ensures c.StopsAt(y) ==> !Marks(n.view)[y] && !DownMarks(n.view)[y]
    ensures !c.StopsAt(y) ==> Marks(n.view) == Marks(c.view) && DownMarks(n.view) == DownMarks(c.view)
  {
    assert forall f: Floor :: f != y || !c.StopsAt(y) ==> n.view.OwnAt(f) == c.view.OwnAt(f);
    assert c.StopsAt(y) ==> !n.view.OwnAt(y);
  }

  /** Driving up to a call up, where nothing on the way waits for the way down only. */
  predicate LastUp(c: Car, t: Floor) {
    && c.Moving() && c.Heading() == Up && c.At() < t && c.view.Own(t, CallUp)
    && forall g: Floor :: c.At() < g < t ==> !StopsDown(c.view, g)
  }

  lemma LastUpKept(c: Car, n: Car, t: Floor)
    requires LastUp(c, t) && Cleared(c, n, n.At()) && n.At() == c.At() + 1 < t
    requires GoesOn(n, Up) && n.view.Own(t, CallUp)
    ensures LastUp(n, t)
    ensures Count(Marks(n.view), n.At() + 1, t) == Count(Marks(c.view), n.At() + 1, t)
  {
    assert n.view.OwnAt(t) && n.view.OwnAbove(n.At());
    ClearedMarks(c, n, n.At());
    CountSame(Marks(c.view), Marks(n.view), n.At() + 1, t);
    forall g: Floor | n.At() < g < t ensures !StopsDown(n.view, g) {
      assert !StopsDown(c.view, g);
    }
  }

  lemma LastUpStep(c: Car, t: Floor) returns (n: Car)
    requires Inv(c) && LastUp(c, t) && c.At() + 1 < t
    ensures Inv(n) && LastUp(n, t) && n.At() == c.At() + 1
    ensures ServeCost(c, t, CallUp) == (1 + ServeCost(n, t, CallUp).0,
                                        (if Marks(c.view)[n.At()] then 1 else 0) + ServeCost(n, t, CallUp).1)
    ensures Count(Marks(n.view), n.At() + 1, t) == Count(Marks(c.view), n.At() + 1, t)
  {
    hide ServeCost, Inv, Rank, Count;
    StopsAtIff(c);
    var y := NextFloor(c);
    assert c.view.OwnAt(t) && c.view.OwnAbove(y) && !StopsDown(c.view, y);
    n := Onward(c, t, CallUp);
    LastUpKept(c, n, t);
  }

  lemma {:induction false} LastLegUp(c: Car, t: Floor)
    requires Inv(c) && LastUp(c, t)
    ensures ServeCost(c, t, CallUp).0 == t - c.At()
    ensures ServeCost(c, t, CallUp).1 == Count(Marks(c.view), c.At() + 1, t)
    decreases t - c.At()
  {
    hide ServeCost, Inv, Rank;
    if c.At() + 1 == t {
      StopsAtIff(c);
      ServedNext(c, t, CallUp);
    } else {
      var n := LastUpStep(c, t);
      LastLegUp(n, t);
    }
  }

  predicate LowestOwn(s: ExtendedElevState, lo: Floor) { s.OwnAt(lo) && !s.OwnBelow(lo) }

  predicate HighestOwn(s: ExtendedElevState, hi: Floor) { s.OwnAt(hi) && !s.OwnAbove(hi) }

  /** Driving down past a call up that waits at or above the car, to the lowest own order. */
  predicate LastDown(c: Car, t: Floor, lo: Floor) {
    && c.Moving() && c.Heading() == Down && lo < c.At() <= t && c.view.Own(t, CallUp) && LowestOwn(c.view, lo)
    && forall g: Floor :: c.At() <= g <= t ==> !StopsDown(c.view, g)
  }

  lemma StaysLowest(c: Car, n: Car, y: Floor, lo: Floor)
    requires Cleared(c, n, y) && y >= lo && !c.view.OwnBelow(lo)
    ensures !n.view.OwnBelow(lo)
    ensures y > lo && c.view.OwnAt(lo) ==> n.view.OwnAt(lo)
  {
    assert forall g: Floor :: n.view.OwnAt(g) ==> c.view.OwnAt(g);
  }

  lemma LastDownStep(c: Car, t: Floor, lo: Floor) returns (n: Car)
    requires Inv(c) && LastDown(c, t, lo) && c.At() - 1 > lo
    ensures Inv(n) && LastDown(n, t, lo) && n.At() == c.At() - 1
    ensures ServeCost(c, t, CallUp).0 == 1 + ServeCost(n, t, CallUp).0
    ensures ServeCost(c, t, CallUp).1 - ServeCost(n, t, CallUp).1
            == Count(Marks(c.view), 0, t) - Count(Marks(n.view), 0, t)
  {
    hide ServeCost, Inv, Rank;
    StopsAtIff(c);
    var y := NextFloor(c);
    assert c.view.OwnBelow(y);
    n := Onward(c, t, CallUp);
    ClearedMarks(c, n, y);
    StaysLowest(c, n, y, lo);
    assert n.view.OwnBelow(y);
    if c.StopsAt(y) {
      CountCleared(Marks(c.view), Marks(n.view), y, 0, t);
    }
    forall g: Floor | y <= g <= t ensures !StopsDown(n.view, g) {
      assert g > y ==> !StopsDown(c.view, g);
    }
  }

  lemma TurnsUp(c: Car, t: Floor, lo: Floor) returns (n: Car)
    requires Inv(c) && LastDown(c, t, lo) && c.At() - 1 == lo
    ensures Inv(n) && LastUp(n, t) && n.At() == lo
    ensures ServeCost(c, t, CallUp) == (1 + ServeCost(n, t, CallUp).0, 1 + ServeCost(n, t, CallUp).1)
    ensures Count(Marks(c.view), 0, t) == 1 + Count(Marks(n.view), lo + 1, t)
  {
    hide ServeCost, Inv, Rank;
    StopsAtIff(c);
    n := Onward(c, t, CallUp);
    ClearedMarks(c, n, lo);
    StaysLowest(c, n, lo, lo);
    assert n.view.OwnAt(t) && n.view.OwnAbove(lo);
    CountCleared(Marks(c.view), Marks(n.view), lo, 0, t);
    CountFrom(Marks(n.view), 0, lo + 1, t);
    forall g: Floor | lo < g < t ensures !StopsDown(n.view, g) {
      assert !StopsDown(c.view, g);
    }
  }

  lemma {:induction false} LastLegsDown(c: Car, t: Floor, lo: Floor)
    requires Inv(c) && LastDown(c, t, lo)
    ensures ServeCost(c, t, CallUp).0 == (c.At() - lo) + (t - lo)
    ensures ServeCost(c, t, CallUp).1 == Count(Marks(c.view), 0, t)
    decreases c.At()
  {
    hide ServeCost, Inv, Rank;
    if c.At() - 1 == lo {
      var n := TurnsUp(c, t, lo);
      LastLegUp(n, t);
    } else {
      var n := LastDownStep(c, t, lo);
      LastLegsDown(n, t, lo);
    }
  }

  /** The floor at which a car going down turns before it serves a button of floor `t`: `t` itself
      if it answers on the way down or nothing own is below, else the lowest own floor. */
  predicate TurnsAt(s: ExtendedElevState, t: Floor, lo: Floor) {
    if StopsDown(s, t) || !s.OwnBelow(t) then lo == t else lo < t && LowestOwn(s, lo)
  }

  function Tail(m: Flags, t: Floor, lo: Floor): nat { if lo < t then Count(m, 0, t) else 0 }

  /** A stop above the target, or none, changes nothing at the target or below it. */
  lemma StaysTurn(c: Car, n: Car, y: Floor, t: Floor, lo: Floor)
    requires Cleared(c, n, y) && (y > t || (y == t && !c.StopsAt(t))) && TurnsAt(c.view, t, lo)
    ensures TurnsAt(n.view, t, lo) && Tail(Marks(n.view), t, lo) == Tail(Marks(c.view), t, lo)
    ensures n.view.OwnBelow(t) == c.view.OwnBelow(t)
  {
    assert forall g: Floor :: g <= t ==> n.view.OwnAt(g) == c.view.OwnAt(g);
    assert StopsDown(n.view, t) == StopsDown(c.view, t);
    CountSame(Marks(n.view), Marks(c.view), 0, t);
  }

  /** Driving down towards (t, b). */
  predicate FirstDown(c: Car, t: Floor, b: Button, lo: Floor) {
    c.Moving() && c.Heading() == Down && t < c.At() && c.view.Own(t, b) && TurnsAt(c.view, t, lo)
  }

  lemma DownCount(c: Car, n: Car, t: Floor, y: Floor)
    requires Cleared(c, n, y) && t < y
    ensures Count(DownMarks(c.view), t + 1, y + 1)
            == Count(DownMarks(n.view), t + 1, y) + if StopsDown(c.view, y) then 1 else 0
    ensures Count(DownMarks(c.view), t + 1, y) == Count(DownMarks(n.view), t + 1, y)
  {
    ClearedMarks(c, n, y);
    CountLast(DownMarks(c.view), t + 1, y);
    CountSame(DownMarks(c.view), DownMarks(n.view), t + 1, y);
  }

  lemma FirstDownStep(c: Car, t: Floor, b: Button, lo: Floor) returns (n: Car)
    requires Inv(c) && FirstDown(c, t, b, lo) && c.At() - 1 > t
    ensures Inv(n) && FirstDown(n, t, b, lo) && n.At() == c.At() - 1
    ensures ServeCost(c, t, b).0 == 1 + ServeCost(n, t, b).0
    ensures ServeCost(c, t, b).1 - ServeCost(n, t, b).1
            == Count(DownMarks(c.view), t + 1, c.At()) - Count(DownMarks(n.view), t + 1, n.At())
    ensures Tail(Marks(n.view), t, lo) == Tail(Marks(c.view), t, lo)
  {
    hide ServeCost, Inv, Rank;
    StopsAtIff(c);
    var y := NextFloor(c);
    assert c.view.OwnAt(t) && c.view.OwnBelow(y);
    n := Onward(c, t, b);
    assert n.view.OwnAt(t) && n.view.OwnBelow(y);
    StaysTurn(c, n, y, t, lo);
    DownCount(c, n, t, y);
  }

  lemma PassesTarget(c: Car, t: Floor, b: Button, lo: Floor) returns (n: Car)
    requires Inv(c) && FirstDown(c, t, b, lo) && c.At() - 1 == t && lo < t
    ensures b == CallUp && Inv(n) && LastDown(n, t, lo) && n.At() == t
    ensures ServeCost(c, t, b) == (1 + ServeCost(n, t, b).0, ServeCost(n, t, b).1)
    ensures Count(Marks(n.view), 0, t) == Count(Marks(c.view), 0, t)
  {
    hide ServeCost, Inv, Rank;
    StopsAtIff(c);
    assert !StopsDown(c.view, t);
    n := Onward(c, t, b);
    StaysTurn(c, n, t, t, lo);
    assert !StopsDown(n.view, t);
  }

  lemma {:induction false} LegDown(c: Car, t: Floor, b: Button, lo: Floor)
    requires Inv(c) && FirstDown(c, t, b, lo)
    ensures ServeCost(c, t, b).0 == (c.At() - lo) + (t - lo)
    ensures ServeCost(c, t, b).1 == Count(DownMarks(c.view), t + 1, c.At()) + Tail(Marks(c.view), t, lo)
    decreases c.At()
  {
    hide ServeCost, Inv, Rank;
    if c.At() - 1 > t {
      var n := FirstDownStep(c, t, b, lo);
      LegDown(n, t, b, lo);
    } else if lo < t {
      var n := PassesTarget(c, t, b, lo);
      LastLegsDown(n, t, lo);
    } else {
      StopsAtIff(c);
      ServedNext(c, t, b);
    }
  }

  /** Driving up, away from (t, b), to the highest own order. */
  predicate FirstUp(c: Car, t: Floor, b: Button, hi: Floor, lo: Floor) {
    && c.Moving() && c.Heading() == Up && t <= c.At() < hi && c.view.Own(t, b)
    && HighestOwn(c.view, hi) && TurnsAt(c.view, t, lo)
  }

  /** Stops still to be made on the way up and on the way down past the car's floor. */
  function Both(s: ExtendedElevState, t: Floor, x: Floor): nat
    requires t <= x
  {
    Count(Marks(s), x + 1, N_FLOORS) + Count(DownMarks(s), t + 1, x + 1)
  }

  lemma StaysHighest(c: Car, n: Car, y: Floor, hi: Floor)
    requires Cleared(c, n, y) && y < hi && HighestOwn(c.view, hi)
    ensures HighestOwn(n.view, hi)
  {
    assert forall g: Floor :: n.view.OwnAt(g) ==> c.view.OwnAt(g);
  }

  lemma MarksCount(c: Car, n: Car, y: Floor)
    requires Cleared(c, n, y)
    ensures Count(Marks(c.view), y, N_FLOORS)
            == Count(Marks(n.view), y + 1, N_FLOORS) + if c.view.OwnAt(y) then 1 else 0
  {
    ClearedMarks(c, n, y);
    CountSame(Marks(c.view), Marks(n.view), y + 1, N_FLOORS);
  }

  lemma BothStep(c: Car, n: Car, t: Floor, y: Floor)
    requires Cleared(c, n, y) && t < y
    requires c.StopsAt(y) ==> c.view.OwnAt(y)
    requires !c.StopsAt(y) ==> !c.view.Own(y, Command) && !c.view.Own(y, CallUp)
    ensures Both(c.view, t, y - 1) == Both(n.view, t, y) + if c.StopsAt(y) then 1 else 0
  {
    MarksCount(c, n, y);
    DownCount(c, n, t, y);
    CountLast(DownMarks(n.view), t + 1, y);
    assert DownMarks(n.view)[y] == StopsDown(n.view, y);
  }

  lemma NoneAbove(c: Car, n: Car, hi: Floor)
    requires Cleared(c, n, hi) && HighestOwn(c.view, hi)
    ensures !n.view.OwnAbove(hi) && Count(Marks(c.view), hi, N_FLOORS) == 1
  {
    assert forall g: Floor :: n.view.OwnAt(g) ==> c.view.OwnAt(g);
    CountFrom(Marks(c.view), hi + 1, N_FLOORS, N_FLOORS);
  }

  lemma FirstUpStep(c: Car, t: Floor, b: Button, hi: Floor, lo: Floor) returns (n: Car)
    requires Inv(c) && FirstUp(c, t, b, hi, lo) && c.At() + 1 < hi
    ensures Inv(n) && FirstUp(n, t, b, hi, lo) && n.At() == c.At() + 1
    ensures ServeCost(c, t, b).0 == 1 + ServeCost(n, t, b).0
    ensures ServeCost(c, t, b).1 - ServeCost(n, t, b).1 == Both(c.view, t, c.At()) - Both(n.view, t, n.At())
    ensures Tail(Marks(n.view), t, lo) == Tail(Marks(c.view), t, lo)
  {
    hide ServeCost, Inv, Rank;
    StopsAtIff(c);
    var y := NextFloor(c);
    assert c.view.OwnAbove(y);
    n := Onward(c, t, b);
    StaysHighest(c, n, y, hi);
    assert n.view.OwnAbove(y);
    StaysTurn(c, n, y, t, lo);
    BothStep(c, n, t, y);
  }

  lemma TurnsDown(c: Car, t: Floor, b: Button, hi: Floor, lo: Floor) returns (n: Car)
    requires Inv(c) && FirstUp(c, t, b, hi, lo) && c.At() + 1 == hi
    ensures Inv(n) && FirstDown(n, t, b, lo) && n.At() == hi
    ensures ServeCost(c, t, b) == (1 + ServeCost(n, t, b).0, 1 + ServeCost(n, t, b).1)
    ensures Both(c.view, t, c.At()) == 1 + Count(DownMarks(n.view), t + 1, hi)
    ensures Tail(Marks(n.view), t, lo) == Tail(Marks(c.view), t, lo)
  {
    hide ServeCost, Inv, Rank;
    StopsAtIff(c);
    n := Onward(c, t, b);
    StaysTurn(c, n, hi, t, lo);
    NoneAbove(c, n, hi);
    DownCount(c, n, t, hi);
  }

  lemma {:induction false} LegUp(c: Car, t: Floor, b: Button, hi: Floor, lo: Floor)
    requires Inv(c) && FirstUp(c, t, b, hi, lo)
    ensures ServeCost(c, t, b).0 == (hi - c.At()) + (hi - lo) + (t - lo)
    ensures ServeCost(c, t, b).1 == Both(c.view, t, c.At()) + Tail(Marks(c.view), t, lo)
    decreases hi - c.At()
  {
    hide ServeCost, Inv, Rank;
    if c.At() + 1 == hi {
      var n := TurnsDown(c, t, b, hi, lo);
      LegDown(n, t, b, lo);
    } else {
      var n := FirstUpStep(c, t, b, hi, lo);
      LegUp(n, t, b, hi, lo);
    }
  }

  // ---------------------------------------------------------------- the exact condition

  /** The highest marked floor at or below `f`, or floor 0 if there is none. */
  function Highest(m: Flags, f: Floor): (r: Floor)
    ensures r <= f && forall g :: r < g <= f ==> !m[g]
    ensures (exists g: int :: 0 <= g <= f && m[g]) ==> m[r]
  {
    if m[f] || f == 0 then f else Highest(m, f - 1)
  }

  /** The lowest marked floor at or above `f`, or the top floor if there is none. */
  function Lowest(m: Flags, f: Floor): (r: Floor)
    ensures f <= r && forall g :: f <= g < r ==> !m[g]
    ensures (exists g: int :: f <= g < N_FLOORS && m[g]) ==> m[r]
    decreases N_FLOORS - f
  {
    if m[f] || f == N_FLOORS - 1 then f else Lowest(m, f + 1)
  }

  function Top(s: ExtendedElevState): Floor { Highest(Marks(s), N_FLOORS - 1) }

  /** Where the car that is sent to (t, b) will turn from down to up, or serve the order. */
  function Turn(s: ExtendedElevState, t: Floor, b: Button): Floor {
    if b != CallUp || StopsDown(s, t) || !s.OwnBelow(t) then t else Lowest(Marks(s), 0)
  }

  /** Up to the highest own order, down to the turn, and up again to the target; a stop for every
      own order above, for those below that wait for the way down, and for all below the target if
      the car passes it. */
  function DetourCost(s: ExtendedElevState, t: Floor, b: Button): (int, int)
    requires t <= s.localState.lastFloor
  {
    var x, hi, lo := s.localState.lastFloor, Top(s), Turn(s, t, b);
    ((hi - x) + (hi - lo) + (t - lo), Both(s, t, x) + Tail(Marks(s), t, lo))
  }

  /** The accepted order changes no mark but the target's. */
  lemma AcceptedMarks(c: Car, t: Floor, b: Button)
    requires Inv(c) && !c.view.Own(t, b) && SentAway(c, t)
    ensures var a := Accept(c, t, b);
            && (forall f: Floor :: f != t ==>
                  Marks(a.view)[f] == Marks(c.view)[f] && DownMarks(a.view)[f] == DownMarks(c.view)[f])
            && (StopsDown(a.view, t) <==> StopsDown(c.view, t) || b != CallUp)
            && a.view.Own(t, b)
  {
    AcceptFacts(c, t, b);
    var a := Accept(c, t, b);
    assert forall f: Floor, k: Button :: a.view.Own(f, k) == (c.view.Own(f, k) || (f == t && k == b));
    assert forall f: Floor :: f != t ==> a.view.OwnAt(f) == c.view.OwnAt(f);
  }

  lemma SameCounts(c: Car, a: Car, t: Floor, b: Button, lo: Floor)
    requires forall f: Floor :: f != t ==>
               Marks(a.view)[f] == Marks(c.view)[f] && DownMarks(a.view)[f] == DownMarks(c.view)[f]
    requires t <= c.At() == a.At()
    ensures Both(a.view, t, c.At()) == Both(c.view, t, c.At())
    ensures Tail(Marks(a.view), t, lo) == Tail(Marks(c.view), t, lo)
  {
    hide Count;
    CountSame(Marks(a.view), Marks(c.view), c.At() + 1, N_FLOORS);
    CountSame(DownMarks(a.view), DownMarks(c.view), t + 1, c.At() + 1);
    CountSame(Marks(a.view), Marks(c.view), 0, t);
  }

  lemma DetourEnds(c: Car, t: Floor, b: Button)
    requires Inv(c) && !c.view.Own(t, b) && SentAway(c, t)
    ensures var a := Accept(c, t, b);
            HighestOwn(a.view, Top(c.view)) && c.At() < Top(c.view) && TurnsAt(a.view, t, Turn(c.view, t, b))
  {
    AcceptedMarks(c, t, b);
    var a := Accept(c, t, b);
    assert forall f: Floor :: Marks(a.view)[f] == a.view.OwnAt(f) && Marks(c.view)[f] == c.view.OwnAt(f);
    assert c.view.OwnBelow(t) == a.view.OwnBelow(t);
  }

  lemma SameOwnSameMarks(s: ExtendedElevState, s': ExtendedElevState)
    requires forall g: Floor, k: Button :: s'.Own(g, k) == s.Own(g, k)
    ensures Marks(s') == Marks(s) && DownMarks(s') == DownMarks(s)
    ensures forall f: Floor :: s'.OwnAt(f) == s.OwnAt(f) && StopsDown(s', f) == StopsDown(s, f)
    ensures forall f: Floor :: s'.OwnAbove(f) == s.OwnAbove(f) && s'.OwnBelow(f) == s.OwnBelow(f)
  {
    assert forall f: Floor :: s'.OwnAt(f) == s.OwnAt(f);
    assert Marks(s') == Marks(s) && DownMarks(s') == DownMarks(s);
  }

  /** The legs of an idle car, from the closing of its door. */
  lemma LegsFromDoor(a: Car, t: Floor, b: Button, hi: Floor, lo: Floor)
    requires Inv(a) && !a.Moving() && a.Heading() == Stop && a.view.Own(t, b) && t < a.At() < hi
    requires HighestOwn(a.view, hi) && TurnsAt(a.view, t, lo)
    ensures ServeCost(a, t, b).0 == (hi - a.At()) + (hi - lo) + (t - lo)
    ensures ServeCost(a, t, b).1 == Both(a.view, t, a.At()) + Tail(Marks(a.view), t, lo)
  {
    hide ServeCost, Inv, Rank;
    assert a.view.OwnAbove(a.At());
    LeavesTowards(a, t, b);
    var n := DoorStep(a, t, b);
    SameOwnSameMarks(a.view, n.view);
    LegUp(n, t, b, hi, lo);
  }

  /** The car that has accepted the order. */
  lemma SentCar(c: Car, t: Floor, b: Button) returns (a: Car)
    requires Inv(c) && !c.view.Own(t, b) && SentAway(c, t)
    ensures a == Accept(c, t, b) && Inv(a) && a.view.Own(t, b)
    ensures !a.Moving() && a.Heading() == Stop && t < a.At() == c.At() < Top(c.view)
    ensures HighestOwn(a.view, Top(c.view)) && TurnsAt(a.view, t, Turn(c.view, t, b))
    ensures Both(a.view, t, c.At()) == Both(c.view, t, c.At())
    ensures Tail(Marks(a.view), t, Turn(c.view, t, b)) == Tail(Marks(c.view), t, Turn(c.view, t, b))
  {
    hide Accept;
    a := Accept(c, t, b);
    AcceptFacts(c, t, b);
    AcceptedMarks(c, t, b);
    DetourEnds(c, t, b);
    SameCounts(c, a, t, b, Turn(c.view, t, b));
  }

  /** What an idle car that is sent away really drives. */
  lemma DetourTaken(c: Car, t: Floor, b: Button)
    requires Inv(c) && !c.view.Own(t, b) && SentAway(c, t)
    ensures Inv(Accept(c, t, b)) && Accept(c, t, b).view.Own(t, b)
    ensures ServeCost(Accept(c, t, b), t, b) == DetourCost(c.view, t, b)
  {
    hide ServeCost, Accept, Both, Tail, Top, Turn, TurnsAt;
    var a := SentCar(c, t, b);
    LegsFromDoor(a, t, b, Top(c.view), Turn(c.view, t, b));
  }

  /** What `LengthToOrder` said of it beforehand. */
  lemma DetourEstimate(c: Car, t: Floor, b: Button)
    requires Inv(c) && SentAway(c, t)
    ensures var m, x := Marks(c.view), c.At();
            Estimate(c.view, t, b) == if AnswersGoingDown(m, t, b) then (x - t, Count(m, t + 1, x))
                                      else (x + t, Count(m, 0, x) + Count(m, 1, t))
  {
    WalkClosedForm(Marks(c.view), Down, c.At(), t, b);
  }

  /** The estimate covers the detour: a call up that the walk, too, meets only on its way back from
      the bottom of the shaft, and the car's own orders close enough together. */
  predicate Covered(s: ExtendedElevState, t: Floor, b: Button)
    requires t <= s.localState.lastFloor
  {
    var m, x := Marks(s), s.localState.lastFloor;
    && !AnswersGoingDown(m, t, b)
    && Top(s) - Turn(s, t, b) <= x
    && Both(s, t, x) + Tail(m, t, Turn(s, t, b)) <= Count(m, 0, x) + Count(m, 1, t)
  }

  predicate Predicted(c: Car, t: Floor, b: Button) {
    SentAway(c, t) ==> Covered(c.view, t, b)
  }

  /** A target that the walk answers on its way down: the car drives at least two floors more. */
  lemma DetourIsLonger(c: Car, t: Floor, b: Button)
    requires Inv(c) && !c.view.Own(t, b) && SentAway(c, t) && AnswersGoingDown(Marks(c.view), t, b)
    ensures DetourCost(c.view, t, b).0 >= Estimate(c.view, t, b).0 + 2
  {
    DetourEstimate(c, t, b);
    MarksAgree(c.view, t);
    var _ := SentCar(c, t, b);
  }

  lemma SentAwayIff(c: Car, t: Floor, b: Button)
    requires Inv(c) && !c.view.Own(t, b) && SentAway(c, t)
    ensures Leq(DetourCost(c.view, t, b), Estimate(c.view, t, b)) <==> Covered(c.view, t, b)
  {
    DetourEstimate(c, t, b);
    if AnswersGoingDown(Marks(c.view), t, b) {
      DetourIsLonger(c, t, b);
    }
  }

  /** For every state that a car is in as long as nothing parks it or takes its orders away, and for
      every button: the estimate holds if and only if the car is not sent away, or the estimate covers
      the detour. */
  lemma EstimateHoldsIff(c: Car, t: Floor, b: Button)
    requires Inv(c) && !c.view.Own(t, b) && Physical(t, b)
    ensures Inv(Accept(c, t, b))
    ensures (Accept(c, t, b).view.Own(t, b) ==> Leq(ServeCost(Accept(c, t, b), t, b), Estimate(c.view, t, b)))
            <==> Predicted(c, t, b)
  {
    hide ServeCost, Accept;
    if SentAway(c, t) {
      DetourTaken(c, t, b);
      SentAwayIff(c, t, b);
    } else {
      EstimateBoundsRun(c, t, b);
    }
  }

  /** The same of runs: of every undisturbed run from the accepted order up to the stop that serves
      it, that stop counted. */
  lemma EstimateHoldsOnRunsIff(c: Car, cs: seq<Car>, es: seq<Event>, t: Floor, b: Button)
    requires Inv(c) && !c.view.Own(t, b) && Physical(t, b)
    requires QuietRun(cs, es, t, b) && cs[0] == Accept(c, t, b)
    ensures (Arrivals(es) <= Estimate(c.view, t, b).0 && Stops(cs, es) <= Estimate(c.view, t, b).1 + 1)
            <==> Predicted(c, t, b)
  {
    hide ServeCost, Accept;
    EstimateHoldsIff(c, t, b);
    QuietRunCost(cs, es, t, b);
  }

  // ---------------------------------------------------------------- both cases occur

  function NewCar(ip: IP, x: Floor): (c: Car)
    ensures Init(c) && c.Ip() == ip && c.At() == x
  {
    Cars.Car(ExtendedElevState(ElevState(ip, x, Stop, false, false, seq(N_FLOORS, _ => false)),
                               seq(N_FLOORS, _ => Row(NO_ORDER, NO_ORDER))), false, false, Stop)
  }

  /** A car that starts at floor `x` and has the buttons of other floors pressed one by one. */
  lemma {:induction false} PressedRun(c: Car, fs: seq<Floor>) returns (cs: seq<Car>, es: seq<Event>)
    requires Init(c) && c.At() !in fs
    ensures Run(cs, es) && cs[0] == c && |es| == |fs|
    ensures var d := cs[|es|];
            && Inv(d) && d.At() == c.At() && d.Heading() == Stop && !d.Moving()
            && forall g: Floor, b: Button :: d.view.Own(g, b) <==> b == Command && g in fs
  {
    if fs == [] {
      cs, es := [c], [];
      InitInv(c);
      NothingOwn(c);
    } else {
      var n := |fs| - 1;
      assert fs[n] in fs && forall g :: g in fs <==> g in fs[..n] || g == fs[n];
      var ds, ds' := PressedRun(c, fs[..n]);
      var d, e := ds[n], Pressed(fs[n]);
      StepInv(d, e, d.InternalButton(fs[n]));
      cs, es := ds + [d.InternalButton(fs[n])], ds' + [e];
      assert forall g: Floor, b: Button ::
          cs[|fs|].view.Own(g, b) == (d.view.Own(g, b) || (g == fs[n] && b == Command));
    }
  }

  /** With three floors or more a car is sent away as soon as it stands below an order: from floor 1,
      with the button of floor 2 pressed, to floor 0. */
  lemma SentAwayHappens(ip: IP) returns (cs: seq<Car>, es: seq<Event>)
    requires N_FLOORS >= 3
    ensures Run(cs, es) && Init(cs[0]) && es == [Pressed(2)]
    ensures var c := cs[1]; SentAway(c, 0) && !c.view.Own(0, Command) && !Predicted(c, 0, Command)
  {
    var c := NewCar(ip, 1);
    var d := c.InternalButton(2);
    cs, es := [c, d], [Pressed(2)];
    assert d.view.OwnAt(2);
    NothingOwn(c);
  }

  /** And with four floors or more the estimate may cover the detour: at floor 2, with the buttons of
      floors 3, 1 and 0 pressed, for a call up from floor 1. */
  lemma CoveredHappens(ip: IP) returns (cs: seq<Car>, es: seq<Event>)
    requires N_FLOORS >= 4
    ensures Run(cs, es) && Init(cs[0])
    ensures var c := cs[|es|]; Inv(c) && SentAway(c, 1) && !c.view.Own(1, CallUp) && Covered(c.view, 1, CallUp)
  {
    cs, es := PressedRun(NewCar(ip, 2), [3, 1, 0]);
    var s := cs[3].view;
    var m := Marks(s);
    assert s.OwnAt(3) && s.OwnAt(0) && s.OwnBelow(1);
    assert forall g: Floor :: m[g] <==> g == 3 || g == 1 || g == 0;
    MarksAgree(s, 1);
    CountFrom(m, 4, N_FLOORS, N_FLOORS);
    assert Count(m, 3, N_FLOORS) == 1;
    assert Count(DownMarks(s), 2, 3) == 0;
    assert Count(m, 0, 2) == 1 + Count(m, 1, 2) == 2;
  }
}
