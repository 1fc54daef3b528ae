/** src/cost/cost.go: the elevator with the lowest cost takes the order, ties broken by IP. */
module Cost {
  import opened Typedef
  import opened CostWalk

  const STOP_TIME_IN_FLOOR := 3
  const TRAVEL_TIME := 2

  datatype ElevCost = ElevCost(cost: nat, ip: IP)

  datatype CostError = NoActiveElevators | NoAddress

  datatype Result = Ok(ip: IP) | Err(error: CostError)

  /** Go's `<` on strings: lexicographic. (Dafny's `<` on sequences is "proper prefix".) */
  predicate StringLess(a: string, b: string) {
    if b == "" then false
    else if a == "" then true
    else if a[0] != b[0] then a[0] < b[0]
    else StringLess(a[1..], b[1..])
  }

  /** `elevCosts.Less`, cost.go:49-54. */
  predicate Less(x: ElevCost, y: ElevCost) {
    if x.cost != y.cost then x.cost < y.cost else StringLess(x.ip, y.ip)
  }

  lemma {:induction false} StringLessTotal(a: string, b: string)
    ensures a == b || StringLess(a, b) || StringLess(b, a)
    ensures !(StringLess(a, b) && StringLess(b, a))
    ensures StringLess(a, b) ==> a != b
  {
    if a != "" && b != "" && a[0] == b[0] {
      StringLessTotal(a[1..], b[1..]);
      assert a == [a[0]] + a[1..] && b == [b[0]] + b[1..];
    }
  }

  lemma {:induction false} StringLessTransitive(a: string, b: string, c: string)
    requires StringLess(a, b) && StringLess(b, c)
    ensures StringLess(a, c)
  {
    if a != "" && a[0] == b[0] == c[0] {
      StringLessTransitive(a[1..], b[1..], c[1..]);
    }
  }

  /** `Less` is a strict total order, so a non-empty set of pairs has exactly one least pair. */
  lemma LessTotal(x: ElevCost, y: ElevCost)
    ensures x == y || Less(x, y) || Less(y, x)
    ensures !(Less(x, y) && Less(y, x))
    ensures Less(x, y) ==> x != y
  {
    StringLessTotal(x.ip, y.ip);
  }

  lemma LessTransitive(x: ElevCost, y: ElevCost, z: ElevCost)
    requires Less(x, y) && Less(y, z)
    ensures Less(x, z)
  {
    if x.cost == y.cost == z.cost {
      StringLessTransitive(x.ip, y.ip, z.ip);
    }
  }

  /** `a` comes before `b` in a dictionary: up to some place they agree, and there `a` ends or has the
      smaller character. */
  ghost predicate Precedes(a: string, b: string) {
    exists k :: AgreeUpTo(a, b, k) && k < |b| && (k == |a| || a[k] < b[k])
  }

  predicate AgreeUpTo(a: string, b: string, k: int) {
    0 <= k <= |a| && k <= |b| && a[..k] == b[..k]
  }

  lemma SameHead(a: string, b: string, k: int)
    requires AgreeUpTo(a, b, k) && k > 0
    ensures a[0] == b[0]
  {
    assert a[..k][0] == a[0] && b[..k][0] == b[0];
  }

  lemma {:induction false} StringLessIff(a: string, b: string)
    ensures StringLess(a, b) <==> Precedes(a, b)
  {
    if a == "" || b == "" {
      assert AgreeUpTo(a, b, 0);
    } else if a[0] != b[0] {
      assert AgreeUpTo(a, b, 0);
      forall k | AgreeUpTo(a, b, k) ensures k == 0 {
        if k > 0 { SameHead(a, b, k); }
      }
    } else {
      StringLessIff(a[1..], b[1..]);
      if k :| AgreeUpTo(a[1..], b[1..], k) && k < |b| - 1 && (k == |a| - 1 || a[1..][k] < b[1..][k]) {
        assert a[..k + 1] == [a[0]] + a[1..][..k] && b[..k + 1] == [b[0]] + b[1..][..k];
        assert AgreeUpTo(a, b, k + 1);
      }
      if k :| AgreeUpTo(a, b, k) && k < |b| && (k == |a| || a[k] < b[k]) {
        assert a[1..][..k - 1] == a[..k][1..] && b[1..][..k - 1] == b[..k][1..];
        assert AgreeUpTo(a[1..], b[1..], k - 1);
      }
    }
  }

  /** What the source demands of its maps: every active elevator is known (else a nil
      dereference), and the walk ends on its state. */
  predicate CostReady(known: map<IP, Elevator>, active: set<IP>, m: Matrix, f: Floor, b: Button) {
    forall ip :: ip in active ==> ip in known && !Diverges(ExtendedElevState(known[ip].state, m), f, b)
  }

  function CostOf(state: ElevState, m: Matrix, f: Floor, b: Button): nat
    requires !Diverges(ExtendedElevState(state, m), f, b)
  {
    var e := Estimate(ExtendedElevState(state, m), f, b);
    e.0 * TRAVEL_TIME + e.1 * STOP_TIME_IN_FLOOR
  }

  /** The cost of every active elevator. */
  function Costs(known: map<IP, Elevator>, active: set<IP>, m: Matrix, f: Floor, b: Button): (c: map<IP, nat>)
    requires CostReady(known, active, m, f, b)
    ensures c.Keys == active
  {
    map ip | ip in active :: CostOf(known[ip].state, m, f, b)
  }

  function Entry(costs: map<IP, nat>, ip: IP): ElevCost
    requires ip in costs
  {
    ElevCost(costs[ip], ip)
  }

  ghost predicate Cheapest(costs: map<IP, nat>, ip: IP) {
    && ip in costs
    && forall o :: o in costs && o != ip ==> Less(Entry(costs, ip), Entry(costs, o))
  }

  lemma CheapestUnique(costs: map<IP, nat>, i: IP, j: IP)
    requires Cheapest(costs, i) && Cheapest(costs, j)
    ensures i == j
  {
    LessTotal(Entry(costs, i), Entry(costs, j));
  }

  lemma {:induction false} CheapestExists(costs: map<IP, nat>)
    requires costs.Keys != {}
    ensures exists ip :: Cheapest(costs, ip)
    decreases costs.Keys
  {
    var x :| x in costs;
    var others := costs - {x};
    if others.Keys == {} {
      assert costs.Keys == {x};
      assert Cheapest(costs, x);
    } else {
      CheapestExists(others);
      var y :| Cheapest(others, y);
      LessTotal(Entry(costs, x), Entry(costs, y));
      var z := if Less(Entry(costs, x), Entry(costs, y)) then x else y;
      forall o | o in costs && o != z
        ensures Less(Entry(costs, z), Entry(costs, o))
      {
        if o != x && o != y {
          assert o in others && Entry(others, o) == Entry(costs, o);
          if z == x { LessTransitive(Entry(costs, x), Entry(costs, y), Entry(costs, o)); }
        }
      }
      assert Cheapest(costs, z);
    }
  }

  /** The assignment as a function of the costs alone: no iteration order, no sorting. */
  ghost function Pick(costs: map<IP, nat>): (r: Result)
    ensures r.Ok? ==> Cheapest(costs, r.ip)
  {
    if costs.Keys == {} then
      Err(NoActiveElevators)
    else
      CheapestExists(costs);
      var ip :| Cheapest(costs, ip);
      if ip != "" then Ok(ip) else Err(NoAddress)
  }

  ghost function Assign(known: map<IP, Elevator>, active: set<IP>, m: Matrix, f: Floor, b: Button): Result
    requires CostReady(known, active, m, f, b)
  {
    Pick(Costs(known, active, m, f, b))
  }

  /** Elevator `i` is to take the order rather than `j`: twice the floors and three times the stops that
      the estimate gives for it are less, or as much and its address comes first. */
  ghost predicate Preferred(
    known: map<IP, Elevator>, m: Matrix, f: Floor, b: Button, i: IP, j: IP)
    requires i in known && !Diverges(ExtendedElevState(known[i].state, m), f, b)
    requires j in known && !Diverges(ExtendedElevState(known[j].state, m), f, b)
  {
    var e := Estimate(ExtendedElevState(known[i].state, m), f, b);
    var e' := Estimate(ExtendedElevState(known[j].state, m), f, b);
    var cost, cost' := 2 * e.0 + 3 * e.1, 2 * e'.0 + 3 * e'.1;
    cost < cost' || (cost == cost' && Precedes(i, j))
  }

  /** What the assignment is: the active elevator that is preferred to all other active ones. It fails
      when there is none, or when the one preferred to all others has no address. */
  lemma AssignMeans(known: map<IP, Elevator>, active: set<IP>, m: Matrix, f: Floor, b: Button)
    requires CostReady(known, active, m, f, b)
    ensures var r := Assign(known, active, m, f, b);
            && (r == Err(NoActiveElevators) <==> active == {})
            && (r.Ok? ==> r.ip != "" && r.ip in active
                          && forall j :: j in active && j != r.ip ==> Preferred(known, m, f, b, r.ip, j))
            && (r == Err(NoAddress) ==> "" in active
                                        && forall j :: j in active && j != "" ==> Preferred(known, m, f, b, "", j))
  {
    var costs := Costs(known, active, m, f, b);
    forall i, j | i in active && j in active && Less(Entry(costs, i), Entry(costs, j))
      ensures Preferred(known, m, f, b, i, j)
    {
      StringLessIff(i, j);
    }
    if active != {} {
      CheapestExists(costs);
      var ip :| Cheapest(costs, ip);
      forall j | Cheapest(costs, j) ensures j == ip {
        CheapestUnique(costs, j, ip);
      }
      assert forall j :: j in active && j != ip ==> Less(Entry(costs, ip), Entry(costs, j));
    }
  }

  /** All that the choice depends on: heartbeat times and acknowledgements do not count. */
  ghost predicate SameView(
    known: map<IP, Elevator>, m: Matrix, known': map<IP, Elevator>, m': Matrix, active: set<IP>)
  {
    && (forall ip :: ip in active ==> ip in known && ip in known' && known[ip].state == known'[ip].state)
    && (forall f: Floor, h: Hall ::
          m[f].Get(h).status == m'[f].Get(h).status && m[f].Get(h).assignedTo == m'[f].Get(h).assignedTo)
  }

  lemma SameEstimate(state: ElevState, m: Matrix, m': Matrix, f: Floor, b: Button)
    requires forall g: Floor, h: Hall ::
               m[g].Get(h).status == m'[g].Get(h).status && m[g].Get(h).assignedTo == m'[g].Get(h).assignedTo
    requires !Diverges(ExtendedElevState(state, m), f, b)
    ensures Estimate(ExtendedElevState(state, m), f, b) == Estimate(ExtendedElevState(state, m'), f, b)
  {
    var s, s' := ExtendedElevState(state, m), ExtendedElevState(state, m');
    assert forall g: Floor, c: Button :: s.Own(g, c) == s'.Own(g, c);
    assert Marks(s) == Marks(s');
    MarksAgree(s, state.lastFloor);
    MarksAgree(s', state.lastFloor);
  }

  /** Any two nodes with equal relevant views of the active elevators choose the same elevator. */
  lemma SameViewSameChoice(
    known: map<IP, Elevator>, m: Matrix, known': map<IP, Elevator>, m': Matrix,
    active: set<IP>, f: Floor, b: Button)
    requires CostReady(known, active, m, f, b)
    requires SameView(known, m, known', m', active)
    ensures CostReady(known', active, m', f, b)
    ensures Assign(known, active, m, f, b) == Assign(known', active, m', f, b)
  {
    forall ip | ip in active
      ensures CostOf(known[ip].state, m, f, b) == CostOf(known'[ip].state, m', f, b)
    {
      SameEstimate(known[ip].state, m, m', f, b);
    }
    assert Costs(known, active, m, f, b) == Costs(known', active, m', f, b);
  }

  // ---------------------------------------------------------------- sorting in place

  ghost predicate SortedBelow(q: seq<ElevCost>, n: int) {
    forall i, j :: 0 <= i < n && i < j < |q| ==> !Less(q[j], q[i])
  }

  /** `elevCosts.Swap`, cost.go:56-58. */
  method Swap(a: array<ElevCost>, i: nat, j: nat)
    requires i < a.Length && j < a.Length
    modifies a
    ensures a[..] == old(a[..])[i := old(a[j])][j := old(a[i])]
    ensures multiset(a[..]) == old(multiset(a[..]))
  {
    a[i], a[j] := a[j], a[i];
  }

  method LeastFrom(a: array<ElevCost>, start: nat) returns (k: nat)
    requires start < a.Length
    ensures start <= k < a.Length
    ensures forall j :: start <= j < a.Length ==> !Less(a[j], a[k])
  {
    k := start;
    LessTotal(a[k], a[k]);
    for i := start + 1 to a.Length
      invariant start <= k < a.Length
      invariant forall j :: start <= j < i ==> !Less(a[j], a[k])
    {
      if Less(a[i], a[k]) {
        forall j | start <= j <= i ensures !Less(a[j], a[i]) {
          LessTotal(a[i], a[j]);
          if Less(a[j], a[i]) { LessTransitive(a[j], a[i], a[k]); }
        }
        k := i;
      }
    }
  }

  /** A sort that touches the slice only through `Less` and `Swap`, as `sort.Sort` does. */
  method Sort(a: array<ElevCost>)
    modifies a
    ensures SortedBelow(a[..], a.Length)
    ensures multiset(a[..]) == old(multiset(a[..]))
  {
    for i := 0 to a.Length
      invariant SortedBelow(a[..], i)
      invariant multiset(a[..]) == old(multiset(a[..]))
    {
      var k := LeastFrom(a, i);
      ghost var before := a[..];
      Swap(a, i, k);
      assert forall j :: i <= j < a.Length ==> a[j] == before[j] || a[j] == before[i] || a[j] == before[k];
    }
  }

  /** The first element of any sorted arrangement of the costs is the cheapest elevator, whatever
      order the map was walked in and whatever swaps the sort made. */
  lemma SortedHeadIsCheapest(costs: map<IP, nat>, q: seq<ElevCost>)
    requires costs.Keys != {}
    requires forall ip :: ip in costs ==> Entry(costs, ip) in q
    requires forall e :: e in q ==> e.ip in costs && e == Entry(costs, e.ip)
    requires SortedBelow(q, |q|)
    ensures |q| > 0 && Cheapest(costs, q[0].ip)
    ensures Pick(costs) == if q[0].ip != "" then Ok(q[0].ip) else Err(NoAddress)
  {
    var x :| x in costs;
    assert Entry(costs, x) in q;
    assert q[0] in q;
    forall o | o in costs && o != q[0].ip
      ensures Less(q[0], Entry(costs, o))
    {
      var j :| 0 <= j < |q| && q[j] == Entry(costs, o);
      LessTotal(q[0], q[j]);
    }
    forall j | Cheapest(costs, j) ensures q[0].ip == j {
      CheapestUnique(costs, q[0].ip, j);
    }
  }

  method CostToOrder(
    known: map<IP, Elevator>, active: map<IP, bool>, m: Matrix, f: Floor, b: Button, ip: IP)
    returns (costToOrder: nat)
    requires CostReady(known, active.Keys, m, f, b) && ip in active
    ensures costToOrder == Costs(known, active.Keys, m, f, b)[ip]
  {
    var numOfFloors, numStops := LengthToOrder(ExtendedElevState(known[ip].state, m), f, b);
    costToOrder := numOfFloors * TRAVEL_TIME + numStops * STOP_TIME_IN_FLOOR;
  }

  /** The loop over the active map, cost.go:21-28, which is walked in an arbitrary order. */
  method CollectCosts(
    known: map<IP, Elevator>, active: map<IP, bool>, m: Matrix, f: Floor, b: Button)
    returns (cost: seq<ElevCost>)
    requires CostReady(known, active.Keys, m, f, b)
    ensures var costs := Costs(known, active.Keys, m, f, b);
            && (forall ip :: ip in costs ==> Entry(costs, ip) in cost)
            && (forall e :: e in cost ==> e.ip in costs && e == Entry(costs, e.ip))
  {
    ghost var costs := Costs(known, active.Keys, m, f, b);
    cost := [];
    var todo := active.Keys;
    while todo != {}
      invariant todo <= active.Keys
      invariant forall ip :: ip in costs && ip !in todo ==> Entry(costs, ip) in cost
      invariant forall e :: e in cost ==> e.ip in costs && e == Entry(costs, e.ip)
    {
      var ip :| ip in todo;
      var costToOrder := CostToOrder(known, active, m, f, b, ip);
      cost := cost + [ElevCost(costToOrder, ip)];
      todo := todo - {ip};
    }
  }

  /** cost.go:15-36. */
  method AssignNewOrder(
    known: map<IP, Elevator>, active: map<IP, bool>, m: Matrix, f: Floor, b: Button)
    returns (r: Result)
    requires CostReady(known, active.Keys, m, f, b)
    ensures r == Assign(known, active.Keys, m, f, b)
    ensures r == Err(NoActiveElevators) <==> active.Keys == {}
    ensures r.Ok? ==> r.ip != "" && r.ip in active
                      && forall j :: j in active && j != r.ip ==> Preferred(known, m, f, b, r.ip, j)
    ensures r == Err(NoAddress) ==>
              "" in active && forall j :: j in active && j != "" ==> Preferred(known, m, f, b, "", j)
  {
    AssignMeans(known, active.Keys, m, f, b);
    if |active| == 0 {
      return Err(NoActiveElevators);
    }
    var collected := CollectCosts(known, active, m, f, b);
    var cost := new ElevCost[|collected|](i requires 0 <= i < |collected| => collected[i]);
    assert cost[..] == collected;
    Sort(cost);
    assert forall e :: e in cost[..] <==> e in multiset(cost[..]);
    assert forall e :: e in collected <==> e in multiset(collected);
    SortedHeadIsCheapest(Costs(known, active.Keys, m, f, b), cost[..]);
    if cost[0].ip != "" {
      return Ok(cost[0].ip);
    } else {
      return Err(NoAddress);
    }
  }
}
