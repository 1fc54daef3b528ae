/** Bounded service: an own order is served within 2 * (N_FLOORS - 1) floor arrivals, whatever
    further orders, confirmations and restore replies arrive. */
module Service {
  import opened Typedef
  import opened CostWalk
  import opened Cars
  import opened CarRun

  function Max(a: nat, b: nat): nat { if a < b then b else a }

  /** Floor arrivals left, at most, until the car serves (t, b). A car that has not chosen a
      direction may take either, and so may one that stands at the floor of the order. */
  function Rank(c: Car, t: Floor, b: Button): nat {
    if c.Heading() == Stop || (!c.Moving() && c.At() == t) then Max(Sweep(Up, c.At(), t, b), Sweep(Down, c.At(), t, b))
    else Sweep(c.Heading(), c.At(), t, b)
  }

  lemma RankBounds(c: Car, t: Floor, b: Button)
    requires Sound(c) && c.view.Own(t, b)
    ensures 1 <= Rank(c, t, b) <= 2 * (N_FLOORS - 1)
  {
  }

  /** Closing the door may choose a new direction; it never puts an own order further away. */
  lemma DoorKeepsRank(c: Car, t: Floor, b: Button)
    requires Sound(c) && c.doorTimer && c.view.Own(t, b)
    ensures Rank(c.DoorTimeout(), t, b) <= Rank(c, t, b)
  {
    DoorFacts(c);
    assert c.view.OwnAt(t);
    assert t > c.At() ==> c.view.OwnAbove(c.At());
    assert t < c.At() ==> c.view.OwnBelow(c.At());
  }

  /** Every floor arrival that does not serve the order brings its service one floor nearer. */
  lemma ArrivalLowersRank(c: Car, c': Car, t: Floor, b: Button)
    requires Sound(c) && Step(c, Arrival, c')
    requires c.view.Own(t, b) && c'.view.Own(t, b)
    ensures Rank(c', t, b) < Rank(c, t, b)
  {
    var f := c.At() + c.Heading().Delta();
    FloorReachedOwn(c, f, t, b);
    var here := c.view.(localState := c.view.localState.(lastFloor := f));
    assert here.Own(t, b);
    if t > f { assert here.OwnAt(t); assert here.HaveOrdersAbove(); }
    if t < f { assert here.OwnAt(t); assert here.HaveOrdersBelow(); }
  }

  /** No event raises the rank of an order that stays own; arrivals lower it. */
  lemma StepRank(c: Car, e: Event, c': Car, t: Floor, b: Button)
    requires Sound(c) && Step(c, e, c')
    requires c.view.Own(t, b) && c'.view.Own(t, b)
    ensures Rank(c', t, b) + (if e.Arrival? then 1 else 0) <= Rank(c, t, b)
  {
    hide Sweep, Sound;
    if e.Arrival? {
      ArrivalLowersRank(c, c', t, b);
    } else if e.DoorClosed? {
      DoorKeepsRank(c, t, b);
    } else {
      OthersDoNotMove(c, e, c');
    }
  }

  function Arrivals(es: seq<Event>): nat {
    if es == [] then 0 else Arrivals(es[..|es| - 1]) + if es[|es| - 1].Arrival? then 1 else 0
  }

  lemma {:induction false} RunRank(cs: seq<Car>, es: seq<Event>, t: Floor, b: Button)
    requires Run(cs, es) && Sound(cs[0])
    requires forall i :: 0 <= i < |cs| ==> cs[i].view.Own(t, b)
    ensures Arrivals(es) + Rank(cs[|es|], t, b) <= Rank(cs[0], t, b)
  {
    var n := |es|;
    if n == 0 {
    } else {
      RunRank(cs[..n], es[..n - 1], t, b);
      RunSound(cs, es, n - 1);
      StepRank(cs[n - 1], es[n - 1], cs[n], t, b);
    }
  }

  /** Bounded service without starvation: in a run in which an own order (t, b) sees 2 * (N - 1) floor
      arrivals it leaves, and by the last of them: at the stop that serves it, unless a message takes
      it away first. Whatever else happens in the run. */
  lemma BoundedService(cs: seq<Car>, es: seq<Event>, t: Floor, b: Button) returns (i: nat)
    requires Run(cs, es) && Sound(cs[0]) && cs[0].view.Own(t, b)
    requires Arrivals(es) >= 2 * (N_FLOORS - 1)
    ensures i < |es| && Arrivals(es[..i]) < 2 * (N_FLOORS - 1)
    ensures cs[i].view.Own(t, b) && !cs[i + 1].view.Own(t, b)
    ensures es[i].Arrival? || es[i].Protocol?
    ensures es[i].Arrival? ==> cs[i + 1].At() == t && !cs[i + 1].Moving() && cs[i + 1].doorLamp
  {
    RankBounds(cs[0], t, b);
    if forall k :: 0 <= k < |cs| ==> cs[k].view.Own(t, b) {
      RunRank(cs, es, t, b);
      RunSound(cs, es, |es|);
      RankBounds(cs[|es|], t, b);
      assert false;
    } else {
      var j :| 0 <= j < |cs| && !cs[j].view.Own(t, b);
      i := FirstGone(cs, es, t, b, j);
      RunRank(cs[..i + 1], es[..i], t, b);
      RunSound(cs, es, i);
      RankBounds(cs[i], t, b);
      LeavesOnlyByService(cs[i], es[i], cs[i + 1], t, b);
    }
  }

  lemma {:induction false} FirstGone(cs: seq<Car>, es: seq<Event>, t: Floor, b: Button, j: nat) returns (i: nat)
    requires Run(cs, es) && cs[0].view.Own(t, b) && j < |cs| && !cs[j].view.Own(t, b)
    ensures i < j && (forall k :: 0 <= k <= i ==> cs[k].view.Own(t, b)) && !cs[i + 1].view.Own(t, b)
  {
    if k :| 0 <= k < j && !cs[k].view.Own(t, b) {
      i := FirstGone(cs, es, t, b, k);
    } else {
      i := j - 1;
    }
  }
}
