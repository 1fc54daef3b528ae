/** Recovering state from the other nodes, main.go:158-188: any number of replies, in any order and
    with duplicates. */
module Restoring {
  import opened Typedef
  import opened Cars
  import opened Nodes
  import opened Network

  /** Replies to this node's request. */
  predicate Replies(n: Node, rs: seq<RestoreMsg>) {
    forall r :: r in rs ==> r.EvRestoredStateReturned? && r.asker == n.ip
  }

  function After(n: Node, rs: seq<RestoreMsg>): (n': Node)
    requires n.Valid() && Replies(n, rs)
    ensures n'.Valid() && n'.ip == n.ip
  {
    if rs == [] then n
    else
      var before := After(n, rs[..|rs| - 1]);
      var r := rs[|rs| - 1];
      NextValid(before, Restoration(r, 0));
      before.OnRestoreMsg(r, 0).node
  }

  /** The reply offers an order that this node may take over: one under execution by another car. */
  predicate Offers(r: RestoreMsg, ip: IP, f: Floor, h: Hall) {
    && r.EvRestoredStateReturned?
    && r.matrix[f].Get(h).status == UnderExecution
    && r.matrix[f].Get(h).assignedTo != ip
  }

  /** One reply. */
  lemma OneReply(n: Node, r: RestoreMsg, f: Floor, h: Hall)
    requires n.Valid() && r.EvRestoredStateReturned? && r.asker == n.ip
    ensures var n' := n.OnRestoreMsg(r, 0).node;
            && n'.Valid() && n'.ip == n.ip
            && n'.State().internalOrders[f] == (n.State().internalOrders[f] || r.state.internalOrders[f])
            && n'.Slot(f, h) == (if n.Slot(f, h).status == NotActive && Offers(r, n.ip, f, h)
                                 then ElevOrder(UnderExecution, r.matrix[f].Get(h).assignedTo, {}) else n.Slot(f, h))
  {
    NextValid(n, Restoration(r, 0));
    assert n.Adopt(r.matrix)[f].Get(h) == n.AdoptSlot(r.matrix, f, h);
  }

  /** Restoring is a join. Internal orders are united; an order already active is left alone; an
      inactive one becomes active exactly if some reply offers it, with an assignee that some reply
      names; and no order assigned to the asker itself is taken over. */
  lemma {:induction false} RestoreIsJoin(n: Node, rs: seq<RestoreMsg>, f: Floor, h: Hall)
    requires n.Valid() && Replies(n, rs)
    ensures After(n, rs).State().internalOrders[f]
            == (n.State().internalOrders[f]
                || exists r :: r in rs && r.EvRestoredStateReturned? && r.state.internalOrders[f])
    ensures n.Slot(f, h).status != NotActive || !(exists r :: r in rs && Offers(r, n.ip, f, h)) ==>
              After(n, rs).Slot(f, h) == n.Slot(f, h)
    ensures n.Slot(f, h).status == NotActive && (exists r :: r in rs && Offers(r, n.ip, f, h)) ==>
              && After(n, rs).Slot(f, h).status == UnderExecution
              && After(n, rs).Slot(f, h).assignedTo != n.ip
              && exists r :: r in rs && Offers(r, n.ip, f, h)
                             && After(n, rs).Slot(f, h).assignedTo == r.matrix[f].Get(h).assignedTo
  {
    if rs == [] {
    } else {
      var front, last := rs[..|rs| - 1], rs[|rs| - 1];
      RestoreIsJoin(n, front, f, h);
      OneReply(After(n, front), last, f, h);
      assert last in rs;
      assert forall r :: r in rs <==> r in front || r == last;
    }
  }

  /** So order and duplicates do not matter: two nodes that hear the same set of replies end with
      the same internal orders and the same external orders active. */
  lemma RestoreOrderIndependent(n: Node, rs: seq<RestoreMsg>, qs: seq<RestoreMsg>)
    requires n.Valid() && Replies(n, rs) && Replies(n, qs)
    requires forall r :: r in rs <==> r in qs
    ensures After(n, rs).State().internalOrders == After(n, qs).State().internalOrders
    ensures forall f: Floor, h: Hall :: After(n, rs).Slot(f, h).status == After(n, qs).Slot(f, h).status
  {
    var a, b := After(n, rs), After(n, qs);
    forall f: Floor ensures a.State().internalOrders[f] == b.State().internalOrders[f] {
      SameOutcome(n, rs, qs, f, CallUp);
    }
    forall f: Floor, h: Hall ensures a.Slot(f, h).status == b.Slot(f, h).status {
      SameOutcome(n, rs, qs, f, h);
    }
  }

  lemma SameOutcome(n: Node, rs: seq<RestoreMsg>, qs: seq<RestoreMsg>, f: Floor, h: Hall)
    requires n.Valid() && Replies(n, rs) && Replies(n, qs)
    requires forall r :: r in rs <==> r in qs
    ensures After(n, rs).State().internalOrders[f] == After(n, qs).State().internalOrders[f]
    ensures After(n, rs).Slot(f, h).status == After(n, qs).Slot(f, h).status
  {
    RestoreIsJoin(n, rs, f, h);
    RestoreIsJoin(n, qs, f, h);
  }
}
