/** What one event at one node does to one order slot. */
module Slots {
  import opened Typedef
  import opened Cars
  import opened Nodes
  import opened Network

  /** The event leaves the slot, its queue, its timers and its messages alone. */
  predicate Untouched(n: Node, out: Out, f: Floor, h: Hall) {
    && out.node.Slot(f, h) == n.Slot(f, h)
    && (forall m :: m in out.orders ==> !m.Is(f, h))
    && (forall m :: m in out.node.queue && m.Is(f, h) ==> m in n.queue)
    && (forall m :: m in out.node.armed && m.Is(f, h) ==> m in n.armed)
    && (forall t :: t in out.node.running && t.0 == f && t.1 == h ==> t in n.running)
  }

  lemma OtherNewOrder(n: Node, m: OrderMsg, f: Floor, h: Hall)
    requires n.Valid() && !m.Is(f, h)
    ensures Untouched(n, n.OnNewOrder(m), f, h)
  {
  }

  lemma OtherAckNewOrder(n: Node, m: OrderMsg, f: Floor, h: Hall)
    requires n.Valid() && !m.Is(f, h)
    ensures Untouched(n, n.OnAckNewOrder(m), f, h)
  {
  }

  lemma OtherAckOrderConfirmed(n: Node, m: OrderMsg, f: Floor, h: Hall)
    requires n.Valid() && !m.Is(f, h)
    ensures Untouched(n, n.OnAckOrderConfirmed(m), f, h)
  {
  }

  lemma OtherOrderDone(n: Node, m: OrderMsg, f: Floor, h: Hall)
    requires n.Valid() && !m.Is(f, h)
    ensures Untouched(n, n.OnOrderDone(m), f, h)
  {
  }

  lemma OtherAckOrderDone(n: Node, m: OrderMsg, f: Floor, h: Hall)
    requires n.Valid() && !m.Is(f, h)
    ensures Untouched(n, n.OnAckOrderDone(m), f, h)
  {
  }

  lemma OtherReassignOrder(n: Node, m: OrderMsg, f: Floor, h: Hall)
    requires n.Valid() && !m.Is(f, h)
    ensures Untouched(n, n.OnReassignOrder(m), f, h)
  {
  }

  lemma OtherSlot(n: Node, m: OrderMsg, f: Floor, h: Hall)
    requires n.Valid() && !m.Is(f, h)
    ensures Untouched(n, n.Receive(m), f, h)
  {
    if m.event == EvOrderConfirmed {
      ConfirmOtherSlot(n, m, f, h);
    } else {
      OtherNewOrder(n, m, f, h);
      OtherAckNewOrder(n, m, f, h);
      OtherAckOrderConfirmed(n, m, f, h);
      OtherOrderDone(n, m, f, h);
      OtherAckOrderDone(n, m, f, h);
      OtherReassignOrder(n, m, f, h);
    }
  }

  lemma ConfirmSlot(c: Car, g: Floor, k: Hall, a: IP, f: Floor, h: Hall)
    ensures var c' := c.Confirm(g, k, a);
            && (f != g || h != k ==> c'.0.Slot(f, h) == c.Slot(f, h))
            && (f == g && h == k ==>
                  c'.0.Slot(f, h) == c.Slot(f, h).(status := if c'.1 then NotActive else UnderExecution))
  {
  }

  lemma ConfirmOtherSlot(n: Node, m: OrderMsg, f: Floor, h: Hall)
    requires n.Valid() && !m.Is(f, h)
    ensures Untouched(n, n.OnOrderConfirmed(m), f, h)
  {
    ConfirmSlot(n.Car(), m.floor, m.button, m.assignedTo, f, h);
  }

  lemma FloorMessages(n: Node, g: Floor, m: OrderMsg)
    requires n.Valid()
    ensures m in n.OnFloorReached(g).orders <==>
            exists x :: x in n.Car().FloorReached(g).1 && m == DoneMsg(n.ip, x)
  {
    var served := n.Car().FloorReached(g).1;
    var sent := n.OnFloorReached(g).orders;
    assert |sent| == |served| && forall k :: 0 <= k < |served| ==> sent[k] == DoneMsg(n.ip, served[k]);
  }

  /** A floor event either serves the slot, and says so, or leaves it alone. */
  lemma FloorSlot(n: Node, g: Floor, f: Floor, h: Hall)
    requires n.Valid()
    ensures Untouched(n, n.OnFloorReached(g), f, h)
            || exists m :: m in n.OnFloorReached(g).orders && m.Is(f, h) && m.event == EvOrderDone
  {
    var out := n.OnFloorReached(g);
    var served := n.Car().FloorReached(g).1;
    if x :| x in served && x.floor == f && x.button == h {
      FloorMessages(n, g, DoneMsg(n.ip, x));
    } else {
      forall m | m in out.orders ensures !m.Is(f, h) {
        FloorMessages(n, g, m);
      }
      ClearAllSlot(n.matrix, served, f, h);
      assert out.node.Slot(f, h) == n.Slot(f, h);
    }
  }

  lemma TimeoutElsewhere(n: Node, g: Floor, k: Hall, origin: IP, a: IP, f: Floor, h: Hall)
    requires g != f || k != h
    ensures Untouched(n, n.OnExecutionTimeout(g, k, origin, a), f, h)
  {
  }

  /** A restore reply can activate the slot, and otherwise leaves it alone. */
  lemma RestorationSlot(n: Node, r: RestoreMsg, now: int, f: Floor, h: Hall)
    requires n.Valid()
    ensures var o, out := n.Slot(f, h), n.OnRestoreMsg(r, now);
            && out.orders == [] && out.node.queue == n.queue && out.node.armed == n.armed && out.node.ip == n.ip
            && (o.status != NotActive ==> out.node.Slot(f, h) == o)
            && (out.node.Slot(f, h) == o || out.node.Slot(f, h).status == UnderExecution)
            && (forall t :: t in out.node.running && t !in n.running && t.0 == f && t.1 == h ==>
                  out.node.Slot(f, h).status == UnderExecution)
  {
    if r.EvRestoredStateReturned? {
      assert n.Adopt(r.matrix)[f].Get(h) == n.AdoptSlot(r.matrix, f, h);
    }
  }
}
