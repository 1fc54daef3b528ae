/** What the records that nodes keep of each other mean: when an elevator was last heard from, and in
    which state; what nodes publish of themselves; and so what comes back to a node that asks for its
    state. */
module Records {
  import opened Typedef
  import opened Cars
  import CarRun
  import opened Nodes
  import opened Network
  import opened Views
  import Restoring

  // ---------------------------------------------------------------- when an elevator was last heard from

  /** The restore message is a backup of elevator `j` itself, for another node `i`. */
  predicate BackupOf(i: IP, r: RestoreMsg, j: IP) {
    r.EvBackupState? && r.responder == j == r.state.localIP && j != i
  }

  /** The event is a sign of life of elevator `j` at node `i`: an EvIAmAlive or a backup. */
  predicate SignOfLife(i: IP, e: NodeEvent, j: IP) {
    e.Restoration? && ((e.r.EvIAmAlive? && e.r.responder == j) || BackupOf(i, e.r, j))
  }

  /** The clock reading of the last sign of life of elevator `j` that node `i` handled before step `k`
      of the run, or when it had its first record, of itself. */
  function LastHeard(ss: seq<Sys>, who: seq<IP>, es: seq<NodeEvent>, i: IP, j: IP, k: nat): Option<int>
    requires |ss| == |es| + 1 == |who| + 1 && k <= |es|
  {
    if k == 0 then
      if i in ss[0].nodes && j in ss[0].nodes[i].known then Some(ss[0].nodes[i].known[j].time) else None
    else if who[k - 1] == i && SignOfLife(i, es[k - 1], j) then Some(es[k - 1].now)
    else LastHeard(ss, who, es, i, j, k - 1)
  }

  lemma NextTime(n: Node, e: NodeEvent, j: IP)
    requires n.Valid() && (e.Queued? ==> n.queue != [])
    ensures var n' := Next(n, e).node;
            && (j in n'.known <==> j in n.known || SignOfLife(n.ip, e, j))
            && (j in n'.known ==> n'.known[j].time == if SignOfLife(n.ip, e, j) then e.now else n.known[j].time)
  {
    hide Node.Receive, Node.OnFloorReached;
    if e.Message? {
      ReceiveTime(n, e.m, j);
    } else if e.FloorEvent? {
      FloorTime(n, e.reached, j);
    } else if e.Queued? {
      ReceiveTime(n.(queue := n.queue[1..]), n.queue[0], j);
    }
  }

  lemma FloorTime(n: Node, f: Floor, j: IP)
    requires n.Valid()
    ensures var n' := n.OnFloorReached(f).node;
            (j in n'.known <==> j in n.known) && (j in n'.known ==> n'.known[j].time == n.known[j].time)
  {
  }

  lemma ReceiveTime(n: Node, m: OrderMsg, j: IP)
    requires n.Valid()
    ensures var n' := n.Receive(m).node;
            (j in n'.known <==> j in n.known) && (j in n'.known ==> n'.known[j].time == n.known[j].time)
  {
    if m.event == EvOrderConfirmed {
      assert n.Receive(m) == n.OnOrderConfirmed(m);
    } else {
      ReceiveKeepsViews(n, m);
    }
  }

  /** The time in a node's record is that of the last sign of life it handled. */
  lemma {:induction false} TimeIsLastHeard(ss: seq<Sys>, who: seq<IP>, es: seq<NodeEvent>, i: IP, j: IP, k: nat)
    requires SysRun(ss, who, es) && k < |ss| && i in ss[0].nodes
    ensures i in ss[k].nodes && (j in ss[k].nodes[i].known <==> LastHeard(ss, who, es, i, j, k).Some?)
    ensures j in ss[k].nodes[i].known ==> Some(ss[k].nodes[i].known[j].time) == LastHeard(ss, who, es, i, j, k)
  {
    hide Next, Chosen;
    NodesStay(ss, who, es, k);
    if k == 0 {
    } else {
      TimeIsLastHeard(ss, who, es, i, j, k - 1);
      assert Steps(ss[k - 1], who[k - 1], es[k - 1], ss[k]);
      if who[k - 1] == i {
        NextTime(ss[k - 1].nodes[i], es[k - 1], j);
      }
    }
  }

  /** What a node takes for active changes only when it goes over the elevators. */
  lemma ActiveStays(n: Node, e: NodeEvent)
    requires n.Valid() && (e.Queued? ==> n.queue != []) && PassAt(n, e).None?
    ensures Next(n, e).node.active == n.active
  {
    if e.Message? {
      ReceiveActive(n, e.m);
    } else if e.Queued? {
      ReceiveActive(n.(queue := n.queue[1..]), n.queue[0]);
    }
  }

  lemma ReceiveActive(n: Node, m: OrderMsg)
    requires n.Valid()
    ensures n.Receive(m).node.active == n.active
  {
    if m.event == EvOrderConfirmed {
      assert n.Receive(m) == n.OnOrderConfirmed(m);
    } else {
      ReceiveKeepsViews(n, m);
    }
  }

  /** Right after every pass over the elevators, a node takes for active exactly those of which its last
      sign of life is at most three ticks of 100 ms and 10 ms old (in nanoseconds); and between passes
      nothing changes. */
  lemma LivenessView(ss: seq<Sys>, who: seq<IP>, es: seq<NodeEvent>, k: nat, j: IP)
    requires SysRun(ss, who, es) && InitSys(ss[0]) && k < |es|
    ensures who[k] in ss[k].nodes && who[k] in ss[k + 1].nodes
    ensures var i, n, n' := who[k], ss[k].nodes[who[k]], ss[k + 1].nodes[who[k]];
            if PassAt(n, es[k]).Some? then
              j in n'.active <==>
                && LastHeard(ss, who, es, i, j, k + 1).Some?
                && PassAt(n, es[k]).value - LastHeard(ss, who, es, i, j, k + 1).value <= 3 * 100_000_000 + 10_000_000
            else
              n'.active == n.active
  {
    hide Next, Chosen, LastHeard;
    RunOk(ss, who, es, k);
    assert Steps(ss[k], who[k], es[k], ss[k + 1]);
    var n := ss[k].nodes[who[k]];
    assert NodeOk(n);
    NodesStay(ss, who, es, k);
    TimeIsLastHeard(ss, who, es, who[k], j, k + 1);
    if PassAt(n, es[k]).Some? {
      PassFreshens(n, es[k]);
    } else {
      ActiveStays(n, es[k]);
    }
  }

  // ---------------------------------------------------------------- in which state

  /** The state of elevator `j` in the last backup of it that node `i` handled before step `k`, or, as
      long as there is none, in the EvIAmAlive by which `i` first heard of it. */
  function LastState(ss: seq<Sys>, who: seq<IP>, es: seq<NodeEvent>, i: IP, j: IP, k: nat): Option<ElevState>
    requires |ss| == |es| + 1 == |who| + 1 && k <= |es|
  {
    if k == 0 then None
    else if who[k - 1] == i && es[k - 1].Restoration? && BackupOf(i, es[k - 1].r, j) then Some(es[k - 1].r.state)
    else if who[k - 1] == i && SignOfLife(i, es[k - 1], j) && LastHeard(ss, who, es, i, j, k - 1).None?
    then Some(es[k - 1].r.state)
    else LastState(ss, who, es, i, j, k - 1)
  }

  lemma NextState(n: Node, e: NodeEvent, n': Node, j: IP)
    requires n.Valid() && (e.Queued? ==> n.queue != []) && n' == Next(n, e).node && j != n.ip && j in n'.known
    ensures j !in n.known ==> SignOfLife(n.ip, e, j)
    ensures n'.known[j].state ==
            if (e.Restoration? && BackupOf(n.ip, e.r, j)) || j !in n.known then e.r.state else n.known[j].state
  {
    NextTime(n, e, j);
    if e.Message? {
      ReceiveState(n, e.m, j);
    } else if e.Queued? {
      ReceiveState(n.(queue := n.queue[1..]), n.queue[0], j);
    }
  }

  lemma ReceiveState(n: Node, m: OrderMsg, j: IP)
    requires n.Valid() && j != n.ip && j in n.known
    ensures j in n.Receive(m).node.known && n.Receive(m).node.known[j] == n.known[j]
  {
    if m.event == EvOrderConfirmed {
      assert n.Receive(m) == n.OnOrderConfirmed(m);
    } else {
      ReceiveKeepsViews(n, m);
    }
  }

  lemma {:induction false} StateIsLast(ss: seq<Sys>, who: seq<IP>, es: seq<NodeEvent>, i: IP, j: IP, k: nat)
    requires SysRun(ss, who, es) && InitSys(ss[0]) && k < |ss| && i in ss[0].nodes && j != i
    ensures i in ss[k].nodes
    ensures j in ss[k].nodes[i].known ==> Some(ss[k].nodes[i].known[j].state) == LastState(ss, who, es, i, j, k)
  {
    hide Next, Chosen, LastHeard;
    NodesStay(ss, who, es, k);
    if k == 0 {
      assert InitNode(ss[0].nodes[i]);
    } else {
      StateIsLast(ss, who, es, i, j, k - 1);
      assert Steps(ss[k - 1], who[k - 1], es[k - 1], ss[k]);
      TimeIsLastHeard(ss, who, es, i, j, k - 1);
      if who[k - 1] == i && j in ss[k].nodes[i].known {
        NextState(ss[k - 1].nodes[i], es[k - 1], ss[k].nodes[i], j);
      }
    }
  }

  // ---------------------------------------------------------------- what nodes publish of themselves

  /** The car's own events publish its new state and matrix, and every tick its state. */
  lemma EventsPublish(n: Node, e: NodeEvent)
    requires n.Valid()
    requires e.CabPress? || e.FloorEvent? || e.DoorEvent? || e.AliveTick?
    ensures Next(n, e).node.Valid()
    ensures var n' := Next(n, e).node;
            Next(n, e).restores == if e.AliveTick? then [EvIAmAlive(n.ip, n.State())]
                                   else [EvBackupState(n.ip, n'.State(), n'.matrix)]
  {
    NextValid(n, e);
  }

  /** Whatever a node publishes as its state, is its state: after the event, or, when it opens its door
      for a confirmed order while it stands with a direction (main.go:322), before it. */
  lemma PublishedIsOwn(n: Node, e: NodeEvent, r: RestoreMsg)
    requires n.Valid() && (e.Queued? ==> n.queue != []) && r in Next(n, e).restores
    ensures Next(n, e).node.Valid()
    ensures !r.EvRequestingState?
    ensures r.EvIAmAlive? || r.EvBackupState? ==>
              && r.responder == n.ip == r.state.localIP
              && (r.state == Next(n, e).node.State()
                  || (r.state == n.State() && Handled(n, e).Some? && Handled(n, e).value.event == EvOrderConfirmed))
    ensures r.EvRestoredStateReturned? ==> e.Restoration? && e.r == EvRequestingState(r.asker)
  {
    NextValid(n, e);
    if e.Message? {
      ReceivePublishes(n, e.m, r);
    } else if e.Queued? {
      ReceivePublishes(n.(queue := n.queue[1..]), n.queue[0], r);
    }
  }

  lemma ReceivePublishes(n: Node, m: OrderMsg, r: RestoreMsg)
    requires n.Valid() && r in n.Receive(m).restores
    ensures n.Receive(m).node.Valid() && m.event == EvOrderConfirmed
    ensures r.EvBackupState? && r.responder == n.ip == r.state.localIP
    ensures r.state == n.Receive(m).node.State() || r.state == n.State()
  {
    ReceiveValid(n, m);
    if m.event == EvOrderConfirmed {
      assert n.Receive(m) == n.OnOrderConfirmed(m);
      var c := n.Car().Confirm(m.floor, m.button, m.assignedTo);
      assert c.1 ==> n.OnOrderConfirmed(m).node.State() == c.0.view.localState;
    } else {
      ReceiveKeepsViews(n, m);
    }
  }

  /** At step `l` node `j` sends `r`. */
  predicate SentAt(ss: seq<Sys>, who: seq<IP>, es: seq<NodeEvent>, l: nat, j: IP, r: RestoreMsg)
    requires |ss| == |es| + 1 == |who| + 1 && l < |es|
  {
    && who[l] == j && j in ss[l].nodes
    && var n := ss[l].nodes[j];
       n.Valid() && n.ip == j && (es[l].Queued? ==> n.queue != []) && r in Next(n, es[l]).restores
  }

  lemma {:induction false} RestoreSource(
    ss: seq<Sys>, who: seq<IP>, es: seq<NodeEvent>, k: nat, r: RestoreMsg) returns (l: nat)
    requires SysRun(ss, who, es) && InitSys(ss[0]) && k < |ss| && r in ss[k].restores && !r.EvRequestingState?
    ensures l < k && SentAt(ss, who, es, l, who[l], r)
  {
    hide Next, Chosen;
    if k == 0 {
      assert false;
    } else {
      assert Steps(ss[k - 1], who[k - 1], es[k - 1], ss[k]);
      if r in ss[k - 1].restores {
        l := RestoreSource(ss, who, es, k - 1, r);
      } else {
        l := k - 1;
      }
    }
  }

  /** At step `l` elevator `j` publishes `s`, as a backup or as a sign of life, and `s` is its state: the
      new one, or, on a confirmation, possibly that before. */
  ghost predicate Publishes(ss: seq<Sys>, who: seq<IP>, es: seq<NodeEvent>, l: nat, j: IP, s: ElevState)
    requires |ss| == |es| + 1 == |who| + 1 && l < |es|
  {
    && who[l] == j && j in ss[l].nodes && j in ss[l + 1].nodes
    && var n, n' := ss[l].nodes[j], ss[l + 1].nodes[j];
       && n.Valid() && n'.Valid() && n.ip == j && s.localIP == j && (es[l].Queued? ==> n.queue != [])
       && (exists r :: r in Next(n, es[l]).restores && (r.EvIAmAlive? || r.EvBackupState?) && r.state == s)
       && (s == n'.State()
           || (s == n.State() && Handled(n, es[l]).Some? && Handled(n, es[l]).value.event == EvOrderConfirmed))
  }

  lemma PublishedAt(ss: seq<Sys>, who: seq<IP>, es: seq<NodeEvent>, l: nat, r: RestoreMsg)
    requires SysRun(ss, who, es) && l < |es| && SentAt(ss, who, es, l, who[l], r)
    requires r.EvIAmAlive? || r.EvBackupState?
    ensures Publishes(ss, who, es, l, r.responder, r.state)
  {
    hide Next, Chosen;
    assert Steps(ss[l], who[l], es[l], ss[l + 1]);
    PublishedIsOwn(ss[l].nodes[who[l]], es[l], r);
  }

  /** The state that a node has on record of another is one that the other published itself. */
  lemma {:induction false} RecordWasPublished(
    ss: seq<Sys>, who: seq<IP>, es: seq<NodeEvent>, i: IP, j: IP, k: nat) returns (l: nat)
    requires SysRun(ss, who, es) && InitSys(ss[0]) && k < |ss| && i in ss[0].nodes && j != i
    requires LastState(ss, who, es, i, j, k).Some?
    ensures l < k && Publishes(ss, who, es, l, j, LastState(ss, who, es, i, j, k).value)
  {
    hide Next, Chosen, LastHeard, Publishes;
    if LastState(ss, who, es, i, j, k) == LastState(ss, who, es, i, j, k - 1) {
      l := RecordWasPublished(ss, who, es, i, j, k - 1);
    } else {
      assert Steps(ss[k - 1], who[k - 1], es[k - 1], ss[k]);
      l := RestoreSource(ss, who, es, k - 1, es[k - 1].r);
      PublishedAt(ss, who, es, l, es[k - 1].r);
    }
  }

  // ---------------------------------------------------------------- what comes back

  /** What a restore reply holds: the asker's state as the responder has it on record, and the
      responder's matrix. */
  predicate ReplyOf(n: Node, r: RestoreMsg) {
    && r.EvRestoredStateReturned? && r.responder == n.ip && r.asker != n.ip
    && r.asker in n.known && r.state == n.known[r.asker].state && r.matrix == n.matrix
  }

  lemma RepliesFromRecord(n: Node, e: NodeEvent, r: RestoreMsg)
    requires n.Valid() && (e.Queued? ==> n.queue != []) && r in Next(n, e).restores && r.EvRestoredStateReturned?
    ensures ReplyOf(n, r)
  {
    PublishedIsOwn(n, e, r);
  }

  /** And a node that is asked for the state of an elevator it knows does reply. */
  lemma RequestsAreAnswered(n: Node, asker: IP, now: int)
    requires n.Valid() && asker != n.ip && asker in n.known
    ensures exists r :: r in Next(n, Restoration(EvRequestingState(asker), now)).restores
                        && ReplyOf(n, r) && r.asker == asker
  {
    var r := EvRestoredStateReturned(asker, n.ip, n.known[asker].state, n.matrix);
    assert r in Next(n, Restoration(EvRequestingState(asker), now)).restores;
  }

  /** Every restore reply on the network was sent by its responder, at a step `l` at which it knew the
      asker, with its matrix of that step and with the state in the last backup of the asker that it had
      handled (or its first sign of life); and that state is one that the asker itself had published, at
      a step `o` before. */
  lemma RepliesAreTrue(ss: seq<Sys>, who: seq<IP>, es: seq<NodeEvent>, k: nat, r: RestoreMsg)
    returns (l: nat, o: nat)
    requires SysRun(ss, who, es) && InitSys(ss[0]) && k < |ss| && r in ss[k].restores && r.EvRestoredStateReturned?
    ensures l < k && who[l] == r.responder && r.responder in ss[l].nodes && ReplyOf(ss[l].nodes[r.responder], r)
    ensures r.state.localIP == r.asker
    ensures LastState(ss, who, es, r.responder, r.asker, l) == Some(r.state)
    ensures o < l && Publishes(ss, who, es, o, r.asker, r.state)
  {
    hide Next, Chosen, LastState;
    l := RestoreSource(ss, who, es, k, r);
    var i := who[l];
    RepliesFromRecord(ss[l].nodes[i], es[l], r);
    NodesStay(ss, who, es, l);
    StateIsLast(ss, who, es, i, r.asker, l);
    o := RecordWasPublished(ss, who, es, i, r.asker, l);
  }

  /** So what an elevator had published comes back to it. After it has handled a reply, its internal
      orders are those it had and those that it had published itself, at a step `o` before the reply; and
      each hall order is as it was, or as the responder had it under execution by another elevator. */
  lemma OwnStateComesBack(
    ss: seq<Sys>, who: seq<IP>, es: seq<NodeEvent>, k: nat, f: Floor, h: Hall) returns (l: nat, o: nat, s: ElevState)
    requires SysRun(ss, who, es) && InitSys(ss[0]) && k < |es|
    requires es[k].Restoration? && es[k].r.EvRestoredStateReturned? && es[k].r.asker == who[k]
    ensures who[k] in ss[k].nodes && who[k] in ss[k + 1].nodes
    ensures ss[k].nodes[who[k]].Valid() && ss[k + 1].nodes[who[k]].Valid()
    ensures o < l < k && who[l] == es[k].r.responder && who[l] in ss[l].nodes
    ensures LastState(ss, who, es, who[l], who[k], l) == Some(s) && Publishes(ss, who, es, o, who[k], s)
    ensures var n, n', x := ss[k].nodes[who[k]], ss[k + 1].nodes[who[k]], ss[l].nodes[who[l]].Slot(f, h);
            && n'.State().internalOrders[f] == (n.State().internalOrders[f] || s.internalOrders[f])
            && n'.Slot(f, h)
               == if n.Slot(f, h).status == NotActive && x.status == UnderExecution && x.assignedTo != who[k]
                  then ElevOrder(UnderExecution, x.assignedTo, {}) else n.Slot(f, h)
  {
    hide Next, Chosen, LastState, Publishes;
    var r := es[k].r;
    assert Steps(ss[k], who[k], es[k], ss[k + 1]);
    l, o := RepliesAreTrue(ss, who, es, k, r);
    s := r.state;
    Restored(ss[k].nodes[who[k]], r, es[k].now, f, h);
  }

  lemma Restored(n: Node, r: RestoreMsg, now: int, f: Floor, h: Hall)
    requires n.Valid() && r.EvRestoredStateReturned? && r.asker == n.ip
    ensures var n' := Next(n, Restoration(r, now)).node;
            && n'.Valid()
            && n'.State().internalOrders[f] == (n.State().internalOrders[f] || r.state.internalOrders[f])
            && n'.Slot(f, h) == (if n.Slot(f, h).status == NotActive && Restoring.Offers(r, n.ip, f, h)
                                 then ElevOrder(UnderExecution, r.matrix[f].Get(h).assignedTo, {}) else n.Slot(f, h))
  {
    Restoring.OneReply(n, r, f, h);
    assert n.OnRestoreMsg(r, now) == n.OnRestoreMsg(r, 0);
  }
}
