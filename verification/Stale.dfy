/** Why a round must not be disturbed: each of the four kinds of message from an earlier order for the
    same button, delivered once, can make two origins confirm that share an active elevator. */
module Stale {
  import opened Typedef
  import opened Nodes
  import opened Network
  import opened Handshake
  import opened Deliveries

  /** Two origins, `i` with both in its active set and `j` with itself only, have each sent a new order
      for the inactive button. */
  ghost predicate Contest(s: Sys, i: IP, j: IP, f: Floor, h: Hall, x: IP, y: IP) {
    && WellFormed(s) && NoAckArmed(s) && i != j && i in s.nodes && j in s.nodes
    && (forall k :: k in s.nodes ==> s.nodes[k].Slot(f, h).status == NotActive)
    && s.nodes[i].active.Keys == {i, j} && s.nodes[j].active.Keys == {j}
    && NewMsg(f, h, x, i) in s.orders && NewMsg(f, h, y, j) in s.orders
  }

  /** A round but for step `d`, at which node `i` handles `m`, and in which `c` and `e` are confirmed
      against each other. */
  ghost predicate BrokenBy(
    ss: seq<Sys>, who: seq<IP>, es: seq<NodeEvent>, d: nat, i: IP, m: OrderMsg, f: Floor, h: Hall,
    k: nat, c: Confirmation, l: nat, e: Confirmation)
  {
    && SysRun(ss, who, es) && NoAckArmed(ss[0])
    && (forall n :: n in ss[0].nodes ==> ss[0].nodes[n].Slot(f, h).status == NotActive)
    && d < |es| && who[d] == i && es[d] == Message(m)
    && (forall n :: 0 <= n < |es| && n != d ==> Quiet(ss, who, es, 0, n, f, h))
    && (forall x :: x in StepSent(ss[d], who[d], es[d]) ==> !Closes(x, f, h))
    && k < |es| && ConfirmedAt(ss, who, es, k, f, h, c)
    && l < |es| && ConfirmedAt(ss, who, es, l, f, h, e)
    && c.origin != e.origin && !(c.active !! e.active)
  }

  /** An acknowledgement of an earlier new order, or of an earlier order done, as if from `j`. */
  predicate StaleAck(m: OrderMsg, i: IP, j: IP, f: Floor, h: Hall) {
    && m.Is(f, h) && m.sender == j
    && ((m.event == EvAckNewOrder && m.origin == i) || (m.event == EvAckOrderDone && m.assignedTo == i))
  }

  lemma DeliverStaleAck(s: Sys, i: IP, j: IP, m: OrderMsg, f: Floor, h: Hall) returns (s': Sys)
    requires WellFormed(s) && i in s.nodes && m in s.orders && StaleAck(m, i, j, f, h) && i != j
    requires s.nodes[i].active.Keys == {i, j} && s.nodes[i].Slot(f, h).status == Awaiting
    requires s.nodes[i].Slot(f, h).confirmedBy == {}
    ensures Delivers(s, i, Message(m), s', {}, f, h)
    ensures s'.nodes[i].Slot(f, h) == s.nodes[i].Slot(f, h).(confirmedBy := {j})
  {
    assert i !in {j};
    if m.event == EvAckNewOrder { s' := DeliverAck(s, i, m); } else { s' := DeliverAckDone(s, i, m); }
  }

  lemma OwnConfirmation(s: Sys, j: IP, f: Floor, h: Hall, y: IP) returns (s1: Sys, s2: Sys, e: Confirmation)
    requires WellFormed(s) && j in s.nodes && NewMsg(f, h, y, j) in s.orders
    requires s.nodes[j].Slot(f, h).status == NotActive && s.nodes[j].active.Keys == {j}
    ensures Delivers(s, j, Message(NewMsg(f, h, y, j)), s1, {AckMsg(f, h, y, j, j)}, f, h)
    ensures Delivers(s1, j, Message(AckMsg(f, h, y, j, j)), s2, {AckMsg(f, h, y, j, j).As(j, EvOrderConfirmed)}, f, h)
    ensures e == Confirmation(j, f, h, y, {j}) && e in StepConfirms(s1, j, Message(AckMsg(f, h, y, j, j)))
  {
    hide Steps, WellFormed, StepSent, StepConfirms;
    s1 := DeliverNew(s, j, NewMsg(f, h, y, j));
    assert NewMsg(f, h, y, j).As(j, EvAckNewOrder) == AckMsg(f, h, y, j, j);
    s2, e := DeliverLastAck(s1, j, AckMsg(f, h, y, j, j));
  }

  lemma StaleAckSteps(s: Sys, i: IP, j: IP, f: Floor, h: Hall, x: IP, y: IP, m: OrderMsg)
    returns (s1: Sys, s2: Sys, s3: Sys, s4: Sys, s5: Sys, c: Confirmation, e: Confirmation)
    requires Contest(s, i, j, f, h, x, y) && m in s.orders && StaleAck(m, i, j, f, h)
    ensures Sends(s, j, Message(NewMsg(f, h, y, j)), s1, {AckMsg(f, h, y, j, j)})
    ensures Sends(s1, j, Message(AckMsg(f, h, y, j, j)), s2, {AckMsg(f, h, y, j, j).As(j, EvOrderConfirmed)})
    ensures Sends(s2, i, Message(NewMsg(f, h, x, i)), s3, {AckMsg(f, h, x, i, i)})
    ensures Sends(s3, i, Message(m), s4, {})
    ensures Sends(s4, i, Message(AckMsg(f, h, x, i, i)), s5, {AckMsg(f, h, x, i, i).As(i, EvOrderConfirmed)})
    ensures c == Confirmation(i, f, h, x, {i, j}) && c in StepConfirms(s4, i, Message(AckMsg(f, h, x, i, i)))
    ensures e == Confirmation(j, f, h, y, {j}) && e in StepConfirms(s1, j, Message(AckMsg(f, h, y, j, j)))
  {
    hide Steps, WellFormed, StepSent, StepConfirms;
    s1, s2, e := OwnConfirmation(s, j, f, h, y);
    s3 := DeliverNew(s2, i, NewMsg(f, h, x, i));
    assert NewMsg(f, h, x, i).As(i, EvAckNewOrder) == AckMsg(f, h, x, i, i);
    s4 := DeliverStaleAck(s3, i, j, m, f, h);
    s5, c := DeliverLastAck(s4, i, AckMsg(f, h, x, i, i));
  }

  /** One acknowledgement that `j` did not give to `i` in this round. */
  lemma StaleAckBreaks(s: Sys, i: IP, j: IP, f: Floor, h: Hall, x: IP, y: IP, m: OrderMsg)
    returns (ss: seq<Sys>, who: seq<IP>, es: seq<NodeEvent>, c: Confirmation, e: Confirmation)
    requires Contest(s, i, j, f, h, x, y) && m in s.orders && StaleAck(m, i, j, f, h)
    ensures ss != [] && ss[0] == s && BrokenBy(ss, who, es, 3, i, m, f, h, 4, c, 1, e)
  {
    hide Steps, WellFormed, StepSent, StepConfirms, SentIn, Quiet, NoAckArmed;
    var s1, s2, s3, s4, s5;
    s1, s2, s3, s4, s5, c, e := StaleAckSteps(s, i, j, f, h, x, y, m);
    ss, who := [s, s1, s2, s3, s4, s5], [j, j, i, i, i];
    es := [Message(NewMsg(f, h, y, j)), Message(AckMsg(f, h, y, j, j)), Message(NewMsg(f, h, x, i)),
           Message(m), Message(AckMsg(f, h, x, i, i))];
    CalmIsQuiet(ss, who, es, 0, 0, f, h);
    AnsweredIsQuiet(ss, who, es, 0, 0, 1, f, h);
    CalmIsQuiet(ss, who, es, 0, 2, f, h);
    AnsweredIsQuiet(ss, who, es, 0, 2, 4, f, h);
    assert j in c.active && j in e.active;
  }

  ghost predicate FirstFour(
    s: Sys, s1: Sys, s2: Sys, s3: Sys, s4: Sys, i: IP, j: IP, f: Floor, h: Hall, x: IP, c: Confirmation)
  {
    && Sends(s, i, Message(NewMsg(f, h, x, i)), s1, {AckMsg(f, h, x, i, i)})
    && Sends(s1, j, Message(NewMsg(f, h, x, i)), s2, {AckMsg(f, h, x, i, j)})
    && Sends(s2, i, Message(AckMsg(f, h, x, i, i)), s3, {})
    && Sends(s3, i, Message(AckMsg(f, h, x, i, j)), s4, {AckMsg(f, h, x, i, j).As(i, EvOrderConfirmed)})
    && c == Confirmation(i, f, h, x, {i, j}) && c in StepConfirms(s3, i, Message(AckMsg(f, h, x, i, j)))
  }

  /** `i` gets its order confirmed by both. */
  lemma BothConfirm(s: Sys, i: IP, j: IP, f: Floor, h: Hall, x: IP, y: IP)
    returns (s1: Sys, s2: Sys, s3: Sys, s4: Sys, c: Confirmation)
    requires Contest(s, i, j, f, h, x, y)
    ensures FirstFour(s, s1, s2, s3, s4, i, j, f, h, x, c)
    ensures WellFormed(s4) && s4.nodes.Keys == s.nodes.Keys
    ensures s.orders <= s4.orders && AckMsg(f, h, x, i, j).As(i, EvOrderConfirmed) in s4.orders
    ensures s4.nodes[j].Slot(f, h) == ElevOrder(Awaiting, x, {}) && s4.nodes[j].active == s.nodes[j].active
  {
    hide Steps, WellFormed, StepSent, StepConfirms;
    assert NewMsg(f, h, x, i).As(i, EvAckNewOrder) == AckMsg(f, h, x, i, i);
    assert NewMsg(f, h, x, i).As(j, EvAckNewOrder) == AckMsg(f, h, x, i, j);
    assert j !in {i};
    s1 := DeliverNew(s, i, NewMsg(f, h, x, i));
    s2 := DeliverNew(s1, j, NewMsg(f, h, x, i));
    s3 := DeliverAck(s2, i, AckMsg(f, h, x, i, i));
    s4, c := DeliverLastAck(s3, i, AckMsg(f, h, x, i, j));
  }

  lemma StaleDoneSteps(s: Sys, i: IP, j: IP, f: Floor, h: Hall, x: IP, y: IP, m: OrderMsg)
    returns (s1: Sys, s2: Sys, s3: Sys, s4: Sys, s5: Sys, s6: Sys, s7: Sys, c: Confirmation, e: Confirmation)
    requires Contest(s, i, j, f, h, x, y) && m in s.orders && m.Is(f, h) && m.event == EvOrderDone
    ensures FirstFour(s, s1, s2, s3, s4, i, j, f, h, x, c)
    ensures Sends(s4, j, Message(m), s5, {m.As(j, EvAckOrderDone)})
    ensures Sends(s5, j, Message(NewMsg(f, h, y, j)), s6, {AckMsg(f, h, y, j, j)})
    ensures Sends(s6, j, Message(AckMsg(f, h, y, j, j)), s7, {AckMsg(f, h, y, j, j).As(j, EvOrderConfirmed)})
    ensures e == Confirmation(j, f, h, y, {j}) && e in StepConfirms(s6, j, Message(AckMsg(f, h, y, j, j)))
  {
    hide Steps, WellFormed, StepSent, StepConfirms;
    s1, s2, s3, s4, c := BothConfirm(s, i, j, f, h, x, y);
    s5 := DeliverDone(s4, j, m);
    s6, s7, e := OwnConfirmation(s5, j, f, h, y);
  }

  /** One report that the order is done, from an earlier order, makes `j` forget that it acknowledged. */
  lemma StaleDoneBreaks(s: Sys, i: IP, j: IP, f: Floor, h: Hall, x: IP, y: IP, m: OrderMsg)
    returns (ss: seq<Sys>, who: seq<IP>, es: seq<NodeEvent>, c: Confirmation, e: Confirmation)
    requires Contest(s, i, j, f, h, x, y) && m in s.orders && m.Is(f, h) && m.event == EvOrderDone
    ensures ss != [] && ss[0] == s && BrokenBy(ss, who, es, 4, j, m, f, h, 3, c, 6, e)
  {
    hide Steps, WellFormed, StepSent, StepConfirms, SentIn, Quiet, NoAckArmed;
    var s1, s2, s3, s4, s5, s6, s7;
    s1, s2, s3, s4, s5, s6, s7, c, e := StaleDoneSteps(s, i, j, f, h, x, y, m);
    ss, who := [s, s1, s2, s3, s4, s5, s6, s7], [i, j, i, i, j, j, j];
    es := [Message(NewMsg(f, h, x, i)), Message(NewMsg(f, h, x, i)), Message(AckMsg(f, h, x, i, i)),
           Message(AckMsg(f, h, x, i, j)), Message(m), Message(NewMsg(f, h, y, j)), Message(AckMsg(f, h, y, j, j))];
    FirstFourQuiet(ss, who, es, i, j, f, h, x);
    CalmIsQuiet(ss, who, es, 0, 5, f, h);
    AnsweredIsQuiet(ss, who, es, 0, 5, 6, f, h);
    assert j in c.active && j in e.active;
  }

  lemma FirstFourQuiet(ss: seq<Sys>, who: seq<IP>, es: seq<NodeEvent>, i: IP, j: IP, f: Floor, h: Hall, x: IP)
    requires |ss| == |es| + 1 == |who| + 1 && |es| >= 4 && who[..4] == [i, j, i, i]
    requires es[..4] == [Message(NewMsg(f, h, x, i)), Message(NewMsg(f, h, x, i)), Message(AckMsg(f, h, x, i, i)),
                         Message(AckMsg(f, h, x, i, j))]
    requires StepSent(ss[0], i, es[..4][0]) == {AckMsg(f, h, x, i, i)}
    requires StepSent(ss[1], j, es[..4][1]) == {AckMsg(f, h, x, i, j)}
    requires StepSent(ss[2], i, es[..4][2]) == {}
    requires StepSent(ss[3], i, es[..4][3]) == {AckMsg(f, h, x, i, j).As(i, EvOrderConfirmed)}
    ensures forall k :: 0 <= k < 4 ==> Quiet(ss, who, es, 0, k, f, h)
  {
    hide StepSent, SentIn, Quiet;
    assert forall k :: 0 <= k < 4 ==> who[k] == who[..4][k] && es[k] == es[..4][k];
    CalmIsQuiet(ss, who, es, 0, 0, f, h);
    CalmIsQuiet(ss, who, es, 0, 1, f, h);
    AnsweredIsQuiet(ss, who, es, 0, 0, 2, f, h);
    AnsweredIsQuiet(ss, who, es, 0, 1, 3, f, h);
  }

  lemma StaleReassignSteps(s: Sys, i: IP, j: IP, f: Floor, h: Hall, x: IP, y: IP, m: OrderMsg)
    returns (
      s1: Sys, s2: Sys, s3: Sys, s4: Sys, s5: Sys, s6: Sys, s7: Sys, s8: Sys, c: Confirmation, e: Confirmation)
    requires Contest(s, i, j, f, h, x, y) && m in s.orders && m.Is(f, h) && m.event == EvReassignOrder && x != j
    ensures FirstFour(s, s1, s2, s3, s4, i, j, f, h, x, c)
    ensures var confirm := AckMsg(f, h, x, i, j).As(i, EvOrderConfirmed);
            Sends(s4, j, Message(confirm), s5, {confirm.As(j, EvAckOrderConfirmed)})
    ensures Sends(s5, j, Message(m), s6, {})
    ensures Sends(s6, j, Message(NewMsg(f, h, y, j)), s7, {AckMsg(f, h, y, j, j)})
    ensures Sends(s7, j, Message(AckMsg(f, h, y, j, j)), s8, {AckMsg(f, h, y, j, j).As(j, EvOrderConfirmed)})
    ensures e == Confirmation(j, f, h, y, {j}) && e in StepConfirms(s7, j, Message(AckMsg(f, h, y, j, j)))
  {
    hide Steps, WellFormed, StepSent, StepConfirms;
    s1, s2, s3, s4, c := BothConfirm(s, i, j, f, h, x, y);
    s5 := DeliverConfirmed(s4, j, AckMsg(f, h, x, i, j).As(i, EvOrderConfirmed));
    s6 := DeliverReassign(s5, j, m);
    s7, s8, e := OwnConfirmation(s6, j, f, h, y);
  }

  /** One reassignment of an earlier order does so once `j` has taken the order. */
  lemma StaleReassignBreaks(s: Sys, i: IP, j: IP, f: Floor, h: Hall, x: IP, y: IP, m: OrderMsg)
    returns (ss: seq<Sys>, who: seq<IP>, es: seq<NodeEvent>, c: Confirmation, e: Confirmation)
    requires Contest(s, i, j, f, h, x, y) && m in s.orders && m.Is(f, h) && m.event == EvReassignOrder && x != j
    ensures ss != [] && ss[0] == s && BrokenBy(ss, who, es, 5, j, m, f, h, 3, c, 7, e)
  {
    hide Steps, WellFormed, StepSent, StepConfirms, SentIn, Quiet, NoAckArmed;
    var s1, s2, s3, s4, s5, s6, s7, s8;
    s1, s2, s3, s4, s5, s6, s7, s8, c, e := StaleReassignSteps(s, i, j, f, h, x, y, m);
    ss, who := [s, s1, s2, s3, s4, s5, s6, s7, s8], [i, j, i, i, j, j, j, j];
    es := [Message(NewMsg(f, h, x, i)), Message(NewMsg(f, h, x, i)), Message(AckMsg(f, h, x, i, i)),
           Message(AckMsg(f, h, x, i, j)), Message(AckMsg(f, h, x, i, j).As(i, EvOrderConfirmed)), Message(m),
           Message(NewMsg(f, h, y, j)), Message(AckMsg(f, h, y, j, j))];
    FirstFourQuiet(ss, who, es, i, j, f, h, x);
    CalmIsQuiet(ss, who, es, 0, 4, f, h);
    CalmIsQuiet(ss, who, es, 0, 6, f, h);
    AnsweredIsQuiet(ss, who, es, 0, 6, 7, f, h);
    assert j in c.active && j in e.active;
  }
}
