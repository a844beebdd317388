/** `smp_syscall_vanish` keeps the kernel invariant: the one handler that touches three task records
    and may wake two waiting threads. */
module VanishSteps {
  import opened Basics
  import opened Lifecycle
  import opened Protocol
  import opened Placement
  import opened KernelInvariant
  import opened WorkerSteps
  import opened ManagerSteps

  // ----- the deliveries

  function Woken(d: seq<Delivery>): seq<Tid> {
    if d == [] then [] else [d[0].waiter] + Woken(d[1..])
  }

  lemma {:induction false} WokenConcat(d: seq<Delivery>, e: seq<Delivery>)
    ensures Woken(d + e) == Woken(d) + Woken(e)
  {
    if d == [] {
      assert d + e == e;
    } else {
      WokenConcat(d[1..], e);
      assert (d + e)[1..] == d[1..] + e;
    }
  }

  /** What preparing a list of wait() responses does: each woken thread goes to the outbox with its
      answer, and nothing else changes. */
  ghost predicate Delivered(s: Sys, d: seq<Delivery>, s': Sys) {
    && s' == s.(threads := s'.threads, outbox := s'.outbox, delivered := s.delivered + d)
    && s'.threads.Keys == s.threads.Keys
    && (forall u :: u in s.threads && u !in Woken(d) ==> s'.threads[u] == s.threads[u])
    && (forall u :: u in Woken(d) && u in s.threads ==>
          s'.threads[u].stage == Returning && s'.threads[u].msg.WaitDone?
          && s'.threads[u] == s.threads[u].(stage := Returning, msg := s'.threads[u].msg))
    && (forall u :: OutCount(s'.outbox, u) == OutCount(s.outbox, u) + Occurs(Woken(d), u))
    && (forall i :: 0 <= i < |s'.outbox| ==> s'.outbox[i] in s.outbox || GoesHome(s, s'.outbox[i]))
  }

  predicate GoesHome(s: Sys, m: Send) {
    m.tid in s.threads && m.cpu == s.threads[m.tid].cpu
  }

  lemma DeliverNone(s: Sys)
    ensures Delivered(s, [], Deliver(s, []))
  {
    assert s.delivered + [] == s.delivered;
  }

  lemma DeliverStep(s: Sys, d: seq<Delivery>, s1: Sys, s': Sys)
    requires d != [] && d[0].waiter in s.threads
    requires s1 == Tell(s, d[0])
    requires Delivered(s1, d[1..], s')
    ensures Delivered(s, d, s')
  {
    hide Occurs, OutCount;
    var w := d[0].waiter;
    assert s1.delivered + d[1..] == s.delivered + d by { assert d == [d[0]] + d[1..]; }
    forall u ensures OutCount(s'.outbox, u) == OutCount(s.outbox, u) + Occurs(Woken(d), u) {
      DeliverCount(s.outbox, Send(w, s.threads[w].cpu), d, u);
    }
    forall i | 0 <= i < |s'.outbox| ensures s'.outbox[i] in s.outbox || GoesHome(s, s'.outbox[i]) {
      assert s'.outbox[i] in s1.outbox || GoesHome(s1, s'.outbox[i]);
    }
  }

  lemma DeliverCount(outbox: seq<Send>, m: Send, d: seq<Delivery>, u: Tid)
    requires d != [] && m.tid == d[0].waiter
    ensures OutCount(outbox + [m], u) + Occurs(Woken(d[1..]), u) == OutCount(outbox, u) + Occurs(Woken(d), u)
  {
    hide Occurs, OutCount;
    OutCountAppend(outbox, m, u);
    OccursAppend([m.tid], Woken(d[1..]), u);
    OccursOne(m.tid, u);
  }

  lemma {:induction false} DeliverFacts(s: Sys, d: seq<Delivery>)
    requires forall u :: u in Woken(d) ==> u in s.threads
    ensures Delivered(s, d, Deliver(s, d))
    decreases |d|
  {
    hide Delivered;
    if d == [] {
      DeliverNone(s);
    } else {
      var w := d[0].waiter;
      assert w in Woken(d) && forall u :: u in Woken(d[1..]) ==> u in Woken(d);
      DeliverFacts(Tell(s, d[0]), d[1..]);
      DeliverStep(s, d, Tell(s, d[0]), Deliver(s, d));
    }
  }

  // ----- what the woken threads are told

  predicate WaitersDiffer(d: seq<Delivery>) {
    forall i, j :: 0 <= i < j < |d| ==> d[i].waiter != d[j].waiter
  }

  predicate WaitersKnown(s: Sys, d: seq<Delivery>) {
    forall i :: 0 <= i < |d| ==> d[i].waiter in s.threads
  }

  /** The messages go to the cores the waiters called from, in order. */
  function Replies(s: Sys, d: seq<Delivery>): seq<Send>
    requires WaitersKnown(s, d)
  {
    seq(|d|, i requires 0 <= i < |d| => Send(d[i].waiter, s.threads[d[i].waiter].cpu))
  }

  /** The waiter is told exactly the status delivered to it. */
  predicate IsTold(s: Sys, d: Delivery, s': Sys) {
    && d.waiter in s.threads && d.waiter in s'.threads
    && s'.threads[d.waiter] == s.threads[d.waiter].(stage := Returning, msg := WaitDone(Reaped(d.exit)))
  }

  lemma {:induction false} DeliverTells(s: Sys, d: seq<Delivery>)
    requires WaitersKnown(s, d) && WaitersDiffer(d)
    ensures var s' := Deliver(s, d);
      && s'.outbox == s.outbox + Replies(s, d)
      && (forall i :: 0 <= i < |d| ==> IsTold(s, d[i], s'))
      && (forall u :: u in s.threads && (forall i :: 0 <= i < |d| ==> d[i].waiter != u) ==>
            u in s'.threads && s'.threads[u] == s.threads[u])
    decreases |d|
  {
    if d != [] {
      var s1, rest := Tell(s, d[0]), d[1..];
      DeliverTells(s1, rest);
      assert Replies(s, d) == [Send(d[0].waiter, s.threads[d[0].waiter].cpu)] + Replies(s1, rest);
      forall i | 0 <= i < |d|
        ensures IsTold(s, d[i], Deliver(s, d))
      {
        assert i > 0 ==> d[i] == rest[i - 1] && IsTold(s1, rest[i - 1], Deliver(s1, rest));
      }
    }
  }

  /** The threads a vanish wakes are different ones. */
  lemma WokenDiffer(s: Sys, t: Tid)
    requires VanishHeld(s, t)
    ensures WaitersDiffer(NewDeliveries(s, t)) && WaitersKnown(s, NewDeliveries(s, t))
  {
    hide NewDeliveries, NewTable, Linked, Membered, Accounted, WaitCount, Occurs;
    var d := NewDeliveries(s, t);
    forall i | 0 <= i < |d|
      ensures d[i].waiter in s.threads
    {
      WokenHas(d, i);
      WokenFacts(s, t, d[i].waiter);
    }
    forall i, j | 0 <= i < j < |d|
      ensures d[i].waiter != d[j].waiter
    {
      var u := d[i].waiter;
      PlacedHere(s, u);
      NewTableWaits(s, t, u);
      WokenTwice(d, i, j);
    }
  }

  lemma {:induction false} WokenHas(d: seq<Delivery>, i: nat)
    requires i < |d|
    ensures d[i].waiter in Woken(d) && |Woken(d)| == |d| && Woken(d)[i] == d[i].waiter
  {
    if i > 0 {
      WokenHas(d[1..], i - 1);
    } else if |d| > 1 {
      WokenHas(d[1..], 0);
    }
  }

  lemma WokenTwice(d: seq<Delivery>, i: nat, j: nat)
    requires i < j < |d|
    ensures d[i].waiter == d[j].waiter ==> Occurs(Woken(d), d[i].waiter) >= 2
  {
    WokenHas(d, i);
    WokenHas(d, j);
    var q, u := Woken(d), d[i].waiter;
    OccursRemove(q, i, u);
    var rest := q[..i] + q[i + 1..];
    assert rest[j - 1] == q[j];
    if q[j] == u {
      OccursRemove(rest, j - 1, u);
    }
  }

  /** A woken thread leaves the wait queue it was the head of. */
  lemma WakeOneCount(k: Task, u: Tid)
    requires k.exits != []
    ensures Occurs(WakeOne(k).0.waiters, u) + Occurs(Woken(WakeOne(k).1), u) == Occurs(k.waiters, u)
  {
    if k.waiters != [] {
      OccursHead(k.waiters, u);
      assert Woken(WakeOne(k).1) == [k.waiters[0]];
    }
  }

  // ----- the facts the handler relies on

  ghost predicate VanishPending(s: Sys, t: Tid) {
    Inv(s) && s.held == Some(t) && t in s.threads && s.threads[t].msg.Vanish?
  }

  /** The task is alive, it is not init, it has no threads left and nobody waits on it. */
  ghost predicate VanishHeld(s: Sys, t: Tid) {
    && VanishPending(s, t)
    && var m := s.threads[t].msg; var p := s.threads[t].task;
       && m.vpid == p && s.threads[t].role == Exiting && s.threads[t].stage == Held
       && CanVanish(s.tasks, s.init, p, m.vppid) && p in s.registered && p in s.pcbs
       && s.pcbs[p].ppid == m.vppid && s.pcbs[p].members == {} && s.tasks[p].waiters == []
       && p < s.next && s.init < s.next && s.threads[t].cpu < |s.cores|
  }

  lemma VanishFacts(s: Sys, t: Tid)
    requires VanishPending(s, t)
    ensures VanishHeld(s, t)
  {
    HeldFacts(s);
    ThreadHere(s, t);
    assert TaskOfOk(s, t);
    var p := s.threads[t].task;
    assert MembersOk(s, p) && RecordOk(s, p);
    if s.tasks[p].waiters != [] {
      ThreadHere(s, s.tasks[p].waiters[0]);
      assert false;
    }
  }

  /** The table and the deliveries the handler computes. */
  ghost function NewTable(s: Sys, t: Tid): Table
    requires VanishHeld(s, t)
  {
    var m := s.threads[t].msg;
    VanishTasks(s.tasks, s.init, m.vpid, m.vppid, m.status)
  }

  ghost function NewDeliveries(s: Sys, t: Tid): seq<Delivery>
    requires VanishHeld(s, t)
  {
    var m := s.threads[t].msg;
    VanishDeliveries(s.tasks, s.init, m.vpid, m.vppid, m.status)
  }

  /** init has at most one waiter, because it has at most one thread. */
  lemma InitWaiter(s: Sys)
    requires Inv(s) && forall t, u :: t in s.pcbs[s.init].members && u in s.pcbs[s.init].members ==> t == u
    ensures |s.tasks[s.init].waiters| <= 1
  {
    var ws := s.tasks[s.init].waiters;
    assert RecordOk(s, s.init) && MembersOk(s, s.init);
    if |ws| >= 2 {
      var a, b := ws[0], ws[1];
      assert a in ws && b in ws;
      PlacedHere(s, a);
      ThreadHere(s, a);
      ThreadHere(s, b);
      assert a in s.pcbs[s.init].members && b in s.pcbs[s.init].members;
      WaitCountHas(s.tasks, s.init, s.next, a);
      TwiceInQueue(ws);
      assert false;
    }
  }

  lemma TwiceInQueue(q: seq<Tid>)
    requires |q| >= 2 && q[0] == q[1]
    ensures Occurs(q, q[0]) >= 2
  {
    assert q == [q[0], q[0]] + q[2..];
  }

  /** Every thread the handler wakes is waiting on the heir or on init. */
  lemma WokenFacts(s: Sys, t: Tid, u: Tid)
    requires VanishHeld(s, t)
    ensures u in Woken(NewDeliveries(s, t)) ==>
      u in s.threads && s.threads[u].stage == Waiting && s.threads[u].role == Live
  {
    hide Placed, Linked, Membered;
    var m := s.threads[t].msg;
    var h := Heir(s.tasks, s.init, m.vppid);
    var e := Exit(m.vpid, m.status);
    var k := AfterReport(s.tasks, s.init, m.vpid, m.vppid, m.status);
    RecordHere(s, h);
    RecordHere(s, s.init);
    WokenConcat(Report(s.tasks[h], e).1, Adopt(k[s.init], k[m.vpid].exits).1);
    if u in Woken(Report(s.tasks[h], e).1) {
      assert u in s.tasks[h].waiters;
      ThreadHere(s, u);
    } else if u in Woken(Adopt(k[s.init], k[m.vpid].exits).1) {
      assert u in k[s.init].waiters;
      assert u in s.tasks[s.init].waiters;
      ThreadHere(s, u);
    }
  }

  /** `s1` is the state with the woken threads answered; the handler installs the new table in it and
      answers the caller. */
  ghost predicate VanishVia(s: Sys, t: Tid, s1: Sys)
    requires VanishHeld(s, t)
  {
    var m, vd := s.threads[t].msg, NewDeliveries(s, t);
    && Delivered(s, vd, s1) && t !in Woken(vd) && t in s1.threads && s1.threads[t] == s.threads[t]
    && (forall u :: u in Woken(vd) ==> u in s.threads && s.threads[u].stage == Waiting && s.threads[u].role == Live)
    && HandleVanish(s, t)
       == Answer(s1.(tasks := NewTable(s, t),
                     exited := s.exited + [Exit(m.vpid, m.status)],
                     orphans := s.orphans + if m.vppid in s.tasks then 0 else 1),
                 t, Departing, Response, s.threads[t].cpu)
  }

  lemma VanishShape(s: Sys, t: Tid) returns (s1: Sys)
    requires VanishHeld(s, t)
    ensures VanishVia(s, t, s1)
  {
    hide Inv, Delivered, VanishDeliveries, VanishTasks;
    var vd := NewDeliveries(s, t);
    forall u ensures u in Woken(vd) ==> u in s.threads && s.threads[u].stage == Waiting && s.threads[u].role == Live {
      WokenFacts(s, t, u);
    }
    DeliverFacts(s, vd);
    s1 := Deliver(s, vd);
    DeliveredKeeps(s, vd, s1, t);
  }

  lemma DeliveredKeeps(s: Sys, d: seq<Delivery>, s1: Sys, t: Tid)
    requires Delivered(s, d, s1) && t in s.threads && t !in Woken(d)
    ensures t in s1.threads && s1.threads[t] == s.threads[t]
  {
  }

  // ----- placement

  /** The wait queues lose exactly the woken threads. */
  lemma NewTableWaits(s: Sys, t: Tid, u: Tid)
    requires VanishHeld(s, t)
    ensures WaitCount(NewTable(s, t), s.next, u) + Occurs(Woken(NewDeliveries(s, t)), u)
         == WaitCount(s.tasks, s.next, u)
  {
    hide Inv, Occurs, WaitCount;
    var m := s.threads[t].msg;
    var p, h, e := m.vpid, Heir(s.tasks, s.init, m.vppid), Exit(m.vpid, m.status);
    var k: Table := AfterReport(s.tasks, s.init, p, m.vppid, m.status);
    var k': Table := k - {p};
    ReportCount(s.tasks[h], e, u);
    WaitCountChange(s.tasks, k, h, s.next, u);
    HeirBound(s, t);
    WaitCountChange(k, k', p, s.next, u);
    EmptyQueue(u);
    AdoptCount(k[s.init], k[p].exits, u);
    WaitCountChange(k', NewTable(s, t), s.init, s.next, u);
    WokenConcat(Report(s.tasks[h], e).1, Adopt(k[s.init], k[p].exits).1);
    OccursAppend(Woken(Report(s.tasks[h], e).1), Woken(Adopt(k[s.init], k[p].exits).1), u);
  }

  lemma HeirBound(s: Sys, t: Tid)
    requires VanishHeld(s, t)
    ensures Heir(s.tasks, s.init, s.threads[t].msg.vppid) < s.next
  {
  }

  lemma EmptyQueue(u: Tid)
    ensures Occurs([], u) == 0
  {
  }

  lemma ReportCount(k: Task, e: Exit, u: Tid)
    ensures Occurs(Report(k, e).0.waiters, u) + Occurs(Woken(Report(k, e).1), u) == Occurs(k.waiters, u)
  {
    WakeOneCount(k.(exits := k.exits + [e], numZombie := k.numZombie + 1, numAlive := k.numAlive - 1), u);
  }

  lemma AdoptCount(k: Task, moved: seq<Exit>, u: Tid)
    ensures Occurs(Adopt(k, moved).0.waiters, u) + Occurs(Woken(Adopt(k, moved).1), u) == Occurs(k.waiters, u)
  {
    if moved != [] {
      WakeOneCount(k.(exits := k.exits + moved, numZombie := k.numZombie + |moved|), u);
    }
  }

  lemma VanishPlaced(s: Sys, t: Tid, s1: Sys, u: Tid)
    requires VanishHeld(s, t) && VanishVia(s, t, s1)
    ensures PlacedAt(HandleVanish(s, t), u)
  {
    hide Placed, Linked, Membered, Accounted, CoresCount, WaitCount, OutCount, PickCount, HandleVanish, NewTable;
    hide NewDeliveries;
    PlacedHere(s, u);
    NewTableWaits(s, t, u);
    OccursIn(Woken(NewDeliveries(s, t)), u);
    OutCountAppend(s1.outbox, Send(t, s.threads[t].cpu), u);
  }

  lemma OccursIn(q: seq<Tid>, u: Tid)
    ensures u in q <==> Occurs(q, u) > 0
  {
  }

  // ----- messages in flight

  /** The entry of task `q` in the new table: the woken threads are gone from its queue, nothing else. */
  lemma NewTableQueues(s: Sys, t: Tid, q: Pid, u: Tid)
    requires VanishHeld(s, t) && q in s.tasks && q != s.threads[t].task
    ensures q in NewTable(s, t)
    ensures u in NewTable(s, t)[q].waiters ==> u in s.tasks[q].waiters
    ensures u in s.tasks[q].waiters && u !in Woken(NewDeliveries(s, t)) ==> u in NewTable(s, t)[q].waiters
  {
    hide Inv;
    var m := s.threads[t].msg;
    var h, e := Heir(s.tasks, s.init, m.vppid), Exit(m.vpid, m.status);
    var k := AfterReport(s.tasks, s.init, m.vpid, m.vppid, m.status);
    WokenConcat(Report(s.tasks[h], e).1, Adopt(k[s.init], k[m.vpid].exits).1);
  }

  lemma VanishOthers(s: Sys, t: Tid, s1: Sys, u: Tid)
    requires VanishHeld(s, t) && VanishVia(s, t, s1) && u in s.threads
    ensures u in HandleVanish(s, t).threads && ThreadOk(HandleVanish(s, t), u)
  {
    hide Placed, Linked, Membered, Accounted, HandleVanish, NewTable, NewDeliveries, OutCount, Occurs;
    ThreadHere(s, u);
    TableKeys(s, t);
    PartsHere(s, u);
    if u in Woken(NewDeliveries(s, t)) || u == t {
    } else if s.threads[u].stage == Waiting {
      RecordHere(s, s.threads[u].task);
      NewTableQueues(s, t, s.threads[u].task, u);
    } else {
      PartnersUnmoved(s, t, s1, u);
      UnmovedOk(s, HandleVanish(s, t), u, s.threads[t].task);
    }
  }

  /** A thread whose record and fork partner stay the same is fine after task `p` is removed. */
  lemma UnmovedOk(s: Sys, s': Sys, u: Tid, p: Pid)
    requires u in s.threads && ThreadOk(s, u) && TaskOfOk(s, u) && s.threads[u].stage != Waiting
    requires u in s'.threads && s'.threads[u] == s.threads[u] && s'.threads.Keys == s.threads.Keys
    requires s'.tasks.Keys == s.tasks.Keys - {p} && p in s.registered && s'.pcbs == s.pcbs
    requires s'.next == s.next && |s'.cores| == |s.cores|
    requires var th := s.threads[u];
             && (th.stage in {Sent, Held, Returning, Parked} && th.msg.Fork? ==>
                   s'.threads[th.msg.child] == s.threads[th.msg.child] && TaskOfOk(s, th.msg.child)
                   && ThreadOk(s, th.msg.child))
             && (th.role in {Newborn, Announced} ==> s'.threads[th.msg.req] == s.threads[th.msg.req])
    ensures ThreadOk(s', u)
  {
  }

  lemma TableKeys(s: Sys, t: Tid)
    requires VanishHeld(s, t)
    ensures NewTable(s, t).Keys == s.tasks.Keys - {s.threads[t].task}
  {
  }

  /** The facts about `u` and its fork partner that depend on task membership. */
  lemma PartsHere(s: Sys, u: Tid)
    requires Membered(s) && Linked(s) && u in s.threads
    ensures TaskOfOk(s, u)
    ensures s.threads[u].msg.Fork? && s.threads[u].msg.child in s.threads ==>
              TaskOfOk(s, s.threads[u].msg.child) && ThreadOk(s, s.threads[u].msg.child)
  {
  }

  predicate SameAt(s: Sys, s': Sys, u: Tid) {
    u in s.threads && u in s'.threads && s'.threads[u] == s.threads[u]
  }

  /** A thread that is neither woken nor the caller keeps its record, and so does its fork partner. */
  lemma PartnersUnmoved(s: Sys, t: Tid, s1: Sys, u: Tid)
    requires VanishHeld(s, t) && VanishVia(s, t, s1) && u in s.threads && u != t && u !in Woken(NewDeliveries(s, t))
    requires s.threads[u].stage != Waiting
    ensures ThreadOk(s, u)
    ensures var s' := HandleVanish(s, t); var th := s.threads[u];
            && SameAt(s, s', u)
            && (th.stage in {Sent, Held, Returning, Parked} && th.msg.Fork? ==> SameAt(s, s', th.msg.child))
            && (th.role in {Newborn, Announced} ==> th.msg.ForkResponse? && SameAt(s, s', th.msg.req))
  {
    hide Placed, Linked, Membered, Accounted, HandleVanish, NewTable, NewDeliveries, OutCount, Occurs, ThreadOk;
    hide VanishVia;
    ThreadHere(s, u);
    var th := s.threads[u];
    ThreadHere(s, t);
    ExitingHeld(s, t);
    PartnerFacts(s, u);
    Unmoved(s, t, s1, u);
    if th.stage in {Sent, Held, Returning, Parked} && th.msg.Fork? {
      PartnerFacts(s, th.msg.child);
      Unmoved(s, t, s1, th.msg.child);
    }
    if th.role in {Newborn, Announced} {
      Unmoved(s, t, s1, th.msg.req);
    }
  }

  lemma ExitingHeld(s: Sys, t: Tid)
    requires VanishHeld(s, t) && ThreadOk(s, t)
    ensures s.threads[t].role == Exiting
  {
  }

  /** Fork partners of `u` are neither exiting nor waiting. */
  lemma PartnerFacts(s: Sys, u: Tid)
    requires u in s.threads && Linked(s)
    ensures var th := s.threads[u];
            && (th.stage in {Sent, Held, Returning, Parked} && th.msg.Fork? ==> Bystander(s, th.msg.child))
            && (th.role in {Newborn, Announced} ==> th.msg.ForkResponse? && Bystander(s, th.msg.req))
  {
    hide Linked;
    ThreadHere(s, u);
    var th := s.threads[u];
    if th.stage in {Sent, Held, Returning, Parked} && th.msg.Fork? {
      ThreadHere(s, th.msg.child);
    }
    if th.role in {Newborn, Announced} {
      ThreadHere(s, th.msg.req);
    }
  }

  predicate Bystander(s: Sys, v: Tid) {
    v in s.threads && s.threads[v].role != Exiting && s.threads[v].stage != Waiting
  }

  lemma Unmoved(s: Sys, t: Tid, s1: Sys, v: Tid)
    requires VanishHeld(s, t) && VanishVia(s, t, s1) && v in s.threads && v != t && s.threads[v].stage != Waiting
    ensures SameAt(s, HandleVanish(s, t), v)
  {
    hide Placed, Linked, Membered, Accounted, HandleVanish, NewTable, NewDeliveries, OutCount, Occurs, ThreadOk;
  }

  lemma VanishLinked(s: Sys, t: Tid, s1: Sys)
    requires VanishHeld(s, t) && VanishVia(s, t, s1)
    ensures Linked(HandleVanish(s, t)) && !HandleVanish(s, t).panicked
  {
    hide Placed, Membered, Accounted, HandleVanish, NewTable, NewDeliveries, OutCount, Occurs, ThreadOk;
    var s' := HandleVanish(s, t);
    forall u | u in s'.threads ensures ThreadOk(s', u) {
      VanishOthers(s, t, s1, u);
    }
    forall i | 0 <= i < |s1.outbox| ensures s1.outbox[i].cpu < |s.cores| {
      if GoesHome(s, s1.outbox[i]) {
        CpuBound(s, s1.outbox[i].tid);
      }
    }
  }

  // ----- tasks and their threads

  lemma VanishTaskOfs(s: Sys, t: Tid, s1: Sys, u: Tid)
    requires VanishHeld(s, t) && VanishVia(s, t, s1) && u in s.threads
    ensures TaskOfOk(HandleVanish(s, t), u)
  {
    hide Placed, Linked, Accounted, HandleVanish, NewTable, NewDeliveries, OutCount, Occurs;
    assert TaskOfOk(s, u) && MembersOk(s, s.threads[t].task);
    TableKeys(s, t);
    if s.threads[u].role == Exiting && s.threads[u].task == s.threads[t].task {
      assert BothExiting(s.threads[u], s.threads[t]);
    }
  }

  lemma VanishMembersOk(s: Sys, t: Tid, s1: Sys, p: Pid)
    requires VanishHeld(s, t) && VanishVia(s, t, s1) && p in s.pcbs
    ensures MembersOk(HandleVanish(s, t), p)
  {
    hide Placed, Linked, Accounted, HandleVanish, NewTable, NewDeliveries, OutCount, Occurs;
    assert MembersOk(s, p);
  }

  lemma VanishMembered(s: Sys, t: Tid, s1: Sys)
    requires VanishHeld(s, t) && VanishVia(s, t, s1)
    ensures Membered(HandleVanish(s, t))
  {
    hide Placed, Linked, Accounted, HandleVanish, NewTable, NewDeliveries, OutCount, Occurs, TaskOfOk, MembersOk;
    var s' := HandleVanish(s, t);
    TableKeys(s, t);
    forall p | p in s'.pcbs ensures MembersOk(s', p) {
      VanishMembersOk(s, t, s1, p);
    }
    forall u | u in s'.threads ensures TaskOfOk(s', u) {
      VanishTaskOfs(s, t, s1, u);
    }
    forall u, w | u in s'.threads && w in s'.threads && BothExiting(s'.threads[u], s'.threads[w]) ensures u == w {
      assert BothExiting(s.threads[u], s.threads[w]);
    }
  }

  // ----- task records

  lemma VanishKids(s: Sys, t: Tid, s1: Sys, q: Pid)
    requires VanishHeld(s, t) && VanishVia(s, t, s1)
    ensures Kids(HandleVanish(s, t), q) == Kids(s, q) - {s.threads[t].task}
    ensures s.threads[t].task in Kids(s, q) <==> q == s.threads[t].msg.vppid
  {
    hide Inv, HandleVanish, NewTable, NewDeliveries, OutCount, Occurs;
    TableKeys(s, t);
  }

  /** The new record of task `q`, as far as its counters and lists go. */
  lemma NewRecord(s: Sys, t: Tid, q: Pid)
    requires VanishHeld(s, t) && q in s.tasks && q != s.threads[t].task
    ensures q in NewTable(s, t)
    ensures var m := s.threads[t].msg; var h := Heir(s.tasks, s.init, m.vppid); var k := NewTable(s, t)[q];
            && k.numAlive == s.tasks[q].numAlive - (if q == h then 1 else 0)
            && (if q == s.init then Tallied(k) else Settled(k))
  {
    hide Placed, Linked, Membered, Kids;
    var m := s.threads[t].msg;
    var h, e := Heir(s.tasks, s.init, m.vppid), Exit(m.vpid, m.status);
    RecordHere(s, q);
    if q == s.init {
      InitRecord(s, t);
    } else if q == h {
      ParentCounts(s, t);
      ReportKeepsSettled(s.tasks[h], e);
    }
  }

  lemma ParentCounts(s: Sys, t: Tid)
    requires VanishHeld(s, t) && s.threads[t].msg.vppid in s.tasks && s.threads[t].msg.vppid != s.init
    ensures s.tasks[s.threads[t].msg.vppid].numAlive > 0
  {
    hide Placed, Linked, Membered;
    var q := s.threads[t].msg.vppid;
    RecordHere(s, q);
    assert s.threads[t].task in Kids(s, q);
  }

  lemma InitRecord(s: Sys, t: Tid)
    requires VanishHeld(s, t)
    ensures s.init in NewTable(s, t) && Tallied(NewTable(s, t)[s.init])
    ensures NewTable(s, t)[s.init].numAlive
         == s.tasks[s.init].numAlive - if s.init == Heir(s.tasks, s.init, s.threads[t].msg.vppid) then 1 else 0
  {
    hide Placed, Linked, Membered, Kids;
    var m := s.threads[t].msg;
    var h, e := Heir(s.tasks, s.init, m.vppid), Exit(m.vpid, m.status);
    var k := AfterReport(s.tasks, s.init, m.vpid, m.vppid, m.status);
    RecordHere(s, s.init);
    ReportKeepsCollected(s.tasks[s.init], e);
    AdoptCollectedIff(k[s.init], k[m.vpid].exits);
  }

  lemma VanishRecord(s: Sys, t: Tid, s1: Sys, q: Pid)
    requires VanishHeld(s, t) && VanishVia(s, t, s1) && q in s.tasks && q != s.threads[t].task
    ensures q in HandleVanish(s, t).tasks && RecordOk(HandleVanish(s, t), q)
  {
    hide Placed, Linked, Membered, Kids, HandleVanish, NewTable, NewDeliveries, OutCount, Occurs, Settled, Tallied;
    RecordHere(s, q);
    NewRecord(s, t, q);
    VanishKids(s, t, s1, q);
    var s' := HandleVanish(s, t);
    forall u | u in s'.tasks[q].waiters
      ensures u in s'.threads && s'.threads[u].stage == Waiting && s'.threads[u].task == q
    {
      NewTableQueues(s, t, q, u);
      StillWaiting(s, t, s1, q, u);
    }
  }

  /** A thread still in a queue was not woken: it was in one queue, once. */
  lemma StillWaiting(s: Sys, t: Tid, s1: Sys, q: Pid, u: Tid)
    requires VanishHeld(s, t) && VanishVia(s, t, s1) && q in s.tasks && q != s.threads[t].task
    requires q in NewTable(s, t) && u in NewTable(s, t)[q].waiters && u in s.tasks[q].waiters
    ensures u !in Woken(NewDeliveries(s, t))
  {
    hide Linked, Membered, HandleVanish, NewTable, NewDeliveries, OutCount, Delivered;
    RecordHere(s, q);
    PlacedHere(s, u);
    NewTableWaits(s, t, u);
    QueuePidBound(s, q);
    WaitCountHas(NewTable(s, t), q, s.next, u);
    OccursIn(NewTable(s, t)[q].waiters, u);
    OccursIn(Woken(NewDeliveries(s, t)), u);
  }

  lemma QueuePidBound(s: Sys, q: Pid)
    requires Membered(s) && q in s.tasks
    ensures q < s.next
  {
  }

  lemma VanishKeepsInv(s: Sys, t: Tid)
    requires VanishPending(s, t)
    ensures Inv(HandleVanish(s, t))
  {
    hide Linked, Membered, PlacedAt, RecordOk, HandleVanish, NewTable, NewDeliveries;
    VanishFacts(s, t);
    var s1 := VanishShape(s, t);
    var s' := HandleVanish(s, t);
    forall u: Tid ensures PlacedAt(s', u) {
      VanishPlaced(s, t, s1, u);
    }
    VanishLinked(s, t, s1);
    VanishMembered(s, t, s1);
    TableKeys(s, t);
    forall q | q in s'.tasks ensures RecordOk(s', q) {
      VanishRecord(s, t, s1, q);
    }
  }

  // ----- what an exit says to whom

  /** The whole effect of an exit on threads and messages: every woken thread is told its status, the caller
      is answered, and nobody else is. */
  ghost predicate VanishSays(s: Sys, t: Tid, s': Sys)
    requires VanishHeld(s, t) && WaitersKnown(s, NewDeliveries(s, t))
  {
    var d, th := NewDeliveries(s, t), s.threads[t];
    && s'.cores == s.cores && s'.picked == s.picked && s'.threads.Keys == s.threads.Keys
    && s'.outbox == s.outbox + Replies(s, d) + [Send(t, th.cpu)]
    && s'.delivered == s.delivered + d && s'.exited == s.exited + [Exit(th.task, th.msg.status)]
    && s'.threads[t] == th.(role := Departing, stage := Returning, msg := Response)
    && (forall i :: 0 <= i < |d| ==>
          d[i].waiter != t && s.threads[d[i].waiter].stage == Waiting && s.threads[d[i].waiter].role == Live
          && IsTold(s, d[i], s'))
    && (forall u :: u in s.threads && u != t && (forall i :: 0 <= i < |d| ==> d[i].waiter != u) ==>
          s'.threads[u] == s.threads[u])
  }

  lemma VanishAnswers(s: Sys, t: Tid)
    requires VanishPending(s, t)
    ensures VanishHeld(s, t) && WaitersDiffer(NewDeliveries(s, t)) && WaitersKnown(s, NewDeliveries(s, t))
    ensures VanishSays(s, t, HandleVanish(s, t))
  {
    hide Inv, NewTable, Replies, Deliver, WaitersDiffer, VanishTasks, VanishDeliveries;
    VanishFacts(s, t);
    WokenDiffer(s, t);
    var d := NewDeliveries(s, t);
    DeliverTells(s, d);
    DeliverFrame(s, d);
    forall i | 0 <= i < |d|
      ensures s.threads[d[i].waiter].stage == Waiting && s.threads[d[i].waiter].role == Live
    {
      WokenHas(d, i);
      WokenFacts(s, t, d[i].waiter);
    }
  }

  lemma {:induction false} DeliverFrame(s: Sys, d: seq<Delivery>)
    requires WaitersKnown(s, d)
    ensures var s' := Deliver(s, d);
      && s'.cores == s.cores && s'.picked == s.picked && s'.threads.Keys == s.threads.Keys
      && s'.delivered == s.delivered + d && s'.exited == s.exited && s'.tasks == s.tasks
    decreases |d|
  {
    if d != [] {
      DeliverFrame(Tell(s, d[0]), d[1..]);
    }
  }
}
