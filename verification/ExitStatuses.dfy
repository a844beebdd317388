/** Exit statuses are neither lost nor duplicated, and leave each task's list first in, first out. */
module ExitStatuses {
  import opened Basics
  import opened Lifecycle
  import opened Protocol
  import opened Placement
  import opened KernelInvariant
  import opened WorkerSteps
  import opened ManagerSteps
  import opened VanishSteps
  import opened KernelRuns

  // ----- counting a status

  function ExitOccurs(q: seq<Exit>, e: Exit): nat {
    multiset(q)[e]
  }

  lemma ExitOccursAppend(q: seq<Exit>, r: seq<Exit>, e: Exit)
    ensures ExitOccurs(q + r, e) == ExitOccurs(q, e) + ExitOccurs(r, e)
  {
  }

  function Statuses(d: seq<Delivery>): seq<Exit> {
    if d == [] then [] else [d[0].exit] + Statuses(d[1..])
  }

  lemma {:induction false} StatusesConcat(d: seq<Delivery>, f: seq<Delivery>)
    ensures Statuses(d + f) == Statuses(d) + Statuses(f)
  {
    if d == [] {
      assert d + f == f;
    } else {
      StatusesConcat(d[1..], f);
      StatusesHead(d);
      StatusesHead(d + f);
      assert (d + f)[1..] == d[1..] + f && (d + f)[0] == d[0];
      hide Statuses;
      Assoc([d[0].exit], Statuses(d[1..]), Statuses(f));
    }
  }

  lemma StatusesHead(d: seq<Delivery>)
    requires d != []
    ensures Statuses(d) == [d[0].exit] + Statuses(d[1..])
  {
  }

  function ListOf(tasks: Table, p: Pid): seq<Exit> {
    if p in tasks then tasks[p].exits else []
  }

  /** How often `e` is in the status lists of the tasks with a pid below `n`. */
  function ListCount(tasks: Table, n: nat, e: Exit): nat {
    if n == 0 then 0 else ListCount(tasks, n - 1, e) + ExitOccurs(ListOf(tasks, n - 1), e)
  }

  lemma {:induction false} ListCountChange(a: Table, b: Table, p: Pid, n: nat, e: Exit)
    requires AgreeExcept(a, b, p)
    ensures p < n ==>
      ListCount(b, n, e) + ExitOccurs(ListOf(a, p), e) == ListCount(a, n, e) + ExitOccurs(ListOf(b, p), e)
    ensures p >= n ==> ListCount(b, n, e) == ListCount(a, n, e)
  {
    if n > 0 {
      ListCountChange(a, b, p, n - 1, e);
    }
  }

  /** Every status reported so far is in one list or was delivered, as often as it was reported. */
  ghost predicate ConservedAt(s: Sys, e: Exit) {
    ExitOccurs(s.exited, e) == ExitOccurs(Statuses(s.delivered), e) + ListCount(s.tasks, s.next, e)
  }

  /** A task reports once, and is gone afterwards. */
  ghost predicate ReportedOnce(s: Sys) {
    && (forall i :: 0 <= i < |s.exited| ==> s.exited[i].pid in s.registered && s.exited[i].pid !in s.tasks)
    && (forall i, j :: 0 <= i < j < |s.exited| ==> s.exited[i].pid != s.exited[j].pid)
  }

  ghost predicate ExitInv(s: Sys) {
    ReportedOnce(s) && forall e: Exit :: ConservedAt(s, e)
  }

  // ----- one transformation

  /** What is added to a list and what leaves it: the list is a queue. */
  lemma WakeOneQueue(k: Task)
    requires k.exits != []
    ensures Statuses(WakeOne(k).1) + WakeOne(k).0.exits == k.exits
  {
    if k.waiters != [] {
      assert Statuses(WakeOne(k).1) == [k.exits[0]];
    }
  }

  lemma ReportQueue(k: Task, e: Exit)
    ensures Statuses(Report(k, e).1) + Report(k, e).0.exits == k.exits + [e]
  {
    WakeOneQueue(k.(exits := k.exits + [e], numZombie := k.numZombie + 1, numAlive := k.numAlive - 1));
  }

  lemma AdoptQueue(k: Task, moved: seq<Exit>)
    ensures Statuses(Adopt(k, moved).1) + Adopt(k, moved).0.exits == k.exits + moved
  {
    if moved != [] {
      WakeOneQueue(k.(exits := k.exits + moved, numZombie := k.numZombie + |moved|));
    }
  }

  // ----- one step

  lemma NewTableExits(s: Sys, t: Tid, e: Exit)
    requires VanishHeld(s, t)
    ensures ListCount(NewTable(s, t), s.next, e) + ExitOccurs(Statuses(NewDeliveries(s, t)), e)
         == ListCount(s.tasks, s.next, e) + if e == Exit(s.threads[t].msg.vpid, s.threads[t].msg.status) then 1 else 0
  {
    hide Inv, ExitOccurs, ListCount, Statuses;
    var m := s.threads[t].msg;
    var p, h, x := m.vpid, Heir(s.tasks, s.init, m.vppid), Exit(m.vpid, m.status);
    var k: Table := AfterReport(s.tasks, s.init, p, m.vppid, m.status);
    var k': Table := k - {p};
    HeirBound(s, t);
    ListCountChange(s.tasks, k, h, s.next, e);
    ListCountChange(k, k', p, s.next, e);
    ListCountChange(k', NewTable(s, t), s.init, s.next, e);
    var d1, d2 := Report(s.tasks[h], x).1, Adopt(k[s.init], k[p].exits).1;
    ReportQueue(s.tasks[h], x);
    AdoptQueue(k[s.init], k[p].exits);
    ExitOccursAppend(Statuses(d1), k[h].exits, e);
    ExitOccursAppend(s.tasks[h].exits, [x], e);
    ExitOccursAppend(Statuses(d2), NewTable(s, t)[s.init].exits, e);
    ExitOccursAppend(k[s.init].exits, k[p].exits, e);
    StatusesConcat(d1, d2);
    ExitOccursAppend(Statuses(d1), Statuses(d2), e);
    OneExit(x, e);
  }

  lemma OneExit(x: Exit, e: Exit)
    ensures ExitOccurs([x], e) == (if e == x then 1 else 0) && ExitOccurs([], e) == 0
  {
  }

  lemma VanishConserves(s: Sys, t: Tid)
    requires VanishPending(s, t) && ExitInv(s)
    ensures ExitInv(HandleVanish(s, t))
  {
    hide Inv, ExitOccurs, ListCount, Statuses, HandleVanish, NewTable, NewDeliveries;
    VanishFacts(s, t);
    var s1 := VanishShape(s, t);
    TableKeys(s, t);
    var m := s.threads[t].msg;
    forall e: Exit ensures ConservedAt(HandleVanish(s, t), e) {
      assert ConservedAt(s, e);
      NewTableExits(s, t, e);
      StatusesConcat(s.delivered, NewDeliveries(s, t));
      ExitOccursAppend(Statuses(s.delivered), Statuses(NewDeliveries(s, t)), e);
      ExitOccursAppend(s.exited, [Exit(m.vpid, m.status)], e);
      OneExit(Exit(m.vpid, m.status), e);
    }
  }

  lemma WaitConserves(s: Sys, t: Tid)
    requires Inv(s) && ExitInv(s) && s.held == Some(t) && t in s.threads && s.threads[t].msg.Wait?
    ensures ExitInv(HandleWait(s, t))
  {
    hide Inv, ExitOccurs, ListCount;
    WaitFacts(s, t);
    var p := s.threads[t].task;
    var (k, o) := WaitTask(s.tasks[p], t);
    forall e: Exit ensures ConservedAt(HandleWait(s, t), e) {
      assert ConservedAt(s, e);
      ListCountChange(s.tasks, s.tasks[p := k], p, s.next, e);
      if o.Reaped? {
        StatusesConcat(s.delivered, [Delivery(t, o.exit)]);
        assert [Delivery(t, o.exit)][1..] == [];
        assert Statuses([Delivery(t, o.exit)]) == [o.exit];
        ExitOccursAppend(Statuses(s.delivered), [o.exit], e);
        assert s.tasks[p].exits == [o.exit] + k.exits;
        ExitOccursAppend([o.exit], k.exits, e);
      }
    }
  }

  lemma ForkConserves(s: Sys, t: Tid)
    requires Inv(s) && ExitInv(s) && s.held == Some(t) && t in s.threads && s.threads[t].msg.Fork?
    ensures ExitInv(HandleFork(s, t))
  {
    hide Placed, Linked, Membered, Accounted, ExitOccurs, ListCount, Statuses;
    HeldFacts(s);
    ThreadHere(s, t);
    PartsHere(s, t);
    var n := s.threads[t].msg.child;
    forall e: Exit ensures ConservedAt(HandleFork(s, t), e) {
      assert ConservedAt(s, e);
      ListCountChange(s.tasks, s.tasks[n := NEW_TASK], n, s.next, e);
    }
  }

  lemma ForkResponseConserves(s: Sys, n: Tid)
    requires Inv(s) && ExitInv(s) && s.held == Some(n) && n in s.threads && s.threads[n].msg.ForkResponse?
    ensures ExitInv(HandleForkResponse(s, n))
  {
    hide Placed, Linked, Membered, Accounted, ExitOccurs, ListCount, Statuses;
    ForkResponseFacts(s, n);
    var p := s.threads[s.threads[n].msg.req].task;
    forall e: Exit ensures ConservedAt(HandleForkResponse(s, n), e) {
      assert ConservedAt(s, e);
      ListCountChange(s.tasks, s.tasks[p := s.tasks[p].(numAlive := s.tasks[p].numAlive + 1)], p, s.next, e);
    }
  }

  /** A step that reports, delivers and moves nothing. */
  lemma QuietConserves(s: Sys, s': Sys)
    requires ExitInv(s) && s'.exited == s.exited && s'.delivered == s.delivered && s'.tasks == s.tasks
    requires s'.registered == s.registered
    requires s'.next == s.next || (s'.next == s.next + 1 && s.next !in s.tasks)
    ensures ExitInv(s')
  {
    hide ExitOccurs, Statuses;
    forall e: Exit ensures ConservedAt(s', e) {
      assert ConservedAt(s, e);
      OneExit(Exit(0, 0), e);
      assert s'.next == s.next + 1 ==> ListOf(s.tasks, s.next) == [];
    }
  }

  lemma StepConserves(s: Sys, a: Action)
    requires Inv(s) && ExitInv(s) && Enabled(s, a)
    ensures ExitInv(Next(s, a))
  {
    hide Placed, Linked, Membered, Accounted, ExitInv, HandleFork, HandleForkResponse, HandleWait, HandleVanish;
    FreshPid(s);
    if a.DoHandle? {
      var t := s.held.value;
      HeldFacts(s);
      match s.threads[t].msg
      case Fork(_, _) => ForkConserves(s, t);
      case ForkResponse(_) => ForkResponseConserves(s, t);
      case Wait(_) => WaitConserves(s, t);
      case Vanish(_, _, _) => VanishConserves(s, t);
      case _ => QuietConserves(s, Next(s, a));
    } else if a.DoPick? || a.DoSwitch? || a.DoThreadFork? || a.DoFork? || a.DoVanish? {
      QuietForksConserve(s, a);
    } else {
      QuietConserves(s, Next(s, a));
    }
  }

  lemma QuietForksConserve(s: Sys, a: Action)
    requires ExitInv(s) && Enabled(s, a) && s.next !in s.tasks
    requires a.DoPick? || a.DoSwitch? || a.DoThreadFork? || a.DoFork? || a.DoVanish?
    ensures ExitInv(Next(s, a))
  {
    hide ExitInv;
    QuietFields(s, a);
    hide Next, Enabled;
    QuietConserves(s, Next(s, a));
  }

  lemma QuietFields(s: Sys, a: Action)
    requires Enabled(s, a) && (a.DoPick? || a.DoSwitch? || a.DoThreadFork? || a.DoFork? || a.DoVanish?)
    ensures var s' := Next(s, a);
            && s'.exited == s.exited && s'.delivered == s.delivered && s'.tasks == s.tasks
            && s'.registered == s.registered
            && (s'.next == s.next || s'.next == s.next + 1)
  {
    hide LatestPick, SwitchAway, Current, PickNext, SwitchTo, BeginVanish, ForkStep, ThreadFork;
    if a.DoPick? {
      PickQuiet(s, a.c);
    } else if a.DoSwitch? {
      SwitchQuiet(s, a.c);
    } else {
      MemberQuiet(s, a);
    }
  }

  lemma SwitchQuiet(s: Sys, c: nat)
    requires Switching(s, c)
    ensures var s' := SwitchTo(s, c);
            && s'.exited == s.exited && s'.delivered == s.delivered && s'.tasks == s.tasks
            && s'.registered == s.registered
            && s'.next == s.next
  {
    hide LatestPick, Current;
  }

  lemma MemberQuiet(s: Sys, a: Action)
    requires Enabled(s, a) && (a.DoThreadFork? || a.DoFork? || a.DoVanish?)
    ensures var s' := Next(s, a);
            && s'.exited == s.exited && s'.delivered == s.delivered && s'.tasks == s.tasks
            && s'.registered == s.registered
            && (s'.next == s.next || s'.next == s.next + 1)
  {
    hide LatestPick, SwitchAway;
  }

  lemma PickQuiet(s: Sys, c: nat)
    requires c < |s.cores|
    ensures var s' := PickNext(s, c);
            && s'.exited == s.exited && s'.delivered == s.delivered && s'.tasks == s.tasks
            && s'.registered == s.registered
            && s'.next == s.next
  {
    hide Take, Resumes;
    var k := s.cores[c];
    if k.recvq != [] && k.recvq[0] in s.threads {
      var t := k.recvq[0];
      TakeQuiet(s, c, k.(recvq := k.recvq[1..]), t);
      if s.threads[t].msg.Fork? && s.threads[t].msg.child in s.threads {
        TakeQuiet(s, c, k.(recvq := k.recvq[1..]), s.threads[t].msg.child);
      }
    } else if k.runq != [] && k.runq[0] in s.threads {
      TakeQuiet(s, c, k.(runq := k.runq[1..]), k.runq[0]);
    }
  }

  lemma TakeQuiet(s: Sys, c: nat, k: Core, x: Tid)
    requires c < |s.cores| && x in s.threads
    ensures var s' := Take(s, c, k, x);
            && s'.exited == s.exited && s'.delivered == s.delivered && s'.tasks == s.tasks
            && s'.registered == s.registered
            && s'.next == s.next
  {
  }

  lemma FreshPid(s: Sys)
    requires Membered(s)
    ensures s.next !in s.tasks
  {
  }

  lemma {:induction false} RunConserves(s: Sys, acts: seq<Action>)
    requires Inv(s) && ExitInv(s) && IsRun(s, acts)
    ensures ExitInv(After(s, acts))
    decreases |acts|
  {
    hide Inv, ExitInv, Next, Enabled;
    if acts != [] {
      StepKeepsInv(s, acts[0]);
      StepConserves(s, acts[0]);
      RunConserves(Next(s, acts[0]), acts[1..]);
    }
  }

  lemma BootConserved(w: nat)
    requires w > 0
    ensures ExitInv(Boot(w))
  {
    var s := Boot(w);
    forall e: Exit ensures ConservedAt(s, e) {
      assert ListCount(s.tasks, 1, e) == ListCount(s.tasks, 0, e) + ExitOccurs([], e);
    }
  }

  lemma {:induction false} OnceInList(q: seq<Exit>, i: nat)
    requires i < |q| && forall a, b :: 0 <= a < b < |q| ==> q[a].pid != q[b].pid
    ensures ExitOccurs(q, q[i]) == 1
  {
    var r := q[..i] + q[i + 1..];
    assert q == q[..i] + [q[i]] + q[i + 1..];
    assert q[i] !in r;
  }

  /** In every reachable state, the status of each task that has exited is in exactly one place: one
      live task's list, or one delivery to a wait(). */
  lemma StatusesInEveryRun(w: nat, acts: seq<Action>, i: nat)
    requires w > 0 && IsRun(Boot(w), acts) && i < |After(Boot(w), acts).exited|
    ensures var s := After(Boot(w), acts); var e := s.exited[i];
            ExitOccurs(Statuses(s.delivered), e) + ListCount(s.tasks, s.next, e) == 1
  {
    hide Inv, Next, Enabled, Boot, ListCount, Statuses, ExitOccurs;
    BootInv(w);
    BootConserved(w);
    RunConserves(Boot(w), acts);
    var s := After(Boot(w), acts);
    assert ConservedAt(s, s.exited[i]);
    OnceInList(s.exited, i);
  }

  // ----- first in, first out

  /** The statuses delivered, in order, to threads of task `p`. */
  function ToTask(s: Sys, d: seq<Delivery>, p: Pid): seq<Exit> {
    if d == [] then [] else OneToTask(s, d[0], p) + ToTask(s, d[1..], p)
  }

  function OneToTask(s: Sys, d: Delivery, p: Pid): seq<Exit> {
    if d.waiter in s.threads && s.threads[d.waiter].task == p then [d.exit] else []
  }

  /** The statuses that join the list of `p` in one step, in order: the exit of the vanishing task if
      `p` inherits it, and the whole list of the vanishing task if `p` is init. */
  function Joins(s: Sys, a: Action, p: Pid): seq<Exit> {
    if a.DoHandle? && s.held.Some? && s.held.value in s.threads && s.threads[s.held.value].msg.Vanish? then
      var m := s.threads[s.held.value].msg;
      (if p == Heir(s.tasks, s.init, m.vppid) then [Exit(m.vpid, m.status)] else [])
      + (if p == s.init then ListOf(s.tasks, m.vpid) else [])
    else []
  }

  predicate VanishesIn(s: Sys, a: Action, p: Pid) {
    a.DoHandle? && s.held.Some? && s.held.value in s.threads && s.threads[s.held.value].msg.Vanish?
    && s.threads[s.held.value].msg.vpid == p
  }

  /** What leaves the list of `p` in one step, in order: what is delivered to its own threads, or, when
      the task itself vanishes, everything, on its way to init. */
  ghost function Leaves(s: Sys, a: Action, p: Pid): seq<Exit>
    requires Enabled(s, a)
  {
    if VanishesIn(s, a, p) then ListOf(s.tasks, p)
    else if |Next(s, a).delivered| < |s.delivered| then []
    else ToTask(s, Next(s, a).delivered[|s.delivered|..], p)
  }

  lemma {:induction false} ToTaskConcat(s: Sys, d: seq<Delivery>, f: seq<Delivery>, p: Pid)
    ensures ToTask(s, d + f, p) == ToTask(s, d, p) + ToTask(s, f, p)
  {
    hide OneToTask;
    if d == [] {
      assert d + f == f;
    } else {
      ToTaskConcat(s, d[1..], f, p);
      assert (d + f)[1..] == d[1..] + f;
      Assoc(OneToTask(s, d[0], p), ToTask(s, d[1..], p), ToTask(s, f, p));
    }
  }

  lemma Assoc(a: seq<Exit>, b: seq<Exit>, c: seq<Exit>)
    ensures (a + b) + c == a + (b + c)
  {
  }

  /** All deliveries made from the queue of task `q` go to `q`. */
  lemma WakeOneTo(s: Sys, k: Task, q: Pid, p: Pid)
    requires k.exits != []
    requires forall t :: t in k.waiters ==> t in s.threads && s.threads[t].task == q
    ensures ToTask(s, WakeOne(k).1, p) == if p == q then Statuses(WakeOne(k).1) else []
  {
    if k.waiters != [] {
      assert k.waiters[0] in k.waiters;
    }
  }

  /** Two queue steps in a row: `x` joins and `d1` leaves, then `q` joins and `d2` leaves. */
  lemma TwoQueueSteps(l: seq<Exit>, x: seq<Exit>, d1: seq<Exit>, l1: seq<Exit>, q: seq<Exit>, d2: seq<Exit>,
                      l2: seq<Exit>)
    requires d1 + l1 == l + x && d2 + l2 == l1 + q
    ensures l + (x + q) == (d1 + d2) + l2
  {
    Assoc(l, x, q);
    Assoc(d1, l1, q);
    Assoc(d1, d2, l2);
  }

  /** The two steps a vanish makes on the list of `p`: reporting the exit, then moving the orphans. */
  lemma VanishQueueSteps(s: Sys, t: Tid, p: Pid)
    requires VanishHeld(s, t) && p != s.threads[t].task
    ensures var m := s.threads[t].msg;
            var h, x := Heir(s.tasks, s.init, m.vppid), Exit(m.vpid, m.status);
            var k := AfterReport(s.tasks, s.init, m.vpid, m.vppid, m.status);
            && ToTask(s, Report(s.tasks[h], x).1, p) + ListOf(k, p) == ListOf(s.tasks, p) + (if p == h then [x] else [])
            && ToTask(s, Adopt(k[s.init], k[m.vpid].exits).1, p) + ListOf(NewTable(s, t), p)
               == ListOf(k, p) + (if p == s.init then ListOf(s.tasks, m.vpid) else [])
  {
    hide Placed, Linked, Membered, Statuses, ToTask, Kids, Report, Adopt;
    var m := s.threads[t].msg;
    var h, x := Heir(s.tasks, s.init, m.vppid), Exit(m.vpid, m.status);
    var k := AfterReport(s.tasks, s.init, m.vpid, m.vppid, m.status);
    RecordHere(s, h);
    ReportTo(s, s.tasks[h], x, h, p);
    ReportQueue(s.tasks[h], x);
    InitWaitersAfter(s, t);
    AdoptTo(s, k[s.init], k[m.vpid].exits, s.init, p);
    AdoptQueue(k[s.init], k[m.vpid].exits);
  }

  lemma VanishFifo(s: Sys, t: Tid, p: Pid)
    requires VanishHeld(s, t) && p != s.threads[t].task
    ensures ListOf(s.tasks, p) + Joins(s, DoHandle, p) == ToTask(s, NewDeliveries(s, t), p) + ListOf(NewTable(s, t), p)
  {
    hide Inv, Statuses, ToTask, Report, Adopt, ListOf, NewTable;
    var m := s.threads[t].msg;
    var h, x := Heir(s.tasks, s.init, m.vppid), Exit(m.vpid, m.status);
    var k := AfterReport(s.tasks, s.init, m.vpid, m.vppid, m.status);
    VanishQueueSteps(s, t, p);
    ToTaskConcat(s, Report(s.tasks[h], x).1, Adopt(k[s.init], k[m.vpid].exits).1, p);
    TwoQueueSteps(ListOf(s.tasks, p), if p == h then [x] else [], ToTask(s, Report(s.tasks[h], x).1, p), ListOf(k, p),
                  if p == s.init then ListOf(s.tasks, m.vpid) else [],
                  ToTask(s, Adopt(k[s.init], k[m.vpid].exits).1, p), ListOf(NewTable(s, t), p));
  }

  lemma InitWaitersAfter(s: Sys, t: Tid)
    requires VanishHeld(s, t)
    ensures var m := s.threads[t].msg; var k := AfterReport(s.tasks, s.init, m.vpid, m.vppid, m.status);
            forall u :: u in k[s.init].waiters ==> u in s.threads && s.threads[u].task == s.init
  {
    hide Placed, Linked, Membered, Kids;
    RecordHere(s, s.init);
  }

  lemma ReportTo(s: Sys, k: Task, e: Exit, q: Pid, p: Pid)
    requires forall t :: t in k.waiters ==> t in s.threads && s.threads[t].task == q
    ensures ToTask(s, Report(k, e).1, p) == if p == q then Statuses(Report(k, e).1) else []
  {
    WakeOneTo(s, k.(exits := k.exits + [e], numZombie := k.numZombie + 1, numAlive := k.numAlive - 1), q, p);
  }

  lemma AdoptTo(s: Sys, k: Task, moved: seq<Exit>, q: Pid, p: Pid)
    requires forall t :: t in k.waiters ==> t in s.threads && s.threads[t].task == q
    ensures ToTask(s, Adopt(k, moved).1, p) == if p == q then Statuses(Adopt(k, moved).1) else []
  {
    if moved != [] {
      WakeOneTo(s, k.(exits := k.exits + moved, numZombie := k.numZombie + |moved|), q, p);
    }
  }

  lemma WaitFifo(s: Sys, t: Tid, p: Pid)
    requires Inv(s) && s.held == Some(t) && t in s.threads && s.threads[t].msg.Wait?
    ensures var s' := HandleWait(s, t);
            && s.delivered <= s'.delivered
            && ListOf(s.tasks, p) == ToTask(s, s'.delivered[|s.delivered|..], p) + ListOf(s'.tasks, p)
  {
    hide Inv;
    WaitFacts(s, t);
    var s' := HandleWait(s, t);
    var (k, o) := WaitTask(s.tasks[s.threads[t].task], t);
    if o.Reaped? {
      var d := Delivery(t, o.exit);
      assert s'.delivered[|s.delivered|..] == [d];
      assert [d][1..] == [] && ToTask(s, [d], p) == OneToTask(s, d, p);
    } else {
      assert s'.delivered[|s.delivered|..] == [];
    }
  }

  /** In every step each list is a queue: what was there plus what joins is what leaves plus what stays. */
  lemma StepFifo(s: Sys, a: Action, p: Pid)
    requires Inv(s) && Enabled(s, a)
    ensures ListOf(s.tasks, p) + Joins(s, a, p) == Leaves(s, a, p) + ListOf(Next(s, a).tasks, p)
  {
    hide Placed, Linked, Membered, Accounted, HandleFork, HandleForkResponse, HandleWait, HandleVanish, ToTask;
    hide NewTable, NewDeliveries;
    if a.DoHandle? && s.threads[s.held.value].msg.Vanish? {
      VanishLeaves(s, s.held.value, p);
    } else if a.DoHandle? && s.threads[s.held.value].msg.Wait? {
      WaitFifo(s, s.held.value, p);
      assert ListOf(s.tasks, p) + [] == ListOf(s.tasks, p);
    } else {
      QuietLists(s, a, p);
      assert ListOf(s.tasks, p) + [] == ListOf(s.tasks, p);
    }
  }

  lemma QuietLists(s: Sys, a: Action, p: Pid)
    requires Inv(s) && Enabled(s, a)
    requires a.DoHandle? ==> !s.threads[s.held.value].msg.Vanish? && !s.threads[s.held.value].msg.Wait?
    ensures Next(s, a).delivered == s.delivered && ListOf(Next(s, a).tasks, p) == ListOf(s.tasks, p)
    ensures Leaves(s, a, p) == []
  {
    hide Placed, Linked, Membered, Accounted;
    if a.DoHandle? {
      QuietHandle(s, p);
    }
    assert s.delivered[|s.delivered|..] == [];
  }

  lemma QuietHandle(s: Sys, p: Pid)
    requires Inv(s) && Enabled(s, DoHandle)
    requires !s.threads[s.held.value].msg.Vanish? && !s.threads[s.held.value].msg.Wait?
    ensures Next(s, DoHandle).delivered == s.delivered && ListOf(Next(s, DoHandle).tasks, p) == ListOf(s.tasks, p)
  {
    hide Placed, Linked, Membered, Accounted;
    HeldFacts(s);
    ThreadHere(s, s.held.value);
  }

  lemma VanishLeaves(s: Sys, t: Tid, p: Pid)
    requires VanishPending(s, t) && Enabled(s, DoHandle)
    ensures ListOf(s.tasks, p) + Joins(s, DoHandle, p) == Leaves(s, DoHandle, p) + ListOf(HandleVanish(s, t).tasks, p)
  {
    hide Inv, HandleVanish, ToTask, NewTable, NewDeliveries;
    VanishFacts(s, t);
    var s1 := VanishShape(s, t);
    TableKeys(s, t);
    if p == s.threads[t].task {
      HeirIsAlive(s, t);
      assert ListOf(s.tasks, p) + [] == ListOf(s.tasks, p);
    } else {
      VanishFifo(s, t, p);
      assert HandleVanish(s, t).delivered[|s.delivered|..] == NewDeliveries(s, t);
    }
  }

  lemma HeirIsAlive(s: Sys, t: Tid)
    requires VanishHeld(s, t)
    ensures Heir(s.tasks, s.init, s.threads[t].msg.vppid) != s.threads[t].task
  {
  }

  /** The statuses that join and leave the list of `p` over a whole run. */
  ghost function RunJoins(s: Sys, acts: seq<Action>, p: Pid): seq<Exit>
    requires IsRun(s, acts)
    decreases |acts|
  {
    if acts == [] then [] else Joins(s, acts[0], p) + RunJoins(Next(s, acts[0]), acts[1..], p)
  }

  ghost function RunLeaves(s: Sys, acts: seq<Action>, p: Pid): seq<Exit>
    requires IsRun(s, acts)
    decreases |acts|
  {
    if acts == [] then [] else Leaves(s, acts[0], p) + RunLeaves(Next(s, acts[0]), acts[1..], p)
  }

  /** Over every run, each list is first in, first out. */
  lemma {:induction false} FifoInEveryRun(s: Sys, acts: seq<Action>, p: Pid)
    requires Inv(s) && IsRun(s, acts)
    ensures ListOf(s.tasks, p) + RunJoins(s, acts, p) == RunLeaves(s, acts, p) + ListOf(After(s, acts).tasks, p)
    decreases |acts|
  {
    hide Inv, Next, Enabled, Joins, Leaves, ListOf;
    if acts == [] {
      assert ListOf(s.tasks, p) + [] == [] + ListOf(s.tasks, p);
    } else {
      var s' := Next(s, acts[0]);
      StepKeepsInv(s, acts[0]);
      StepFifo(s, acts[0], p);
      FifoInEveryRun(s', acts[1..], p);
      TwoQueueSteps(ListOf(s.tasks, p), Joins(s, acts[0], p), Leaves(s, acts[0], p), ListOf(s'.tasks, p),
                    RunJoins(s', acts[1..], p), RunLeaves(s', acts[1..], p), ListOf(After(s', acts[1..]).tasks, p));
    }
  }
}
