/** What wait() is told. Every status that leaves a list is told to exactly the thread it is delivered to, and
    a thread is refused exactly when it has nothing to wait for. */
module WaitAnswers {
  import opened Basics
  import opened Lifecycle
  import opened Protocol
  import opened Placement
  import opened KernelInvariant
  import opened WorkerSteps
  import opened ManagerSteps
  import opened VanishSteps
  import opened KernelRuns
  import opened ExitStatuses
  import opened Queues
  import opened Picks
  import opened Letters
  import opened Bits

  /** Thread `t` gets a reply in the step from `s` to `s'`. */
  predicate GetsReply(s: Sys, s': Sys, t: Tid) {
    t in s'.threads && s'.threads[t].stage == Returning && !(t in s.threads && s.threads[t].stage == Returning)
  }

  predicate IsStatus(msg: Payload) {
    msg.WaitDone? && msg.outcome.Reaped?
  }

  /** Who is told which status in the step, read off the threads' messages. */
  function Told(s: Sys, s': Sys): set<Delivery> {
    set t | t in s'.threads && GetsReply(s, s', t) && IsStatus(s'.threads[t].msg) ::
      Delivery(t, s'.threads[t].msg.outcome.exit)
  }

  function InOrder(d: seq<Delivery>): set<Delivery> {
    set i | 0 <= i < |d| :: d[i]
  }

  /** What the step adds to the log of deliveries. */
  function NewLog(s: Sys, s': Sys): seq<Delivery> {
    if |s.delivered| <= |s'.delivered| then s'.delivered[|s.delivered|..] else []
  }

  // ----- one step

  /** Only the manager's handlers make replies. */
  lemma NoReply(s: Sys, a: Action, t: Tid)
    requires Inv(s) && Enabled(s, a) && !a.DoHandle?
    ensures !GetsReply(s, Next(s, a), t) && Next(s, a).delivered == s.delivered
  {
    hide Inv, Switching;
    match a
    case DoPick(c) => PickNoReply(s, c, t);
    case DoSwitch(c) => SwitchNoReply(s, c, t);
    case DoPickTid(_, _) => MoveNoReply(s, a, t);
    case DoBlock(_) => MoveNoReply(s, a, t);
    case DoWake(_, _) => MoveNoReply(s, a, t);
    case DoPoll(_) => MoveNoReply(s, a, t);
    case DoTransmit => MoveNoReply(s, a, t);
    case _ => CallNoReply(s, a, t);
  }

  lemma SwitchNoReply(s: Sys, c: nat, t: Tid)
    requires Switching(s, c)
    ensures !GetsReply(s, SwitchTo(s, c), t) && SwitchTo(s, c).delivered == s.delivered
  {
    hide LatestPick, Current;
  }

  lemma MoveNoReply(s: Sys, a: Action, t: Tid)
    requires Enabled(s, a) && (a.DoPickTid? || a.DoBlock? || a.DoWake? || a.DoPoll? || a.DoTransmit?)
    ensures !GetsReply(s, Next(s, a), t) && Next(s, a).delivered == s.delivered
  {
    hide LatestPick, SwitchAway, Current;
  }

  lemma CallNoReply(s: Sys, a: Action, t: Tid)
    requires Enabled(s, a) && !a.DoPickTid? && !a.DoBlock? && !a.DoWake? && !a.DoPoll? && !a.DoTransmit?
    requires !a.DoPick? && !a.DoSwitch? && !a.DoHandle?
    ensures !GetsReply(s, Next(s, a), t) && Next(s, a).delivered == s.delivered
  {
    hide LatestPick, SwitchAway, Current;
  }

  lemma PickNoReply(s: Sys, c: nat, t: Tid)
    requires c < |s.cores|
    ensures !GetsReply(s, PickNext(s, c), t) && PickNext(s, c).delivered == s.delivered
  {
  }

  /** A reply to one thread that is no status. */
  lemma OtherReply(s: Sys, t: Tid)
    requires Inv(s) && s.held == Some(t) && t in s.threads && |s.cores| > 0
    requires !s.threads[t].msg.Wait? && !s.threads[t].msg.Vanish?
    ensures var s' := Handle(s, t);
      s'.delivered == s.delivered && forall u :: GetsReply(s, s', u) ==> !s'.threads[u].msg.WaitDone?
  {
    hide Placed, Linked, Membered, Accounted;
    HeldFacts(s);
    ThreadHere(s, t);
    if s.threads[t].msg.ForkResponse? {
      ForkResponseFacts(s, t);
    }
  }

  lemma WaitTold(s: Sys, t: Tid)
    requires Inv(s) && s.held == Some(t) && t in s.threads && s.threads[t].msg.Wait?
    ensures var s' := HandleWait(s, t);
      && s.delivered <= s'.delivered && WaitersDiffer(NewLog(s, s'))
      && Told(s, s') == InOrder(NewLog(s, s'))
  {
    hide Inv;
    HeldFactsInv(s);
    WaitFacts(s, t);
    var s', o := HandleWait(s, t), WaitTask(s.tasks[s.threads[t].task], t).1;
    if o.Reaped? {
      var x := Delivery(t, o.exit);
      assert NewLog(s, s') == [x] && [x][0] == x;
      assert InOrder([x]) == {x};
      assert GetsReply(s, s', t) && x in Told(s, s');
      assert forall y :: y in Told(s, s') ==> y.waiter == t;
    } else {
      assert NewLog(s, s') == [];
    }
  }

  lemma HeldFactsInv(s: Sys)
    requires Inv(s) && s.held.Some?
    ensures s.held.value in s.threads && s.threads[s.held.value].stage == Held
  {
    HeldFacts(s);
  }

  lemma VanishTold(s: Sys, t: Tid)
    requires VanishPending(s, t)
    ensures var s' := HandleVanish(s, t);
      && s.delivered <= s'.delivered && WaitersDiffer(NewLog(s, s'))
      && Told(s, s') == InOrder(NewLog(s, s'))
  {
    hide Inv, HandleVanish, NewDeliveries, Replies;
    HeldFactsInv(s);
    VanishAnswers(s, t);
    var s', d := HandleVanish(s, t), NewDeliveries(s, t);
    assert NewLog(s, s') == d;
    forall x | x in Told(s, s')
      ensures x in InOrder(d)
    {
      var u := x.waiter;
      assert GetsReply(s, s', u) && u != t;
      if forall i :: 0 <= i < |d| ==> d[i].waiter != u {
        assert false;
      }
      var i :| 0 <= i < |d| && d[i].waiter == u;
      assert IsTold(s, d[i], s');
    }
    forall i | 0 <= i < |d|
      ensures d[i] in Told(s, s')
    {
      assert IsTold(s, d[i], s');
      assert GetsReply(s, s', d[i].waiter);
    }
  }

  /** In every step: the threads told a status are exactly those the log names, each once, with the status
      that the log says. */
  lemma StepTold(s: Sys, a: Action)
    requires Inv(s) && Enabled(s, a)
    ensures var s' := Next(s, a);
      && s.delivered <= s'.delivered && WaitersDiffer(NewLog(s, s'))
      && Told(s, s') == InOrder(NewLog(s, s'))
  {
    hide Inv, HandleWait, HandleVanish, Told, WaitersDiffer, NewLog;
    if a.DoHandle? {
      var t := s.held.value;
      HeldFactsInv(s);
      CoresSome(s);
      if s.threads[t].msg.Wait? {
        WaitTold(s, t);
      } else if s.threads[t].msg.Vanish? {
        VanishTold(s, t);
      } else {
        OtherReply(s, t);
        NobodyTold(s, Handle(s, t));
      }
    } else {
      forall u
        ensures !GetsReply(s, Next(s, a), u) && Next(s, a).delivered == s.delivered
      {
        NoReply(s, a, u);
      }
      NobodyTold(s, Next(s, a));
    }
  }

  lemma CoresSome(s: Sys)
    requires Inv(s)
    ensures |s.cores| > 0
  {
  }

  lemma NobodyTold(s: Sys, s': Sys)
    requires s'.delivered == s.delivered && forall u :: GetsReply(s, s', u) ==> !s'.threads[u].msg.WaitDone?
    ensures s.delivered <= s'.delivered && WaitersDiffer(NewLog(s, s')) && Told(s, s') == InOrder(NewLog(s, s'))
  {
    assert NewLog(s, s') == [];
  }

  // ----- refusals

  /** The children that a wait() of task `p` can still count on: for init, less the orphans that have exited. */
  function Expected(s: Sys, p: Pid): int {
    |Kids(s, p)| - if p == s.init then s.orphans else 0
  }

  /** The manager's answer to a wait(): the oldest status if one is queued, else a refusal if every child has
      a waiter, and else none yet, with the caller last in the queue. */
  lemma WaitAnswered(s: Sys, t: Tid)
    requires Inv(s) && s.held == Some(t) && t in s.threads && s.threads[t].msg.Wait?
    ensures var s', p := HandleWait(s, t), s.threads[t].task;
      && p in s.tasks && p in s'.tasks && t in s'.threads
      && var k := s.tasks[p];
        && (k.exits != [] ==> s'.threads[t].stage == Returning && s'.threads[t].msg == WaitDone(Reaped(k.exits[0])))
        && (k.exits == [] && Expected(s, p) == |k.waiters| ==>
              s'.threads[t].stage == Returning && s'.threads[t].msg == WaitDone(NoChild))
        && (k.exits == [] && Expected(s, p) != |k.waiters| ==>
              s'.threads[t].stage == Waiting && s'.tasks[p].waiters == k.waiters + [t])
  {
    hide Placed, Linked, Membered, Accounted, Kids;
    WaitFacts(s, t);
  }

  /** Nobody else is refused: a thread told that it has no child has called wait() with no status queued and
      every child awaited. */
  lemma RefusedOnly(s: Sys, a: Action, t: Tid)
    requires Inv(s) && Enabled(s, a) && GetsReply(s, Next(s, a), t) && Next(s, a).threads[t].msg == WaitDone(NoChild)
    ensures a.DoHandle? && s.held == Some(t) && t in s.threads && s.threads[t].msg == Wait(s.threads[t].task)
    ensures var p := s.threads[t].task; p in s.tasks && s.tasks[p].exits == [] && Expected(s, p) == |s.tasks[p].waiters|
  {
    hide Placed, Linked, Membered, Accounted, Kids, HandleWait, HandleVanish, HandleFork, HandleForkResponse;
    if !a.DoHandle? {
      NoReply(s, a, t);
    } else {
      RefusedByWait(s, t);
    }
  }

  lemma RefusedByWait(s: Sys, t: Tid)
    requires Inv(s) && Enabled(s, DoHandle)
    requires GetsReply(s, Next(s, DoHandle), t) && Next(s, DoHandle).threads[t].msg == WaitDone(NoChild)
    ensures s.held == Some(t) && t in s.threads && s.threads[t].msg == Wait(s.threads[t].task)
    ensures var p := s.threads[t].task; p in s.tasks && s.tasks[p].exits == [] && Expected(s, p) == |s.tasks[p].waiters|
  {
    hide Inv, Kids, HandleVanish, HandleFork, HandleForkResponse;
    var h := s.held.value;
    HeldFactsInv(s);
    CoresSome(s);
    if s.threads[h].msg.Wait? {
      WaitFacts(s, h);
      WaitAnswered(s, h);
    } else if s.threads[h].msg.Vanish? {
      VanishRefusesNone(s, h, t);
    } else {
      OtherReply(s, h);
    }
  }

  lemma VanishRefusesNone(s: Sys, h: Tid, t: Tid)
    requires VanishPending(s, h) && GetsReply(s, HandleVanish(s, h), t)
    ensures HandleVanish(s, h).threads[t].msg != WaitDone(NoChild)
  {
    hide Inv, HandleVanish, NewDeliveries, Replies;
    HeldFactsInv(s);
    VanishAnswers(s, h);
    var s', d := HandleVanish(s, h), NewDeliveries(s, h);
    if i :| 0 <= i < |d| && d[i].waiter == t {
      assert IsTold(s, d[i], s');
    }
  }

  // ----- whole runs

  /** How many threads are told status `e` in the step. */
  function ToldOf(s: Sys, s': Sys, e: Exit): nat {
    |set d | d in Told(s, s') && d.exit == e|
  }

  lemma {:induction false} OrderedCount(d: seq<Delivery>, e: Exit)
    requires WaitersDiffer(d)
    ensures |set x | x in InOrder(d) && x.exit == e| == ExitOccurs(Statuses(d), e)
  {
    if d == [] {
      assert (set x | x in InOrder(d) && x.exit == e) == {};
    } else {
      var rest := d[1..];
      OrderedCount(rest, e);
      StatusesHead(d);
      ExitOccursAppend([d[0].exit], Statuses(rest), e);
      OneExit(d[0].exit, e);
      OrderedHead(d, e);
    }
  }

  lemma OrderedHead(d: seq<Delivery>, e: Exit)
    requires WaitersDiffer(d) && d != []
    ensures |set x | x in InOrder(d) && x.exit == e|
         == |set x | x in InOrder(d[1..]) && x.exit == e| + if d[0].exit == e then 1 else 0
  {
    var a, b := set x | x in InOrder(d) && x.exit == e, set x | x in InOrder(d[1..]) && x.exit == e;
    forall x | x in InOrder(d)
      ensures x == d[0] || x in InOrder(d[1..])
    {
      var i :| 0 <= i < |d| && d[i] == x;
      assert i > 0 ==> d[1..][i - 1] == x;
    }
    forall x | x in InOrder(d[1..])
      ensures x in InOrder(d) && x != d[0]
    {
      var i :| 0 <= i < |d[1..]| && d[1..][i] == x;
      assert d[i + 1] == x;
    }
    assert a == if d[0].exit == e then b + {d[0]} else b;
  }

  /** How many threads are told it over a run. */
  ghost function RunToldOf(s: Sys, acts: seq<Action>, e: Exit): nat
    requires IsRun(s, acts)
    decreases |acts|
  {
    if acts == [] then 0 else ToldOf(s, Next(s, acts[0]), e) + RunToldOf(Next(s, acts[0]), acts[1..], e)
  }

  lemma {:induction false} RunTold(s: Sys, acts: seq<Action>, e: Exit)
    requires Inv(s) && IsRun(s, acts)
    ensures ExitOccurs(Statuses(After(s, acts).delivered), e)
         == ExitOccurs(Statuses(s.delivered), e) + RunToldOf(s, acts, e)
    decreases |acts|
  {
    hide Inv, Next, Enabled, Told, Statuses, ExitOccurs, WaitersDiffer;
    if acts != [] {
      var s' := Next(s, acts[0]);
      StepKeepsInv(s, acts[0]);
      StepTold(s, acts[0]);
      RunTold(s', acts[1..], e);
      OrderedCount(NewLog(s, s'), e);
      assert s'.delivered == s.delivered + NewLog(s, s');
      StatusesConcat(s.delivered, NewLog(s, s'));
      ExitOccursAppend(Statuses(s.delivered), Statuses(NewLog(s, s')), e);
    }
  }

  /** In every run from boot, the status of each task that has exited either is in exactly one live task's list
      and has been told to nobody, or has been told to exactly one thread and is in no list. */
  lemma EachToldOnce(w: nat, acts: seq<Action>, i: nat)
    requires w > 0 && IsRun(Boot(w), acts) && i < |After(Boot(w), acts).exited|
    ensures var s := After(Boot(w), acts); var e := s.exited[i];
      RunToldOf(Boot(w), acts, e) + ListCount(s.tasks, s.next, e) == 1
  {
    hide Inv, Next, Enabled, ListCount, ExitOccurs, RunToldOf, IsRun, After;
    BootInv(w);
    StatusesInEveryRun(w, acts, i);
    RunTold(Boot(w), acts, After(Boot(w), acts).exited[i]);
    OneExit(Exit(0, 0), After(Boot(w), acts).exited[i]);
  }

  // ----- what is reported, and where children go

  /** The exits reported are those the calls of vanish() announced, with their statuses. */
  lemma ExitStep(s: Sys, a: Action, l: Ledger)
    requires Inv(s) && Enabled(s, a) && LettersOk(s, l)
    ensures Next(s, a).exited == s.exited +
      if a.DoHandle? && s.held.value in l && l[s.held.value].request.ForExit?
      then [Exit(s.threads[s.held.value].task, l[s.held.value].request.status)] else []
  {
    hide Inv, Next, LettersOk;
    assert s.exited + [] == s.exited;
    if a.DoHandle? {
      ExitHandled(s, l);
    } else {
      ExitedSame(s, a);
    }
  }

  lemma ExitHandled(s: Sys, l: Ledger)
    requires Inv(s) && Enabled(s, DoHandle) && LettersOk(s, l)
    ensures Next(s, DoHandle).exited == s.exited +
      if s.held.value in l && l[s.held.value].request.ForExit?
      then [Exit(s.threads[s.held.value].task, l[s.held.value].request.status)] else []
  {
    hide Placed, Linked, Membered, Accounted, MailFits, PicksFit, HandleVanish;
    var t := s.held.value;
    HeldCarries(s, l, t);
    assert s.exited + [] == s.exited;
    if s.threads[t].msg.Vanish? {
      VanishAnswers(s, t);
    }
  }

  lemma ExitedSame(s: Sys, a: Action)
    requires Inv(s) && Enabled(s, a) && !a.DoHandle?
    ensures Next(s, a).exited == s.exited && Next(s, a).tasks == s.tasks && Next(s, a).delivered == s.delivered
  {
    hide Inv, LatestPick, SwitchAway, Current, PickNext, SwitchTo;
    if a.DoPick? {
      PickQuiet(s, a.c);
    } else if a.DoSwitch? {
      SwitchQuiet(s, a.c);
    }
  }

  // ----- the order of waiters

  function QueueOf(tasks: Table, p: Pid): seq<Tid> {
    if p in tasks then tasks[p].waiters else []
  }

  function WaitersOf(s: Sys, p: Pid): seq<Tid> {
    QueueOf(s.tasks, p)
  }

  /** The thread was blocked in wait() and belongs to task `p`. */
  predicate WaitsFor(s: Sys, t: Tid, p: Pid) {
    t in s.threads && s.threads[t].stage == Waiting && s.threads[t].task == p
  }

  /** The threads of task `p` that the deliveries wake, in order. */
  function Awoken(s: Sys, d: seq<Delivery>, p: Pid): seq<Tid> {
    if d == [] then [] else (if WaitsFor(s, d[0].waiter, p) then [d[0].waiter] else []) + Awoken(s, d[1..], p)
  }

  /** The thread of task `p` that starts to wait in the step. */
  ghost function StartsToWait(s: Sys, a: Action, p: Pid): seq<Tid>
    requires Enabled(s, a)
  {
    if a.DoHandle? && WaitsFor(Next(s, a), s.held.value, p) then [s.held.value] else []
  }

  lemma {:induction false} AwokenConcat(s: Sys, d: seq<Delivery>, e: seq<Delivery>, p: Pid)
    ensures Awoken(s, d + e, p) == Awoken(s, d, p) + Awoken(s, e, p)
  {
    hide WaitsFor;
    if d == [] {
      assert d + e == e;
    } else {
      AwokenConcat(s, d[1..], e, p);
      assert (d + e)[1..] == d[1..] + e;
    }
  }

  /** Waking takes the head of the wait queue. */
  lemma WakeOneWaiter(s: Sys, k: Task, q: Pid, p: Pid)
    requires k.exits != [] && forall u :: u in k.waiters ==> WaitsFor(s, u, q)
    ensures Awoken(s, WakeOne(k).1, p) + (if p == q then WakeOne(k).0.waiters else [])
         == if p == q then k.waiters else []
  {
    if k.waiters != [] {
      var x := WakeOne(k).1;
      assert k.waiters[0] in k.waiters && x[1..] == [];
      assert Awoken(s, x, p) == if p == q then [k.waiters[0]] else [];
      assert k.waiters == [k.waiters[0]] + k.waiters[1..];
    }
  }

  lemma ReportWaiter(s: Sys, k: Task, e: Exit, q: Pid, p: Pid)
    requires forall u :: u in k.waiters ==> WaitsFor(s, u, q)
    ensures Awoken(s, Report(k, e).1, p) + (if p == q then Report(k, e).0.waiters else [])
         == if p == q then k.waiters else []
  {
    WakeOneWaiter(s, k.(exits := k.exits + [e], numZombie := k.numZombie + 1, numAlive := k.numAlive - 1), q, p);
  }

  lemma AdoptWaiter(s: Sys, k: Task, moved: seq<Exit>, q: Pid, p: Pid)
    requires forall u :: u in k.waiters ==> WaitsFor(s, u, q)
    ensures Awoken(s, Adopt(k, moved).1, p) + (if p == q then Adopt(k, moved).0.waiters else [])
         == if p == q then k.waiters else []
  {
    if moved != [] {
      WakeOneWaiter(s, k.(exits := k.exits + moved, numZombie := k.numZombie + |moved|), q, p);
    }
  }

  lemma RecordWaiters(s: Sys, p: Pid)
    requires Accounted(s) && p in s.tasks
    ensures forall u :: u in s.tasks[p].waiters ==> WaitsFor(s, u, p)
  {
    hide Kids;
    RecordHere(s, p);
  }

  /** The report of the exit wakes the head of the heir's queue. */
  lemma ReportedWaiters(s: Sys, t: Tid, p: Pid)
    requires VanishHeld(s, t)
    ensures var m := s.threads[t].msg; var h, x := Heir(s.tasks, s.init, m.vppid), Exit(m.vpid, m.status);
      QueueOf(s.tasks, p) == Awoken(s, Report(s.tasks[h], x).1, p)
                             + QueueOf(AfterReport(s.tasks, s.init, m.vpid, m.vppid, m.status), p)
  {
    hide Placed, Linked, Membered, Accounted, Awoken, Report, WaitsFor;
    var m := s.threads[t].msg;
    var h, x := Heir(s.tasks, s.init, m.vppid), Exit(m.vpid, m.status);
    RecordWaiters(s, h);
    ReportWaiter(s, s.tasks[h], x, h, p);
    if p != h {
      NoTail(Awoken(s, Report(s.tasks[h], x).1, p), QueueOf(s.tasks, p));
    }
  }

  lemma NoTail(a: seq<Tid>, q: seq<Tid>)
    requires a + [] == []
    ensures a == [] && a + q == q
  {
  }

  /** And inheriting wakes the head of init's. */
  lemma AdoptedWaiters(s: Sys, t: Tid, p: Pid)
    requires VanishHeld(s, t) && p != s.threads[t].task
    ensures var m := s.threads[t].msg; var k := AfterReport(s.tasks, s.init, m.vpid, m.vppid, m.status);
      QueueOf(k, p) == Awoken(s, Adopt(k[s.init], k[m.vpid].exits).1, p) + QueueOf(NewTable(s, t), p)
  {
    hide Placed, Linked, Membered, Accounted, Awoken, Adopt, WaitsFor, AfterReport;
    var m := s.threads[t].msg;
    var k := AfterReport(s.tasks, s.init, m.vpid, m.vppid, m.status);
    ReportedKeys(s, t);
    InitWaitersStill(s, t);
    AdoptWaiter(s, k[s.init], k[m.vpid].exits, s.init, p);
    if p != s.init {
      NoTail(Awoken(s, Adopt(k[s.init], k[m.vpid].exits).1, p), QueueOf(k, p));
    }
  }

  lemma ReportedKeys(s: Sys, t: Tid)
    requires VanishHeld(s, t)
    ensures var m := s.threads[t].msg; var k := AfterReport(s.tasks, s.init, m.vpid, m.vppid, m.status);
      s.init in k && m.vpid in k && m.vpid == s.threads[t].task != s.init
  {
    hide Inv;
  }

  lemma VanishWaiters(s: Sys, t: Tid, p: Pid)
    requires VanishHeld(s, t) && p != s.threads[t].task
    ensures QueueOf(s.tasks, p) == Awoken(s, NewDeliveries(s, t), p) + QueueOf(NewTable(s, t), p)
  {
    hide Inv, Awoken, Report, Adopt, AfterReport, QueueOf, NewTable;
    var m := s.threads[t].msg;
    var h, x := Heir(s.tasks, s.init, m.vppid), Exit(m.vpid, m.status);
    var k := AfterReport(s.tasks, s.init, m.vpid, m.vppid, m.status);
    ReportedKeys(s, t);
    ReportedWaiters(s, t, p);
    AdoptedWaiters(s, t, p);
    AwokenConcat(s, Report(s.tasks[h], x).1, Adopt(k[s.init], k[m.vpid].exits).1, p);
  }

  lemma InitWaitersStill(s: Sys, t: Tid)
    requires VanishHeld(s, t)
    ensures var m := s.threads[t].msg; var k := AfterReport(s.tasks, s.init, m.vpid, m.vppid, m.status);
      forall u :: u in k[s.init].waiters ==> WaitsFor(s, u, s.init)
  {
    hide Placed, Linked, Membered, Accounted;
    RecordWaiters(s, s.init);
  }

  /** The step on the wait queue of `p`: who was there and who starts to wait, against who is woken and who
      stays. */
  ghost predicate WaitersStep(s: Sys, a: Action, p: Pid)
    requires Enabled(s, a)
  {
    WaitersOf(s, p) + StartsToWait(s, a, p) == Awoken(s, NewLog(s, Next(s, a)), p) + WaitersOf(Next(s, a), p)
  }

  lemma NothingAwoken(s: Sys, p: Pid, q: seq<Tid>)
    ensures Awoken(s, [], p) == [] && q + [] == q == [] + q
  {
  }

  lemma VanishWaitersStep(s: Sys, t: Tid, p: Pid)
    requires VanishPending(s, t) && Enabled(s, DoHandle)
    ensures WaitersStep(s, DoHandle, p)
  {
    hide Inv, HandleVanish, NewDeliveries, NewTable, Replies, Awoken, QueueOf, WaitsFor;
    VanishAnswers(s, t);
    VanishTable(s, t);
    var s', d := HandleVanish(s, t), NewDeliveries(s, t);
    assert NewLog(s, s') == d;
    NotWaiting(s', t, p);
    NothingAwoken(s, p, WaitersOf(s, p));
    if p == s.threads[t].task {
      VanishingUnawaited(s, t, p);
    } else {
      VanishWaiters(s, t, p);
    }
  }

  lemma NotWaiting(s: Sys, t: Tid, p: Pid)
    requires t in s.threads && s.threads[t].stage == Returning
    ensures !WaitsFor(s, t, p)
  {
  }

  lemma VanishTable(s: Sys, t: Tid)
    requires VanishHeld(s, t)
    ensures HandleVanish(s, t).tasks == NewTable(s, t) && QueueOf(NewTable(s, t), s.threads[t].task) == []
  {
    hide Inv, HandleVanish, NewTable, NewDeliveries;
    var s1 := VanishShape(s, t);
    TableKeys(s, t);
  }

  lemma VanishingUnawaited(s: Sys, t: Tid, p: Pid)
    requires VanishHeld(s, t) && p == s.threads[t].task
    ensures WaitersOf(s, p) == [] && Awoken(s, NewDeliveries(s, t), p) == []
  {
    hide Placed, Linked, Membered, Accounted, Awoken, Report, Adopt, WaitsFor, NewTable;
    var m := s.threads[t].msg;
    var h, x := Heir(s.tasks, s.init, m.vppid), Exit(m.vpid, m.status);
    var k := AfterReport(s.tasks, s.init, m.vpid, m.vppid, m.status);
    HeirIsAlive(s, t);
    RecordWaiters(s, h);
    ReportWaiter(s, s.tasks[h], x, h, p);
    InitWaitersStill(s, t);
    AdoptWaiter(s, k[s.init], k[m.vpid].exits, s.init, p);
    AwokenConcat(s, Report(s.tasks[h], x).1, Adopt(k[s.init], k[m.vpid].exits).1, p);
  }

  lemma WaitWaitersStep(s: Sys, t: Tid, p: Pid)
    requires Inv(s) && Enabled(s, DoHandle) && s.held == Some(t) && s.threads[t].msg.Wait?
    ensures WaitersStep(s, DoHandle, p)
  {
    hide Inv, Awoken, NewLog, WaitTask;
    HeldFactsInv(s);
    WaitFacts(s, t);
    WaitLog(s, t, p);
    var q, k := s.threads[t].task, s.tasks[s.threads[t].task];
    WaitRecord(k, t);
    NothingAwoken(s, p, WaitersOf(s, p));
  }

  lemma WaitRecord(k: Task, t: Tid)
    requires k.numZombie != 0 ==> k.exits != []
    ensures WaitTask(k, t).0.waiters == k.waiters + if WaitTask(k, t).1.Blocked? then [t] else []
  {
    NothingMore(k.waiters);
  }

  lemma NothingMore(q: seq<Tid>)
    ensures q + [] == q
  {
  }

  /** The caller of a wait() is not among the waiters woken by it. */
  lemma WaitLog(s: Sys, t: Tid, p: Pid)
    requires Inv(s) && s.held == Some(t) && t in s.threads && s.threads[t].msg.Wait?
    ensures Awoken(s, NewLog(s, HandleWait(s, t)), p) == []
  {
    hide Inv;
    HeldFactsInv(s);
    WaitFacts(s, t);
    var s', o := HandleWait(s, t), WaitTask(s.tasks[s.threads[t].task], t).1;
    if o.Reaped? {
      var x := Delivery(t, o.exit);
      assert NewLog(s, s') == [x] && [x][0] == x && [x][1..] == [];
    } else {
      assert NewLog(s, s') == [];
    }
  }

  /** A step without a wait() or a vanish() leaves the wait queues alone. */
  lemma QuietWaiters(s: Sys, a: Action, p: Pid)
    requires Inv(s) && Enabled(s, a)
    requires a.DoHandle? ==> !s.threads[s.held.value].msg.Vanish? && !s.threads[s.held.value].msg.Wait?
    ensures WaitersOf(Next(s, a), p) == WaitersOf(s, p) && Next(s, a).delivered == s.delivered
    ensures StartsToWait(s, a, p) == []
  {
    hide Inv, Next;
    if a.DoHandle? {
      QuietHandled(s, p);
    } else {
      ExitedSame(s, a);
    }
  }

  lemma QuietHandled(s: Sys, p: Pid)
    requires Inv(s) && Enabled(s, DoHandle)
    requires !s.threads[s.held.value].msg.Vanish? && !s.threads[s.held.value].msg.Wait?
    ensures var s' := Next(s, DoHandle);
      && WaitersOf(s', p) == WaitersOf(s, p) && s'.delivered == s.delivered && !WaitsFor(s', s.held.value, p)
  {
    hide Placed, Linked, Membered, Accounted;
    HeldFacts(s);
    ThreadHere(s, s.held.value);
    if s.threads[s.held.value].msg.ForkResponse? {
      ForkResponseFacts(s, s.held.value);
    }
  }

  lemma StepWaiters(s: Sys, a: Action, p: Pid)
    requires Inv(s) && Enabled(s, a)
    ensures WaitersStep(s, a, p)
  {
    hide Inv, HandleVanish, HandleWait, Awoken, StartsToWait, WaitersOf;
    if a.DoHandle? && s.threads[s.held.value].msg.Vanish? {
      VanishWaitersStep(s, s.held.value, p);
    } else if a.DoHandle? && s.threads[s.held.value].msg.Wait? {
      WaitWaitersStep(s, s.held.value, p);
    } else {
      QuietWaiters(s, a, p);
      assert NewLog(s, Next(s, a)) == [];
      NothingAwoken(s, p, WaitersOf(s, p));
    }
  }

  /** Who starts to wait on task `p`, and who is woken, over a run. */
  ghost function RunStarts(s: Sys, acts: seq<Action>, p: Pid): seq<Tid>
    requires IsRun(s, acts)
    decreases |acts|
  {
    if acts == [] then [] else StartsToWait(s, acts[0], p) + RunStarts(Next(s, acts[0]), acts[1..], p)
  }

  ghost function RunAwoken(s: Sys, acts: seq<Action>, p: Pid): seq<Tid>
    requires IsRun(s, acts)
    decreases |acts|
  {
    if acts == [] then []
    else Awoken(s, NewLog(s, Next(s, acts[0])), p) + RunAwoken(Next(s, acts[0]), acts[1..], p)
  }

  /** Over every run, the threads that wait in a task are woken in the order in which they began to wait. */
  lemma {:induction false} WaitersInEveryRun(s: Sys, acts: seq<Action>, p: Pid)
    requires Inv(s) && IsRun(s, acts)
    ensures WaitersOf(s, p) + RunStarts(s, acts, p) == RunAwoken(s, acts, p) + WaitersOf(After(s, acts), p)
    decreases |acts|
  {
    hide Inv, Next, Enabled, StartsToWait, Awoken, WaitersOf, NewLog;
    if acts == [] {
      HeadFirst(WaitersOf(s, p));
    } else {
      var a, s' := acts[0], Next(s, acts[0]);
      StepWaiters(s, a, p);
      StepKeepsInv(s, a);
      WaitersInEveryRun(s', acts[1..], p);
      Requeue(WaitersOf(s, p), StartsToWait(s, a, p), Awoken(s, NewLog(s, s'), p), WaitersOf(s', p),
              RunStarts(s', acts[1..], p), RunAwoken(s', acts[1..], p), WaitersOf(After(s', acts[1..]), p));
    }
  }

  // ----- where forks go

  /** How many forks the manager has placed in a run. */
  ghost function ForksPlaced(s: Sys, acts: seq<Action>): nat
    requires IsRun(s, acts)
    decreases |acts|
  {
    if acts == [] then 0
    else (if PlacesFork(s, acts[0]) then 1 else 0) + ForksPlaced(Next(s, acts[0]), acts[1..])
  }

  predicate PlacesFork(s: Sys, a: Action) {
    a.DoHandle? && s.held.Some? && s.held.value in s.threads && s.threads[s.held.value].msg.Fork?
  }

  lemma ForkNextStep(s: Sys, a: Action)
    requires Inv(s) && Enabled(s, a)
    ensures |s.cores| > 0
    ensures Next(s, a).forkNext == if PlacesFork(s, a) then Around(s.forkNext + 1, |s.cores|) else s.forkNext
  {
    hide Placed, Linked, Membered, Accounted, LatestPick, SwitchAway, Current, Deliver, VanishTasks, VanishDeliveries;
    CoresSome(s);
    if a.DoHandle? && s.threads[s.held.value].msg.Vanish? {
      var m := s.threads[s.held.value].msg;
      if CanVanish(s.tasks, s.init, m.vpid, m.vppid) {
        DeliverForkNext(s, VanishDeliveries(s.tasks, s.init, m.vpid, m.vppid, m.status));
      }
    }
  }

  lemma {:induction false} DeliverForkNext(s: Sys, d: seq<Delivery>)
    ensures Deliver(s, d).forkNext == s.forkNext
    decreases |d|
  {
    if d != [] && d[0].waiter in s.threads {
      DeliverForkNext(Tell(s, d[0]), d[1..]);
    }
  }

  /** `n` modulo `w`. */
  function Around(n: nat, w: nat): (r: nat)
    requires w > 0
    ensures r < w
  {
    n % w
  }

  lemma AroundLess(n: nat, w: nat)
    requires n < w
    ensures Around(n, w) == n
  {
  }

  lemma AroundStep(n: nat, k: nat, w: nat)
    requires w > 0
    ensures Around(Around(n, w) + k, w) == Around(n + k, w)
  {
    ModAdd(n, k, w);
  }

  lemma {:induction false} ForksCounted(s: Sys, acts: seq<Action>)
    requires Inv(s) && IsRun(s, acts)
    ensures |After(s, acts).cores| == |s.cores| > 0
    ensures After(s, acts).forkNext == Around(s.forkNext + ForksPlaced(s, acts), |s.cores|)
    decreases |acts|
  {
    hide Inv, Next, Enabled, PlacesFork, Around;
    ForkNextBound(s);
    if acts == [] {
      AroundLess(s.forkNext, |s.cores|);
    } else {
      var s' := Next(s, acts[0]);
      StepKeepsInv(s, acts[0]);
      CoresStay(s, acts[0]);
      ForkNextStep(s, acts[0]);
      ForksCounted(s', acts[1..]);
      AroundStep(s.forkNext + 1, ForksPlaced(s', acts[1..]), |s.cores|);
    }
  }

  lemma ForkNextBound(s: Sys)
    requires Inv(s)
    ensures s.forkNext < |s.cores|
  {
  }

  /** Children go round the cores: in every run from boot the n-th fork is placed on core n modulo their
      number. */
  lemma ForksGoRound(w: nat, acts: seq<Action>)
    requires w > 0 && IsRun(Boot(w), acts) && PlacesFork(After(Boot(w), acts), DoHandle)
    requires Enabled(After(Boot(w), acts), DoHandle)
    ensures var s := After(Boot(w), acts);
      Next(s, DoHandle).outbox == s.outbox + [Send(s.held.value, ForksPlaced(Boot(w), acts) % w)]
  {
    hide Inv, IsRun, After, ForksPlaced, HandleForkResponse, HandleWait, HandleVanish, HandleTour;
    BootInv(w);
    ForksCounted(Boot(w), acts);
  }
}
