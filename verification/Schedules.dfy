/** Whole system calls played out on one core while nothing else is under way: what fork(), wait(),
    vanish() and a switch between threads do from end to end. They build runs that show a claim to fail. */
module Schedules {
  import opened Basics
  import opened Lifecycle
  import opened Protocol
  import opened KernelRuns

  /** `s'` is reached from `s` by some run. */
  ghost predicate Leads(s: Sys, s': Sys) {
    exists acts :: IsRun(s, acts) && After(s, acts) == s'
  }

  lemma LeadsByStep(s: Sys, a: Action)
    requires Enabled(s, a)
    ensures Leads(s, Next(s, a))
  {
    var s' := Next(s, a);
    hide Next, Enabled;
    assert [a][1..] == [];
    assert IsRun(s', []) && After(s', []) == s';
    assert IsRun(s, [a]) && After(s, [a]) == s';
  }

  lemma {:induction false} RunConcat(s: Sys, a: seq<Action>, b: seq<Action>)
    requires IsRun(s, a) && IsRun(After(s, a), b)
    ensures IsRun(s, a + b) && After(s, a + b) == After(After(s, a), b)
    decreases |a|
  {
    hide Next, Enabled;
    if a == [] {
      assert a + b == b;
    } else {
      RunConcat(Next(s, a[0]), a[1..], b);
      assert (a + b)[1..] == a[1..] + b;
    }
  }

  lemma LeadsOn(s: Sys, m: Sys, s': Sys)
    requires Leads(s, m) && Leads(m, s')
    ensures Leads(s, s')
  {
    var a :| IsRun(s, a) && After(s, a) == m;
    var b :| IsRun(m, b) && After(m, b) == s';
    RunConcat(s, a, b);
  }

  predicate SameCore(a: Core, b: Core) {
    a.running == b.running && a.runq == b.runq && a.sendq == b.sendq && a.recvq == b.recvq
  }

  /** Field by field, so that sequences and maps are compared by their contents. */
  predicate Same(a: Sys, b: Sys) {
    && |a.cores| == 1 && |b.cores| == 1 && SameCore(a.cores[0], b.cores[0]) && a.picked == b.picked
    && a.threads == b.threads && a.blocked == b.blocked
    && a.madeRunnable == b.madeRunnable && a.held == b.held && a.outbox == b.outbox && a.tasks == b.tasks
    && a.pcbs == b.pcbs && a.registered == b.registered && a.init == b.init && a.forkNext == b.forkNext
    && a.next == b.next && a.panicked == b.panicked && a.exited == b.exited && a.delivered == b.delivered
    && a.orphans == b.orphans
  }

  lemma LeadsThen(s: Sys, m: Sys, a: Action, s': Sys)
    requires Leads(s, m) && Enabled(m, a) && Same(Next(m, a), s')
    ensures Leads(s, s')
  {
    hide Leads, Enabled;
    assert Next(m, a).cores == s'.cores;
    LeadsByStep(m, a);
    LeadsOn(s, m, s');
  }

  lemma LeadsAs(s: Sys, m: Sys, s': Sys)
    requires Leads(s, m) && Same(m, s')
    ensures Leads(s, s')
  {
    hide Leads;
    assert m.cores == s'.cores;
  }

  lemma LeadsHere(s: Sys)
    ensures Leads(s, s)
  {
    assert IsRun(s, []) && After(s, []) == s;
  }

  /** One core, one runnable thread `t` on it, and nothing under way. */
  predicate Solo(s: Sys, t: Tid) {
    && s.cores == [Core(Some(t), [], [], [])] && s.picked == [] && s.held == None && s.outbox == []
    && !s.panicked && s.forkNext == 0 && s.madeRunnable == {}
    && t in s.threads && s.threads[t].role == Live && s.threads[t].stage == OnCore && t !in s.blocked
  }

  /** Thread `u` is blocked and could take over. */
  predicate Spare(s: Sys, u: Tid) {
    u in s.blocked && u in s.threads && s.threads[u].role == Live && s.threads[u].stage == OnCore
  }

  // ----- the manager receives and sends

  lemma Received(s: Sys, m: Sys, r: Option<Tid>, q: seq<Tid>, t: Tid, s': Sys)
    requires Leads(s, m) && m.cores == [Core(r, q, [t], [])] && m.held == None && m.outbox == [] && !m.panicked
    requires t in m.threads
    requires Same(m.(cores := [Core(r, q, [], [])], held := Some(t),
                     threads := m.threads[t := m.threads[t].(stage := Held)]), s')
    ensures Leads(s, s')
  {
    hide Leads;
    LeadsThen(s, m, DoPoll(0), s');
  }

  lemma Transmitted(s: Sys, m: Sys, r: Option<Tid>, recvq: seq<Tid>, t: Tid, rest: seq<Send>, s': Sys)
    requires Leads(s, m) && m.cores == [Core(r, [], [], recvq)] && m.outbox == [Send(t, 0)] + rest && m.held == None
    requires !m.panicked
    requires Same(m.(cores := [Core(r, [], [], recvq + [t])], outbox := rest), s')
    ensures Leads(s, s')
  {
    hide Leads;
    LeadsThen(s, m, DoTransmit, s');
  }

  // ----- taking a message from the receive queue

  /** The first message `x` of the receive queue has been picked by the running thread `r`, or by idle,
      and switched to. */
  function Resumed(s: Sys, r: Option<Tid>, rest: seq<Tid>, x: Tid): Sys
    requires x in s.threads
  {
    s.(cores := [Core(Some(x), if r.Some? then [r.value] else [], [], rest)],
       threads := s.threads[x := s.threads[x].(stage := OnCore)])
  }

  lemma PickAndSwitch(s: Sys, r: Option<Tid>, rest: seq<Tid>, x: Tid)
    requires s.cores == [Core(r, [], [], [x] + rest)] && s.picked == [] && !s.panicked
    requires x in s.threads && !s.threads[x].msg.Fork? && Resumes(s.threads[x].msg)
    ensures Leads(s, Resumed(s, r, rest, x))
  {
    var s1 := s.(cores := [Core(r, [], [], rest)], picked := [Pick(r, 0, x)],
                 threads := s.threads[x := s.threads[x].(stage := Picked)]);
    hide Leads, LatestPick;
    LeadsHere(s);
    OnePick(r, 0, x);
    assert s.cores[0].recvq[1..] == rest && s.cores[0].recvq[0] == x;
    LeadsThen(s, s, DoPick(0), s1);
    LeadsThen(s, s1, DoSwitch(0), Resumed(s, r, rest, x));
  }

  // ----- fork

  /** The state in the middle of a fork by `t`: the core, the manager's hands, and the two threads. */
  function Forking(s: Sys, t: Tid, k: Core, held: Option<Tid>, outbox: seq<Send>, parent: Thread, child: Thread): Sys {
    s.(cores := [k], held := held, outbox := outbox,
       threads := s.threads[t := parent][s.next := child], next := s.next + 1)
  }

  predicate MayFork(s: Sys, t: Tid) {
    && Solo(s, t) && s.threads[t].task in s.pcbs && |s.pcbs[s.threads[t].task].members| <= 1
    && s.threads[t].task in s.tasks && t < s.next && s.threads[t].task < s.next
  }

  function Request(s: Sys, t: Tid): Thread
    requires t in s.threads
  {
    s.threads[t].(cpu := 0, msg := Fork(s.next, s.threads[t].task))
  }

  function Newcomer(s: Sys, t: Tid): Thread {
    Thread(s.next, Newborn, Embryo, 0, ForkResponse(t))
  }

  function Noted(s: Sys): Table {
    s.tasks[s.next := NEW_TASK]
  }

  /** The request has reached the core again. */
  function Asked(s: Sys, t: Tid): Sys
    requires t in s.threads
  {
    Forking(s, t, Core(None, [], [], [t]), None, [], Request(s, t).(stage := Returning), Newcomer(s, t))
      .(tasks := Noted(s))
  }

  lemma ForkAsked(s: Sys, t: Tid)
    requires MayFork(s, t)
    ensures Leads(s, Asked(s, t))
  {
    var m, c := Request(s, t), Newcomer(s, t);
    var s2 := Forking(s, t, Core(None, [], [], []), Some(t), [], m.(stage := Held), c);
    var s3 := Forking(s, t, Core(None, [], [], []), None, [Send(t, 0)], m.(stage := Returning), c).(tasks := Noted(s));
    hide Leads;
    ForkSent(s, t, s2);
    ForkNoted(s, t, s2, s3);
    assert s3.outbox == [Send(t, 0)] + [];
    Transmitted(s, s3, None, [], t, [], Asked(s, t));
  }

  lemma ForkNoted(s: Sys, t: Tid, s2: Sys, s3: Sys)
    requires MayFork(s, t) && Leads(s, s2)
    requires s2 == Forking(s, t, Core(None, [], [], []), Some(t), [], Request(s, t).(stage := Held), Newcomer(s, t))
    requires s3 == Forking(s, t, Core(None, [], [], []), None, [Send(t, 0)], Request(s, t).(stage := Returning),
                           Newcomer(s, t)).(tasks := Noted(s))
    ensures Leads(s, s3)
  {
    hide Leads;
    LeadsThen(s, s2, DoHandle, s3);
  }

  lemma ForkSent(s: Sys, t: Tid, s2: Sys)
    requires MayFork(s, t)
    requires s2 == Forking(s, t, Core(None, [], [], []), Some(t), [], Request(s, t).(stage := Held), Newcomer(s, t))
    ensures Leads(s, s2)
  {
    var s1 := Forking(s, t, Core(None, [], [t], []), None, [], Request(s, t).(stage := Sent), Newcomer(s, t));
    hide Leads;
    LeadsHere(s);
    LeadsThen(s, s, DoFork(0), s1);
    Received(s, s1, None, [], t, s2);
  }

  /** The child has announced itself and the manager holds its message. */
  function AnnouncedState(s: Sys, t: Tid): Sys
    requires t in s.threads
  {
    Forking(s, t, Core(None, [], [], []), Some(s.next), [], Request(s, t).(stage := Parked),
            Newcomer(s, t).(role := Announced, stage := Held))
      .(tasks := Noted(s), pcbs := s.pcbs[s.next := Pcb(s.threads[t].task, {s.next})])
  }

  lemma ForkAnnounced(s: Sys, t: Tid)
    requires MayFork(s, t)
    ensures Leads(s, AnnouncedState(s, t))
  {
    var n, m, c := s.next, Request(s, t).(stage := Parked), Newcomer(s, t);
    var s2 := Forking(s, t, Core(Some(n), [], [], []), None, [], m, c.(stage := OnCore)).(tasks := Noted(s));
    var s3 := AnnouncedState(s, t).(cores := [Core(None, [], [n], [])], held := None,
                                    threads := s.threads[t := m][n := c.(role := Announced, stage := Sent)]);
    hide Leads;
    ForkPicked(s, t, s2);
    LeadsThen(s, s2, DoAnnounce(0), s3);
    Received(s, s3, None, [], n, AnnouncedState(s, t));
  }

  lemma ForkPicked(s: Sys, t: Tid, s2: Sys)
    requires MayFork(s, t)
    requires s2 == Forking(s, t, Core(Some(s.next), [], [], []), None, [], Request(s, t).(stage := Parked),
                           Newcomer(s, t).(stage := OnCore)).(tasks := Noted(s))
    ensures Leads(s, s2)
  {
    hide Leads, LatestPick;
    OnePick(None, 0, s.next);
    ForkTaken(s, t);
    LeadsThen(s, Taken(s, t), DoSwitch(0), s2);
  }

  /** The idle thread has picked the child. */
  function Taken(s: Sys, t: Tid): Sys
    requires t in s.threads
  {
    Forking(s, t, Core(None, [], [], []), None, [], Request(s, t).(stage := Parked), Newcomer(s, t).(stage := Picked))
      .(tasks := Noted(s), picked := [Pick(None, 0, s.next)])
  }

  lemma ForkTaken(s: Sys, t: Tid)
    requires MayFork(s, t)
    ensures Leads(s, Taken(s, t))
  {
    hide Leads, LatestPick;
    ForkAsked(s, t);
    TakenNext(s, t);
    LeadsThen(s, Asked(s, t), DoPick(0), Taken(s, t));
  }

  lemma TakenNext(s: Sys, t: Tid)
    requires MayFork(s, t)
    ensures Same(PickNext(Asked(s, t), 0), Taken(s, t))
  {
    var a := Asked(s, t);
    var k := a.cores[0];
    assert k.recvq == [t] && k.recvq[0] == t;
    assert a.threads[t].msg == Fork(s.next, s.threads[t].task) && s.next in a.threads && s.next != t;
  }

  lemma OnePick(who: Option<Tid>, c: nat, x: Tid)
    ensures LatestPick([Pick(who, c, x)], who, c) == 0
  {
  }

  /** fork() has returned in both tasks; the child is blocked. */
  function Forked(s: Sys, t: Tid): Sys
    requires t in s.threads && s.threads[t].task in s.tasks
  {
    var n, p := s.next, s.threads[t].task;
    s.(threads := s.threads[t := s.threads[t].(cpu := 0, msg := ForkDone)]
                           [n := Thread(n, Live, OnCore, 0, ForkResponse(t))],
       blocked := s.blocked + {n}, pcbs := s.pcbs[n := Pcb(p, {n})], registered := s.registered + {n}, next := n + 1,
       tasks := s.tasks[n := NEW_TASK][p := s.tasks[p].(numAlive := s.tasks[p].numAlive + 1)])
  }

  /** Both answers are on their way back. */
  function Answered(s: Sys, t: Tid, k: Core, outbox: seq<Send>, parent: Stage, child: Stage): Sys
    requires t in s.threads && s.threads[t].task in s.tasks
  {
    var f := Forked(s, t);
    f.(cores := [k], outbox := outbox, blocked := s.blocked,
       threads := s.threads[t := s.threads[t].(stage := parent, cpu := 0, msg := ForkDone)]
                           [s.next := Thread(s.next, Live, child, 0, ForkResponse(t))])
  }

  lemma BothAnswered(s: Sys, t: Tid)
    requires MayFork(s, t)
    ensures Leads(s, Answered(s, t, Core(None, [], [], []), [Send(t, 0), Send(s.next, 0)], Returning, Returning))
  {
    hide Leads;
    ForkAnnounced(s, t);
    LeadsThen(s, AnnouncedState(s, t), DoHandle,
              Answered(s, t, Core(None, [], [], []), [Send(t, 0), Send(s.next, 0)], Returning, Returning));
  }

  lemma ForkAnswered(s: Sys, t: Tid)
    requires MayFork(s, t)
    ensures Leads(s, Answered(s, t, Core(None, [], [], [t, s.next]), [], Returning, Returning))
  {
    var n := s.next;
    var s1 := Answered(s, t, Core(None, [], [], []), [Send(t, 0), Send(n, 0)], Returning, Returning);
    var s2 := Answered(s, t, Core(None, [], [], [t]), [Send(n, 0)], Returning, Returning);
    hide Leads;
    BothAnswered(s, t);
    assert s1.outbox == [Send(t, 0)] + [Send(n, 0)] && s2.outbox == [Send(n, 0)] + [];
    Transmitted(s, s1, None, [], t, [Send(n, 0)], s2);
    Transmitted(s, s2, None, [t], n, [], Answered(s, t, Core(None, [], [], [t, n]), [], Returning, Returning));
  }

  lemma ParentBack(s: Sys, t: Tid)
    requires MayFork(s, t)
    ensures Leads(s, Answered(s, t, Core(Some(t), [], [], [s.next]), [], OnCore, Returning))
  {
    var m := Answered(s, t, Core(None, [], [], [t, s.next]), [], Returning, Returning);
    hide Leads;
    ForkAnswered(s, t);
    assert m.cores[0].recvq == [t] + [s.next];
    PickAndSwitch(m, None, [s.next], t);
    LeadsOn(s, m, Resumed(m, None, [s.next], t));
    LeadsAs(s, Resumed(m, None, [s.next], t), Answered(s, t, Core(Some(t), [], [], [s.next]), [], OnCore, Returning));
  }

  lemma ChildBack(s: Sys, t: Tid)
    requires MayFork(s, t)
    ensures Leads(s, Answered(s, t, Core(Some(s.next), [t], [], []), [], OnCore, OnCore))
  {
    var m := Answered(s, t, Core(Some(t), [], [], [s.next]), [], OnCore, Returning);
    hide Leads;
    ParentBack(s, t);
    assert m.cores[0].recvq == [s.next] + [];
    PickAndSwitch(m, Some(t), [], s.next);
    LeadsOn(s, m, Resumed(m, Some(t), [], s.next));
    LeadsAs(s, Resumed(m, Some(t), [], s.next), Answered(s, t, Core(Some(s.next), [t], [], []), [], OnCore, OnCore));
  }

  /** A fork can always be completed, and does just this. */
  lemma ForkCompletes(s: Sys, t: Tid)
    requires MayFork(s, t) && s.next !in s.blocked
    ensures Leads(s, Forked(s, t)) && Solo(Forked(s, t), t)
  {
    hide Leads;
    ChildBack(s, t);
    LeadsThen(s, Answered(s, t, Core(Some(s.next), [t], [], []), [], OnCore, OnCore), DoBlock(0), Forked(s, t));
  }

  // ----- switching, and new threads

  /** `t` blocks and `u` runs instead. */
  function HandedOver(s: Sys, t: Tid, u: Tid): Sys {
    s.(cores := [Core(Some(u), [], [], [])], blocked := s.blocked - {u} + {t})
  }

  /** `u` has been woken and stands in the run queue behind the running thread. */
  function Woken(s: Sys, t: Tid, u: Tid): Sys {
    s.(cores := [Core(Some(t), [u], [], [])], blocked := s.blocked - {u})
  }

  lemma WakeSpare(s: Sys, t: Tid, u: Tid)
    requires Solo(s, t) && Spare(s, u)
    ensures Leads(s, Woken(s, t, u))
  {
    hide Leads;
    LeadsHere(s);
    LeadsThen(s, s, DoWake(0, u), Woken(s, t, u));
  }

  lemma HandOver(s: Sys, t: Tid, u: Tid)
    requires Solo(s, t) && Spare(s, u)
    ensures Leads(s, HandedOver(s, t, u)) && Solo(HandedOver(s, t, u), u)
  {
    hide Leads;
    WakeSpare(s, t, u);
    LeadsThen(s, Woken(s, t, u), DoBlock(0), HandedOver(s, t, u));
  }

  /** thread_fork() has returned; the new thread is blocked. */
  function ThreadForked(s: Sys, t: Tid): Sys
    requires t in s.threads && s.threads[t].task in s.pcbs
  {
    var n, p := s.next, s.threads[t].task;
    s.(threads := s.threads[n := Thread(p, Live, OnCore, 0, Empty)], blocked := s.blocked + {n}, next := n + 1,
       pcbs := s.pcbs[p := s.pcbs[p].(members := s.pcbs[p].members + {n})])
  }

  lemma ThreadForkCompletes(s: Sys, t: Tid)
    requires Solo(s, t) && s.threads[t].task in s.pcbs && t < s.next && s.next !in s.blocked
    ensures Leads(s, ThreadForked(s, t)) && Solo(ThreadForked(s, t), t)
  {
    var s1 := ThreadForked(s, t).(cores := [Core(Some(s.next), [t], [], [])], blocked := s.blocked);
    hide Leads;
    LeadsHere(s);
    LeadsThen(s, s, DoThreadFork(0), s1);
    LeadsThen(s, s1, DoBlock(0), ThreadForked(s, t));
  }

  // ----- wait

  /** `t` has been answered with the oldest status of its task. */
  function ReapedState(s: Sys, t: Tid): Sys
    requires t in s.threads && s.threads[t].task in s.tasks && s.tasks[s.threads[t].task].exits != []
  {
    var p := s.threads[t].task;
    var k := s.tasks[p];
    s.(threads := s.threads[t := s.threads[t].(cpu := 0, msg := WaitDone(Reaped(k.exits[0])))],
       tasks := s.tasks[p := k.(numZombie := k.numZombie - 1, exits := k.exits[1..])],
       delivered := s.delivered + [Delivery(t, k.exits[0])])
  }

  lemma WaitHeld(s: Sys, t: Tid)
    requires Solo(s, t)
    ensures var th := s.threads[t];
            Leads(s, s.(cores := [Core(None, [], [], [])], held := Some(t),
                        threads := s.threads[t := th.(stage := Held, cpu := 0, msg := Wait(th.task))]))
  {
    var th := s.threads[t].(cpu := 0, msg := Wait(s.threads[t].task));
    var s1 := s.(cores := [Core(None, [], [t], [])], threads := s.threads[t := th.(stage := Sent)]);
    hide Leads;
    LeadsHere(s);
    LeadsThen(s, s, DoWait(0), s1);
    Received(s, s1, None, [], t,
             s.(cores := [Core(None, [], [], [])], held := Some(t), threads := s.threads[t := th.(stage := Held)]));
  }

  lemma ReapAnswered(s: Sys, t: Tid)
    requires Solo(s, t) && s.threads[t].task in s.tasks
    requires s.tasks[s.threads[t].task].numZombie != 0 && s.tasks[s.threads[t].task].exits != []
    ensures var r := ReapedState(s, t);
            Leads(s, r.(cores := [Core(None, [], [], [t])],
                        threads := r.threads[t := r.threads[t].(stage := Returning)]))
  {
    var th, r := s.threads[t], ReapedState(s, t);
    var s1 := s.(cores := [Core(None, [], [], [])], held := Some(t),
                 threads := s.threads[t := th.(stage := Held, cpu := 0, msg := Wait(th.task))]);
    var s2 := r.(cores := [Core(None, [], [], [])], outbox := [Send(t, 0)],
                 threads := r.threads[t := r.threads[t].(stage := Returning)]);
    hide Leads;
    WaitHeld(s, t);
    LeadsThen(s, s1, DoHandle, s2);
    assert s2.outbox == [Send(t, 0)] + [];
    Transmitted(s, s2, None, [], t, [], s2.(cores := [Core(None, [], [], [t])], outbox := []));
  }

  lemma ReapCompletes(s: Sys, t: Tid)
    requires Solo(s, t) && s.threads[t].task in s.tasks
    requires s.tasks[s.threads[t].task].numZombie != 0 && s.tasks[s.threads[t].task].exits != []
    ensures Leads(s, ReapedState(s, t)) && Solo(ReapedState(s, t), t)
  {
    var r := ReapedState(s, t);
    var m := r.(cores := [Core(None, [], [], [t])], threads := r.threads[t := r.threads[t].(stage := Returning)]);
    hide Leads;
    ReapAnswered(s, t);
    assert m.cores[0].recvq == [t] + [];
    PickAndSwitch(m, None, [], t);
    LeadsOn(s, m, Resumed(m, None, [], t));
    LeadsAs(s, Resumed(m, None, [], t), r);
  }

  /** `t` waits for a child and `u` runs. */
  function Waits(s: Sys, t: Tid, u: Tid): Sys
    requires t in s.threads && s.threads[t].task in s.tasks
  {
    var p := s.threads[t].task;
    s.(cores := [Core(Some(u), [], [], [])], blocked := s.blocked - {u},
       threads := s.threads[t := s.threads[t].(stage := Waiting, cpu := 0, msg := Wait(p))],
       tasks := s.tasks[p := s.tasks[p].(waiters := s.tasks[p].waiters + [t])])
  }

  lemma WaitBlocks(s: Sys, t: Tid, u: Tid)
    requires Solo(s, t) && Spare(s, u) && u != t && s.threads[t].task in s.tasks
    requires var k := s.tasks[s.threads[t].task]; k.numZombie == 0 && k.numAlive != |k.waiters|
    ensures Leads(s, Waits(s, t, u)) && Solo(Waits(s, t, u), u)
  {
    hide Leads;
    WaitSent(s, t, u);
    LeadsThen(s, WaitGiven(s, t, u), DoHandle, Waits(s, t, u));
  }

  /** The manager holds the wait() of `t`, and `u` runs. */
  function WaitGiven(s: Sys, t: Tid, u: Tid): Sys
    requires t in s.threads
  {
    Woken(s, t, u).(cores := [Core(Some(u), [], [], [])], held := Some(t),
                    threads := s.threads[t := s.threads[t].(stage := Held, cpu := 0, msg := Wait(s.threads[t].task))])
  }

  lemma WaitSent(s: Sys, t: Tid, u: Tid)
    requires Solo(s, t) && Spare(s, u) && u != t
    ensures Leads(s, WaitGiven(s, t, u))
  {
    var th := s.threads[t].(stage := Sent, cpu := 0, msg := Wait(s.threads[t].task));
    var s1 := Woken(s, t, u).(cores := [Core(Some(u), [], [t], [])], threads := s.threads[t := th]);
    hide Leads;
    WakeSpare(s, t, u);
    LeadsThen(s, Woken(s, t, u), DoWait(0), s1);
    Received(s, s1, Some(u), [], t, WaitGiven(s, t, u));
  }

  // ----- vanish

  predicate MayExit(s: Sys, t: Tid, u: Tid) {
    && Solo(s, t) && Spare(s, u) && u != t
    && var p := s.threads[t].task;
      && p in s.pcbs && s.pcbs[p].members == {t}
      && CanVanish(s.tasks, s.init, p, s.pcbs[p].ppid)
  }

  /** The manager holds the exit of the last thread `t` of its task, and `u` runs. */
  function ExitHeld(s: Sys, t: Tid, u: Tid, status: int): Sys
    requires MayExit(s, t, u)
  {
    var p := s.threads[t].task;
    s.(cores := [Core(Some(u), [], [], [])], blocked := s.blocked - {u}, held := Some(t),
       threads := s.threads[t := s.threads[t].(role := Exiting, stage := Held, cpu := 0,
                                                    msg := Vanish(p, s.pcbs[p].ppid, status))],
       pcbs := s.pcbs[p := s.pcbs[p].(members := {})])
  }

  lemma ExitReported(s: Sys, t: Tid, u: Tid, status: int)
    requires MayExit(s, t, u)
    ensures Leads(s, ExitHeld(s, t, u, status))
  {
    var h := ExitHeld(s, t, u, status);
    var s1 := h.(cores := [Core(Some(u), [], [t], [])], held := None,
                 threads := h.threads[t := h.threads[t].(stage := Sent)]);
    hide Leads;
    WakeSpare(s, t, u);
    assert s.pcbs[s.threads[t].task].members - {t} == {};
    LeadsThen(s, Woken(s, t, u), DoVanish(0, status), s1);
    Received(s, s1, Some(u), [], t, h);
  }

  /** The last leg of vanish(): departing thread `t` has sent itself back to the core that created it, and
      has blocked there for good. */
  function Gone(s: Sys, t: Tid, u: Tid): Sys
    requires t in s.threads
  {
    s.(cores := [Core(Some(u), [], [], [])], blocked := s.blocked + {t},
       threads := s.threads[t := s.threads[t].(role := Dead, stage := OnCore, cpu := 0, msg := Response)])
  }

  predicate MayLeave(s: Sys, t: Tid, u: Tid) {
    && s.cores == [Core(Some(t), [u], [], [])] && s.picked == [] && s.held == None && s.outbox == []
    && !s.panicked && s.madeRunnable == {} && t in s.threads && s.threads[t].role == Departing && t != u
  }

  /** `t` on its way back: the core, the manager's hands and the thread. */
  function OnTheWay(s: Sys, t: Tid, k: Core, held: Option<Tid>, outbox: seq<Send>, th: Thread): Sys {
    s.(cores := [k], held := held, outbox := outbox, threads := s.threads[t := th])
  }

  lemma LeaveSent(s: Sys, t: Tid, u: Tid)
    requires MayLeave(s, t, u)
    ensures var th := s.threads[t].(role := Leaving, stage := Held, cpu := 0, msg := VanishBack(0));
      Leads(s, OnTheWay(s, t, Core(Some(u), [], [], []), Some(t), [], th))
  {
    var th := s.threads[t].(role := Leaving, stage := Sent, cpu := 0, msg := VanishBack(0));
    var s1 := OnTheWay(s, t, Core(Some(u), [], [t], []), None, [], th);
    var s2 := OnTheWay(s, t, Core(Some(u), [], [], []), Some(t), [], th.(stage := Held));
    hide Leads;
    LeadsHere(s);
    LeadsThen(s, s, DoLeave(0, 0), s1);
    Received(s, s1, Some(u), [], t, s2);
  }

  lemma LeaveAnswered(s: Sys, t: Tid, u: Tid)
    requires MayLeave(s, t, u)
    ensures var th := s.threads[t].(role := Dead, stage := Returning, cpu := 0, msg := Response);
      Leads(s, OnTheWay(s, t, Core(Some(u), [], [], [t]), None, [], th))
  {
    var th := s.threads[t].(role := Dead, stage := Returning, cpu := 0, msg := Response);
    var s2 := OnTheWay(s, t, Core(Some(u), [], [], []), Some(t), [],
                       s.threads[t].(role := Leaving, stage := Held, cpu := 0, msg := VanishBack(0)));
    var s3 := OnTheWay(s, t, Core(Some(u), [], [], []), None, [Send(t, 0)], th);
    hide Leads;
    LeaveSent(s, t, u);
    LeadsThen(s, s2, DoHandle, s3);
    assert s3.outbox == [Send(t, 0)] + [];
    Transmitted(s, s3, Some(u), [], t, [], OnTheWay(s, t, Core(Some(u), [], [], [t]), None, [], th));
  }

  lemma LeaveCompletes(s: Sys, t: Tid, u: Tid)
    requires MayLeave(s, t, u)
    ensures Leads(s, Gone(s, t, u))
  {
    var th := s.threads[t].(role := Dead, stage := Returning, cpu := 0, msg := Response);
    var m := OnTheWay(s, t, Core(Some(u), [], [], [t]), None, [], th);
    var b := OnTheWay(s, t, Core(Some(t), [u], [], []), None, [], th.(stage := OnCore));
    hide Leads, LatestPick;
    LeaveAnswered(s, t, u);
    assert m.cores[0].recvq == [t] + [];
    PickAndSwitch(m, Some(u), [], t);
    LeadsOn(s, m, Resumed(m, Some(u), [], t));
    LeadsAs(s, Resumed(m, Some(u), [], t), b);
    LeadsThen(s, b, DoBlock(0), Gone(s, t, u));
  }

  /** The exit has been recorded and `t` departs on the core, with `u` behind it in the run queue. */
  function Departs(s: Sys, t: Tid, u: Tid, status: int): Sys
    requires MayExit(s, t, u)
  {
    var h, p := ExitHeld(s, t, u, status), s.threads[t].task;
    var q := s.pcbs[p].ppid;
    h.(cores := [Core(Some(t), [u], [], [])], held := None,
       threads := h.threads[t := h.threads[t].(role := Departing, stage := OnCore, msg := Response)],
       tasks := VanishTasks(s.tasks, s.init, p, q, status), exited := s.exited + [Exit(p, status)],
       orphans := s.orphans + if q in s.tasks then 0 else 1)
  }

  /** The exit has been recorded, `t` is dead, and `u` runs. */
  function Exited(s: Sys, t: Tid, u: Tid, status: int): Sys
    requires MayExit(s, t, u)
  {
    Gone(Departs(s, t, u, status), t, u)
  }

  /** Nobody is waiting for this exit. */
  predicate Unawaited(s: Sys, t: Tid, u: Tid, status: int)
    requires MayExit(s, t, u)
  {
    VanishDeliveries(s.tasks, s.init, s.threads[t].task, s.pcbs[s.threads[t].task].ppid, status) == []
  }

  lemma ExitAnswered(s: Sys, t: Tid, u: Tid, status: int)
    requires MayExit(s, t, u) && Unawaited(s, t, u, status)
    ensures var d := Departs(s, t, u, status);
      Leads(s, OnTheWay(d, t, Core(Some(u), [], [], [t]), None, [], d.threads[t].(stage := Returning)))
  {
    var d := Departs(s, t, u, status);
    var th := d.threads[t].(stage := Returning);
    var s1 := OnTheWay(d, t, Core(Some(u), [], [], []), None, [Send(t, 0)], th);
    hide Leads, VanishTasks, VanishDeliveries, Heir;
    ExitReported(s, t, u, status);
    ExitHandled(s, t, u, status, s1);
    assert s1.outbox == [Send(t, 0)] + [];
    Transmitted(s, s1, Some(u), [], t, [], OnTheWay(d, t, Core(Some(u), [], [], [t]), None, [], th));
  }

  lemma ExitHandled(s: Sys, t: Tid, u: Tid, status: int, s1: Sys)
    requires MayExit(s, t, u) && Unawaited(s, t, u, status) && Leads(s, ExitHeld(s, t, u, status))
    requires var d := Departs(s, t, u, status);
      s1 == OnTheWay(d, t, Core(Some(u), [], [], []), None, [Send(t, 0)], d.threads[t].(stage := Returning))
    ensures Leads(s, s1)
  {
    hide Leads, VanishTasks, VanishDeliveries, Heir;
    var h := ExitHeld(s, t, u, status);
    assert Deliver(h, []) == h;
    LeadsThen(s, h, DoHandle, s1);
  }

  /** An exit can always be completed: reported, answered, and the thread sent home and blocked there. */
  lemma ExitCompletes(s: Sys, t: Tid, u: Tid, status: int)
    requires MayExit(s, t, u) && Unawaited(s, t, u, status)
    ensures Leads(s, Exited(s, t, u, status)) && Solo(Exited(s, t, u, status), u)
  {
    hide Leads, VanishTasks, VanishDeliveries, Heir;
    ExitSwitched(s, t, u, status);
    LeaveCompletes(Departs(s, t, u, status), t, u);
    LeadsOn(s, Departs(s, t, u, status), Exited(s, t, u, status));
  }

  lemma ExitSwitched(s: Sys, t: Tid, u: Tid, status: int)
    requires MayExit(s, t, u) && Unawaited(s, t, u, status)
    ensures Leads(s, Departs(s, t, u, status))
  {
    var d := Departs(s, t, u, status);
    var m := OnTheWay(d, t, Core(Some(u), [], [], [t]), None, [], d.threads[t].(stage := Returning));
    hide Leads, VanishTasks, VanishDeliveries, Heir;
    ExitAnswered(s, t, u, status);
    assert m.cores[0].recvq == [t] + [];
    PickAndSwitch(m, Some(u), [], t);
    LeadsOn(s, m, Resumed(m, Some(u), [], t));
    LeadsAs(s, Resumed(m, Some(u), [], t), d);
  }
}
