/** Two runs from boot that end where a reader of the code would not expect: wait() by init refused
    although it has a living child, and a thread of init left waiting in front of a queued status. */
module InitRuns {
  import opened Basics
  import opened Lifecycle
  import opened Protocol
  import opened KernelInvariant
  import opened KernelRuns
  import opened Schedules

  /** What the next calls of a schedule depend on: who runs, the runnable threads with their tasks, and the
      task records. */
  datatype View = View(run: Tid, who: map<Tid, Pid>, tasks: Table, pcbs: map<Pid, Pcb>, registered: set<Pid>,
                       next: Tid, orphans: nat)

  predicate Seen(s: Sys, v: View) {
    && Solo(s, v.run) && v.run in v.who && s.init == 0 && s.tasks == v.tasks && s.pcbs == v.pcbs
    && s.registered == v.registered && s.next == v.next && s.orphans == v.orphans
    && (forall u :: u in s.blocked ==> u < s.next)
    && (forall u :: u in v.who ==>
          u < v.next && u in s.threads && s.threads[u].task == v.who[u] && (u != v.run ==> Spare(s, u)))
  }

  /** A state reached from boot that shows the view. */
  ghost predicate Reached(s: Sys, v: View) {
    Leads(Boot(1), s) && Seen(s, v)
  }

  lemma BootReached()
    ensures Reached(Boot(1), View(0, map[0 := 0], map[0 := NEW_TASK], map[0 := Pcb(0, {0})], {0}, 1, 0))
  {
    assert Boot(1).cores == [Core(Some(0), [], [], [])];
    LeadsHere(Boot(1));
  }

  function AfterFork(v: View): View
    requires v.run in v.who && v.who[v.run] in v.tasks
  {
    var n, p := v.next, v.who[v.run];
    v.(who := v.who[n := n], pcbs := v.pcbs[n := Pcb(p, {n})], registered := v.registered + {n}, next := n + 1,
       tasks := v.tasks[n := NEW_TASK][p := v.tasks[p].(numAlive := v.tasks[p].numAlive + 1)])
  }

  lemma Forks(s: Sys, v: View) returns (s': Sys)
    requires Reached(s, v)
    requires var p := v.who[v.run]; p in v.tasks && p in v.pcbs && |v.pcbs[p].members| <= 1 && p < v.next
    ensures Reached(s', AfterFork(v))
  {
    hide Leads;
    ForkCompletes(s, v.run);
    s' := Forked(s, v.run);
    LeadsOn(Boot(1), s, s');
  }

  lemma Hands(s: Sys, v: View, u: Tid) returns (s': Sys)
    requires Reached(s, v) && u in v.who && u != v.run
    ensures Reached(s', v.(run := u))
  {
    hide Leads;
    HandOver(s, v.run, u);
    s' := HandedOver(s, v.run, u);
    LeadsOn(Boot(1), s, s');
  }

  function AfterThreadFork(v: View): View
    requires v.run in v.who && v.who[v.run] in v.pcbs
  {
    var n, p := v.next, v.who[v.run];
    v.(who := v.who[n := p], next := n + 1, pcbs := v.pcbs[p := v.pcbs[p].(members := v.pcbs[p].members + {n})])
  }

  lemma ThreadForks(s: Sys, v: View) returns (s': Sys)
    requires Reached(s, v) && v.who[v.run] in v.pcbs
    ensures Reached(s', AfterThreadFork(v))
  {
    hide Leads;
    ThreadForkCompletes(s, v.run);
    s' := ThreadForked(s, v.run);
    LeadsOn(Boot(1), s, s');
  }

  function AfterReap(v: View): View
    requires v.run in v.who && v.who[v.run] in v.tasks && v.tasks[v.who[v.run]].exits != []
  {
    var p := v.who[v.run];
    v.(tasks := v.tasks[p := v.tasks[p].(numZombie := v.tasks[p].numZombie - 1, exits := v.tasks[p].exits[1..])])
  }

  lemma Reaps(s: Sys, v: View) returns (s': Sys)
    requires Reached(s, v)
    requires var p := v.who[v.run]; p in v.tasks && v.tasks[p].numZombie != 0 && v.tasks[p].exits != []
    ensures Reached(s', AfterReap(v))
  {
    hide Leads;
    ReapCompletes(s, v.run);
    s' := ReapedState(s, v.run);
    LeadsOn(Boot(1), s, s');
  }

  function AfterWait(v: View, u: Tid): View
    requires v.run in v.who && v.who[v.run] in v.tasks
  {
    var p := v.who[v.run];
    v.(run := u, who := v.who - {v.run}, tasks := v.tasks[p := v.tasks[p].(waiters := v.tasks[p].waiters + [v.run])])
  }

  lemma WaitsOn(s: Sys, v: View, u: Tid) returns (s': Sys)
    requires Reached(s, v) && u in v.who && u != v.run
    requires var p := v.who[v.run];
      p in v.tasks && v.tasks[p].numZombie == 0 && v.tasks[p].numAlive != |v.tasks[p].waiters|
    ensures Reached(s', AfterWait(v, u))
  {
    hide Leads;
    WaitBlocks(s, v.run, u);
    s' := Waits(s, v.run, u);
    LeadsOn(Boot(1), s, s');
  }

  predicate LastThread(v: View) {
    && v.run in v.who
    && var p := v.who[v.run];
      && p in v.pcbs && v.pcbs[p].members == {v.run} && CanVanish(v.tasks, 0, p, v.pcbs[p].ppid)
  }

  function AfterExit(v: View, u: Tid): View
    requires LastThread(v)
  {
    var p := v.who[v.run];
    var q := v.pcbs[p].ppid;
    v.(run := u, who := v.who - {v.run}, pcbs := v.pcbs[p := Pcb(q, {})], tasks := VanishTasks(v.tasks, 0, p, q, 0),
       orphans := v.orphans + if q in v.tasks then 0 else 1)
  }

  lemma Exits(s: Sys, v: View, u: Tid) returns (s': Sys)
    requires Reached(s, v) && u in v.who && u != v.run && LastThread(v)
    requires var p := v.who[v.run]; VanishDeliveries(v.tasks, 0, p, v.pcbs[p].ppid, 0) == []
    ensures Reached(s', AfterExit(v, u))
  {
    hide Leads, VanishTasks, VanishDeliveries;
    ExitCompletes(s, v.run, u, 0);
    s' := Exited(s, v.run, u, 0);
    LeadsOn(Boot(1), s, s');
  }

  // ----- wait() refused to a parent

  const ORPHANED := View(0, map[0 := 0, 2 := 2], map[0 := NEW_TASK, 2 := NEW_TASK],
                         map[0 := Pcb(0, {0}), 1 := Pcb(0, {}), 2 := Pcb(1, {2})], {0, 1, 2}, 3, 0)

  const PARENT := View(1, map[0 := 0, 1 := 1, 2 := 2],
                       map[0 := Task(1, 0, [], []), 1 := Task(1, 0, [], []), 2 := NEW_TASK],
                       map[0 := Pcb(0, {0}), 1 := Pcb(0, {1}), 2 := Pcb(1, {2})], {0, 1, 2}, 3, 0)

  /** init forks 1, which forks 2. */
  lemma MakeParent() returns (s: Sys)
    ensures Reached(s, PARENT)
  {
    hide Reached, Seen;
    var v := View(0, map[0 := 0], map[0 := NEW_TASK], map[0 := Pcb(0, {0})], {0}, 1, 0);
    BootReached();
    s := Forks(Boot(1), v);
    s := Hands(s, AfterFork(v), 1);
    v := AfterFork(v).(run := 1);
    s := Forks(s, v);
    v := AfterFork(v);
    assert v.who == PARENT.who;
    assert v.tasks == PARENT.tasks;
    assert v.pcbs == PARENT.pcbs && v.registered == PARENT.registered;
  }

  /** 1 exits and init collects it. Task 2 is an orphan now. */
  lemma MakeOrphan() returns (s: Sys)
    ensures Reached(s, ORPHANED)
  {
    hide Reached, Seen;
    s := MakeParent();
    s := Exits(s, PARENT, 0);
    var v := AfterExit(PARENT, 0);
    ReachedHas(s, v);
    s := Reaps(s, v);
    v := AfterReap(v);
    assert v.who == ORPHANED.who;
    assert v.tasks[0].exits == [] && v.tasks[0] == NEW_TASK;
    assert v.tasks == ORPHANED.tasks;
    assert v.pcbs == ORPHANED.pcbs && v.registered == ORPHANED.registered;
  }

  lemma ReachedHas(s: Sys, v: View)
    requires Reached(s, v)
    ensures v.run in v.who
  {
  }

  const MISCOUNTED := View(0, map[0 := 0, 3 := 3], map[0 := NEW_TASK, 3 := NEW_TASK],
                           map[0 := Pcb(0, {0}), 1 := Pcb(0, {}), 2 := Pcb(1, {}), 3 := Pcb(0, {3})],
                           {0, 1, 2, 3}, 4, 1)

  /** The orphan exits, init collects it too and forks 3: the counters stand at zero. */
  lemma MakeMiscount() returns (s: Sys)
    ensures Reached(s, MISCOUNTED)
  {
    hide Reached, Seen;
    s := MakeOrphan();
    s := Hands(s, ORPHANED, 2);
    var v1 := ORPHANED.(run := 2);
    s := Exits(s, v1, 0);
    var v2 := AfterExit(v1, 0);
    ReachedHas(s, v2);
    s := Reaps(s, v2);
    var v3 := AfterReap(v2);
    assert v3.tasks[0].exits == [];
    ReachedHas(s, v3);
    s := Forks(s, v3);
    var v4 := AfterFork(v3);
    assert v4.who == MISCOUNTED.who;
    assert v4.tasks[0] == NEW_TASK;
    assert v4.tasks == MISCOUNTED.tasks;
    assert v4.pcbs == MISCOUNTED.pcbs && v4.registered == MISCOUNTED.registered;
  }

  /** A run from boot after which init has a living child, no status is queued, nobody waits, and yet
      wait() by init is refused: an orphan that exited was subtracted without having been added. */
  lemma WaitWronglyRefused(t: Tid)
    ensures exists acts :: IsRun(Boot(1), acts)
              && var s := After(Boot(1), acts);
                && s.init in s.tasks && Kids(s, s.init) == {3} && s.orphans == 1
                && s.tasks[s.init] == NEW_TASK && WaitTask(s.tasks[s.init], t).1.NoChild?
  {
    var s := MakeMiscount();
    var acts :| IsRun(Boot(1), acts) && After(Boot(1), acts) == s;
    assert Kids(s, 0) == {3};
  }

  // ----- a waiter left behind

  const GRANDCHILDREN := View(0, map[0 := 0, 1 := 1, 2 := 2, 3 := 3],
                              map[0 := Task(2, 0, [], []), 1 := Task(1, 0, [], []), 2 := NEW_TASK,
                                  3 := Task(0, 2, [], [Exit(4, 0), Exit(5, 0)])],
                              map[0 := Pcb(0, {0}), 1 := Pcb(0, {1}), 2 := Pcb(0, {2}), 3 := Pcb(1, {3}),
                                  4 := Pcb(3, {}), 5 := Pcb(3, {})], {0, 1, 2, 3, 4, 5}, 6, 0)

  const CHILDREN := View(1, map[0 := 0, 1 := 1, 2 := 2], map[0 := Task(2, 0, [], []), 1 := NEW_TASK, 2 := NEW_TASK],
                         map[0 := Pcb(0, {0}), 1 := Pcb(0, {1}), 2 := Pcb(0, {2})], {0, 1, 2}, 3, 0)

  const FAMILY := View(3, map[0 := 0, 1 := 1, 2 := 2, 3 := 3, 4 := 4, 5 := 5],
                       map[0 := Task(2, 0, [], []), 1 := Task(1, 0, [], []), 2 := NEW_TASK, 3 := Task(2, 0, [], []),
                           4 := NEW_TASK, 5 := NEW_TASK],
                       map[0 := Pcb(0, {0}), 1 := Pcb(0, {1}), 2 := Pcb(0, {2}), 3 := Pcb(1, {3}),
                           4 := Pcb(3, {4}), 5 := Pcb(3, {5})],
                       {0, 1, 2, 3, 4, 5}, 6, 0)

  /** init forks 1 and 2. */
  lemma MakeChildren() returns (s: Sys)
    ensures Reached(s, CHILDREN)
  {
    hide Reached, Seen;
    var v := View(0, map[0 := 0], map[0 := NEW_TASK], map[0 := Pcb(0, {0})], {0}, 1, 0);
    BootReached();
    s := Forks(Boot(1), v);
    v := AfterFork(v);
    s := Forks(s, v);
    v := AfterFork(v);
    s := Hands(s, v, 1);
    v := v.(run := 1);
    assert v.who == CHILDREN.who;
    assert v.tasks == CHILDREN.tasks;
    assert v.pcbs == CHILDREN.pcbs && v.registered == CHILDREN.registered;
  }

  const GRANDCHILD := View(3, map[0 := 0, 1 := 1, 2 := 2, 3 := 3],
                           map[0 := Task(2, 0, [], []), 1 := Task(1, 0, [], []), 2 := NEW_TASK, 3 := NEW_TASK],
                           map[0 := Pcb(0, {0}), 1 := Pcb(0, {1}), 2 := Pcb(0, {2}), 3 := Pcb(1, {3})],
                           {0, 1, 2, 3}, 4, 0)

  /** 1 forks 3. */
  lemma MakeGrandchild() returns (s: Sys)
    ensures Reached(s, GRANDCHILD)
  {
    hide Reached, Seen;
    s := MakeChildren();
    s := Forks(s, CHILDREN);
    var v := AfterFork(CHILDREN);
    s := Hands(s, v, 3);
    v := v.(run := 3);
    assert v.who == GRANDCHILD.who;
    assert v.tasks == GRANDCHILD.tasks;
    assert v.pcbs == GRANDCHILD.pcbs && v.registered == GRANDCHILD.registered;
  }

  /** 3 forks 4 and 5. */
  lemma MakeFamily() returns (s: Sys)
    ensures Reached(s, FAMILY)
  {
    hide Reached, Seen;
    s := MakeGrandchild();
    var v := GRANDCHILD;
    s := Forks(s, v);
    v := AfterFork(v);
    s := Forks(s, v);
    v := AfterFork(v);
    assert v.who == FAMILY.who;
    assert v.tasks == FAMILY.tasks;
    assert v.pcbs == FAMILY.pcbs && v.registered == FAMILY.registered;
  }

  /** 4 and 5 exit, and nobody collects them. */
  lemma MakeZombies() returns (s: Sys)
    ensures Reached(s, GRANDCHILDREN)
  {
    hide Reached, Seen;
    s := MakeFamily();
    s := Hands(s, FAMILY, 4);
    var v := FAMILY.(run := 4);
    s := Exits(s, v, 5);
    v := AfterExit(v, 5);
    s := Exits(s, v, 0);
    v := AfterExit(v, 0);
    assert v.who == GRANDCHILDREN.who;
    assert v.tasks[3].exits == [Exit(4, 0), Exit(5, 0)];
    assert v.tasks == GRANDCHILDREN.tasks;
    assert v.pcbs == GRANDCHILDREN.pcbs;
  }

  const TWO_WAIT := View(3, map[1 := 1, 2 := 2, 3 := 3],
                         GRANDCHILDREN.tasks[0 := Task(2, 0, [0, 6], [])],
                         GRANDCHILDREN.pcbs[0 := Pcb(0, {0, 6})], {0, 1, 2, 3, 4, 5}, 7, 0)

  /** init starts a second thread and both of its threads wait. */
  lemma MakeWaiters() returns (s: Sys)
    ensures Reached(s, TWO_WAIT)
  {
    hide Reached, Seen;
    s := MakeZombies();
    s := ThreadForks(s, GRANDCHILDREN);
    var v := AfterThreadFork(GRANDCHILDREN);
    s := WaitsOn(s, v, 6);
    v := AfterWait(v, 6);
    assert v.tasks[0].waiters == [0];
    s := WaitsOn(s, v, 3);
    v := AfterWait(v, 3);
    assert v.who == TWO_WAIT.who;
    assert v.tasks[0].waiters == [0, 6];
    assert v.tasks == TWO_WAIT.tasks;
    assert v.pcbs[0].members == {0, 6};
    assert v.pcbs == TWO_WAIT.pcbs;
  }

  /** A run from boot that ends with the manager about to strand a waiter: 3 exits with two uncollected
      children while two threads of init wait. After that step one of them is still blocked although a
      status is queued for it. */
  lemma WaiterStranded()
    ensures exists acts :: IsRun(Boot(1), acts)
              && var s := After(Boot(1), acts);
                && Inv(s) && Enabled(s, DoHandle) && Strands(s, DoHandle) && s.init in Next(s, DoHandle).tasks
                && Next(s, DoHandle).tasks[s.init].waiters == [6]
                && Next(s, DoHandle).tasks[s.init].exits == [Exit(5, 0)]
  {
    var s := MakeWaiters();
    var h := ExitHeld(s, 3, 1, 0);
    hide Leads;
    ExitReported(s, 3, 1, 0);
    LeadsOn(Boot(1), s, h);
    var acts := RunTo(h);
    BootInv(1);
    RunKeepsInv(Boot(1), acts);
    hide Inv, IsRun, After;
    StrandedTable(h);
  }

  lemma RunTo(s: Sys) returns (acts: seq<Action>)
    requires Leads(Boot(1), s)
    ensures IsRun(Boot(1), acts) && After(Boot(1), acts) == s
  {
    acts :| IsRun(Boot(1), acts) && After(Boot(1), acts) == s;
  }

  lemma StrandedTable(h: Sys)
    requires h.tasks == TWO_WAIT.tasks && h.init == 0 && h.held == Some(3) && 3 in h.threads
    requires h.threads[3].msg == Vanish(3, 1, 0)
    requires !h.panicked && |h.cores| > 0 && 0 in h.threads && h.threads[0].task == 0
    ensures Enabled(h, DoHandle) && Strands(h, DoHandle)
    ensures 0 in Next(h, DoHandle).tasks
    ensures Next(h, DoHandle).tasks[0].waiters == [6] && Next(h, DoHandle).tasks[0].exits == [Exit(5, 0)]
  {
  }
}
