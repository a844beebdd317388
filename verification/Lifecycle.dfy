/** The manager core's bookkeeping for fork(), vanish() and wait(): one record per live task, holding
    its child counters, the wait() messages blocked on it and the exit statuses not yet collected. */
module Lifecycle {
  import opened Basics

  datatype Exit = Exit(pid: Pid, status: int)

  /** `pcb_vanish_wait_t`: `waiters` is the queue of wait() messages, named by their threads, and
      `exits` is `child_exit_status_list`. */
  datatype Task = Task(numAlive: int, numZombie: int, waiters: seq<Tid>, exits: seq<Exit>)

  const NEW_TASK := Task(0, 0, [], [])

  /** A WAIT_RESPONSE carrying an exit status to the thread that was waiting for it. */
  datatype Delivery = Delivery(waiter: Tid, exit: Exit)

  datatype WaitOutcome = NoChild | Blocked | Reaped(exit: Exit)

  type Table = map<Pid, Task>

  // ----- specification

  /** Hand the oldest status to the oldest waiter, if there is one. */
  function WakeOne(k: Task): (Task, seq<Delivery>)
    requires k.exits != []
  {
    if k.waiters == [] then (k, [])
    else (k.(waiters := k.waiters[1..], exits := k.exits[1..], numZombie := k.numZombie - 1),
          [Delivery(k.waiters[0], k.exits[0])])
  }

  /** A child has exited: record its status and wake one waiter. */
  function Report(k: Task, e: Exit): (Task, seq<Delivery>) {
    WakeOne(k.(exits := k.exits + [e], numZombie := k.numZombie + 1, numAlive := k.numAlive - 1))
  }

  /** init inherits the uncollected statuses of a dead task, in order, and at most one waiter wakes. */
  function Adopt(k: Task, moved: seq<Exit>): (Task, seq<Delivery>) {
    if moved == [] then (k, [])
    else WakeOne(k.(exits := k.exits + moved, numZombie := k.numZombie + |moved|))
  }

  /** Whom a vanishing task reports to: its parent, or init once the parent is gone. */
  function Heir(tasks: Table, init: Pid, ppid: Pid): Pid {
    if ppid in tasks then ppid else init
  }

  predicate CanVanish(tasks: Table, init: Pid, pid: Pid, ppid: Pid) {
    pid in tasks && init in tasks && pid != init && pid != ppid
  }

  predicate Known(tasks: Table, init: Pid, pid: Pid) {
    pid in tasks && init in tasks
  }

  function AfterReport(tasks: Table, init: Pid, pid: Pid, ppid: Pid, status: int): Table
    requires Known(tasks, init, pid)
  {
    var h := Heir(tasks, init, ppid);
    tasks[h := Report(tasks[h], Exit(pid, status)).0]
  }

  function VanishTasks(tasks: Table, init: Pid, pid: Pid, ppid: Pid, status: int): Table
    requires Known(tasks, init, pid)
  {
    var t := AfterReport(tasks, init, pid, ppid, status);
    (t - {pid})[init := Adopt(t[init], t[pid].exits).0]
  }

  function VanishDeliveries(tasks: Table, init: Pid, pid: Pid, ppid: Pid, status: int): seq<Delivery>
    requires Known(tasks, init, pid)
  {
    var h := Heir(tasks, init, ppid);
    var t := AfterReport(tasks, init, pid, ppid, status);
    Report(tasks[h], Exit(pid, status)).1 + Adopt(t[init], t[pid].exits).1
  }

  function WaitTask(k: Task, t: Tid): (Task, WaitOutcome)
    requires k.numZombie != 0 ==> k.exits != []
  {
    if k.numZombie == 0 && k.numAlive == |k.waiters| then (k, NoChild)
    else if k.numZombie == 0 then (k.(waiters := k.waiters + [t]), Blocked)
    else (k.(numZombie := k.numZombie - 1, exits := k.exits[1..]), Reaped(k.exits[0]))
  }

  // ----- what each transformation keeps

  /** The record of one task is in order: the counter counts the list, nobody waits while a status
      is queued, and every waiter has a living child left to wait for. */
  predicate Settled(k: Task) {
    && k.numZombie == |k.exits|
    && (k.waiters != [] ==> k.exits == [])
    && |k.waiters| <= k.numAlive
  }

  /** The part of `Settled` that init keeps: the counter counts the list. */
  predicate Tallied(k: Task) {
    k.numZombie == |k.exits|
  }

  /** And nobody waits while a status is queued. */
  predicate Collected(k: Task) {
    && Tallied(k)
    && (k.waiters != [] ==> k.exits == [])
  }

  lemma ReportKeepsSettled(k: Task, e: Exit)
    requires Settled(k) && k.numAlive > 0
    ensures Settled(Report(k, e).0)
    ensures Report(k, e).0.numAlive == k.numAlive - 1
    ensures k.waiters != [] ==> Report(k, e).1 == [Delivery(k.waiters[0], e)] && Report(k, e).0.exits == k.exits
    ensures k.waiters == [] ==> Report(k, e).1 == [] && Report(k, e).0.exits == k.exits + [e]
  {
    assert k.waiters != [] ==> k.exits + [e] == [e];
  }

  lemma ReportKeepsCollected(k: Task, e: Exit)
    requires Tallied(k)
    ensures Tallied(Report(k, e).0)
    ensures Collected(k) ==> Collected(Report(k, e).0)
  {
  }

  /** Inheriting wakes one waiter, however many statuses arrive. So a waiter is left blocked in front of
      a queued status exactly when two waiters meet two statuses. */
  lemma AdoptCollectedIff(k: Task, moved: seq<Exit>)
    requires Tallied(k)
    ensures Tallied(Adopt(k, moved).0)
    ensures Collected(k) ==> (Collected(Adopt(k, moved).0) <==> |k.waiters| <= 1 || |moved| <= 1)
  {
  }

  /** A child more means that one more wait() will not be refused. */
  lemma ForkMakesRoom(k: Task, t: Tid)
    requires Settled(k)
    ensures var k' := k.(numAlive := k.numAlive + 1);
            Settled(k') && |k'.waiters| < k'.numAlive && !WaitTask(k', t).1.NoChild?
  {
  }

  lemma WaitKeepsSettled(k: Task, t: Tid)
    requires Settled(k)
    ensures Settled(WaitTask(k, t).0) && WaitTask(k, t).0.numAlive == k.numAlive
    ensures WaitTask(k, t).1.NoChild? <==> k.exits == [] && k.numAlive == |k.waiters|
  {
  }

  // ----- the handlers, updating the table in place

  /** The manager core. `init` is the record orphans report to. */
  class Manager {
    var tasks: Table
    const init: Pid

    constructor (init: Pid)
      ensures tasks == map[init := NEW_TASK] && this.init == init
    {
      this.init := init;
      tasks := map[init := NEW_TASK];
    }

    /** `smp_fork_response` for a fork that succeeded. */
    method ForkResponse(ppid: Pid)
      requires ppid in tasks
      modifies this`tasks
      ensures tasks == old(tasks)[ppid := old(tasks)[ppid].(numAlive := old(tasks)[ppid].numAlive + 1)]
      ensures Settled(old(tasks)[ppid]) ==> Settled(tasks[ppid]) && forall t :: !WaitTask(tasks[ppid], t).1.NoChild?
    {
      tasks := tasks[ppid := tasks[ppid].(numAlive := tasks[ppid].numAlive + 1)];
    }

    /** Dequeue a waiter and the oldest status of task `p` and build the response, if anyone waits. */
    method Wake(p: Pid) returns (d: seq<Delivery>)
      requires p in tasks && tasks[p].exits != []
      modifies this`tasks
      ensures tasks == old(tasks)[p := WakeOne(old(tasks)[p]).0] && d == WakeOne(old(tasks)[p]).1
    {
      d := [];
      if tasks[p].waiters != [] {
        var waiter := tasks[p].waiters[0];
        tasks := tasks[p := tasks[p].(waiters := tasks[p].waiters[1..])];
        tasks := tasks[p := tasks[p].(numZombie := tasks[p].numZombie - 1)];
        var exit := tasks[p].exits[0];
        tasks := tasks[p := tasks[p].(exits := tasks[p].exits[1..])];
        d := [Delivery(waiter, exit)];
      }
    }

    /** The loop that moves a dead task's statuses, one node at a time, to the end of init's list. */
    method MoveExits(exits: seq<Exit>)
      requires init in tasks
      modifies this`tasks
      ensures tasks == old(tasks)[init := old(tasks)[init].(exits := old(tasks)[init].exits + exits,
                                                            numZombie := old(tasks)[init].numZombie + |exits|)]
    {
      ghost var k := tasks[init];
      assert k.exits + exits[..0] == k.exits;
      var rest := exits;
      ghost var j := 0;
      while rest != []
        invariant 0 <= j <= |exits| && rest == exits[j..]
        invariant tasks == old(tasks)[init := k.(exits := k.exits + exits[..j], numZombie := k.numZombie + j)]
        decreases |rest|
      {
        assert k.exits + exits[..j] + [rest[0]] == k.exits + exits[..j + 1];
        tasks := tasks[init := tasks[init].(exits := tasks[init].exits + [rest[0]])];
        tasks := tasks[init := tasks[init].(numZombie := tasks[init].numZombie + 1)];
        rest := rest[1..];
        j := j + 1;
      }
      assert exits[..j] == exits;
    }

    /** `smp_syscall_vanish`. The kernel panics when the task is unknown. If init itself vanishes with a
        status on its list, the loop that moves the list to init moves it onto itself and never ends. */
    method Vanish(pid: Pid, ppid: Pid, status: int) returns (panic: bool, stuck: bool, d: seq<Delivery>)
      requires init in tasks
      modifies this`tasks
      ensures panic <==> pid !in old(tasks)
      ensures panic ==> tasks == old(tasks)
      ensures stuck <==> !panic && pid == init && AfterReport(old(tasks), init, pid, ppid, status)[init].exits != []
      ensures !panic && pid != init ==> tasks == VanishTasks(old(tasks), init, pid, ppid, status)
      ensures !panic && pid != init ==> d == VanishDeliveries(old(tasks), init, pid, ppid, status)
      ensures !panic && pid == init && !stuck ==> tasks == AfterReport(old(tasks), init, pid, ppid, status) - {init}
    {
      panic, stuck, d := false, false, [];
      if pid !in tasks {
        panic := true;
        return;
      }
      var parent := if ppid in tasks then ppid else init;
      tasks := tasks[parent := tasks[parent].(exits := tasks[parent].exits + [Exit(pid, status)])];
      tasks := tasks[parent := tasks[parent].(numZombie := tasks[parent].numZombie + 1)];
      tasks := tasks[parent := tasks[parent].(numAlive := tasks[parent].numAlive - 1)];
      var woken := Wake(parent);
      assert tasks == AfterReport(old(tasks), init, pid, ppid, status);
      var orphan := tasks[pid].exits;
      tasks := tasks - {pid};
      if pid == init {
        return false, orphan != [], woken;
      }
      ghost var before := tasks[init];
      MoveExits(orphan);
      assert orphan == [] ==> before.exits + orphan == before.exits;
      var inherited := [];
      if orphan != [] {
        inherited := Wake(init);
      }
      d := woken + inherited;
    }

    /** `smp_syscall_wait`. The kernel panics when the task is unknown. */
    method Wait(pid: Pid, t: Tid) returns (panic: bool, o: WaitOutcome)
      requires pid in tasks && tasks[pid].numZombie != 0 ==> tasks[pid].exits != []
      modifies this`tasks
      ensures panic <==> pid !in old(tasks)
      ensures panic ==> tasks == old(tasks)
      ensures !panic ==>
        tasks == old(tasks)[pid := WaitTask(old(tasks)[pid], t).0] && o == WaitTask(old(tasks)[pid], t).1
    {
      panic, o := false, NoChild;
      if pid !in tasks {
        panic := true;
        return;
      }
      if tasks[pid].numZombie == 0 && tasks[pid].numAlive == |tasks[pid].waiters| {
        o := NoChild;
      } else if tasks[pid].numZombie == 0 {
        tasks := tasks[pid := tasks[pid].(waiters := tasks[pid].waiters + [t])];
        o := Blocked;
      } else {
        tasks := tasks[pid := tasks[pid].(numZombie := tasks[pid].numZombie - 1)];
        o := Reaped(tasks[pid].exits[0]);
        tasks := tasks[pid := tasks[pid].(exits := tasks[pid].exits[1..])];
      }
    }
  }
}
