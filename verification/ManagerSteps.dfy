/** The manager core's steps keep the kernel invariant, and none of them can panic. */
module ManagerSteps {
  import opened Basics
  import opened Lifecycle
  import opened Protocol
  import opened Placement
  import opened KernelInvariant
  import opened WorkerSteps

  // ----- receiving and sending

  lemma HeldFacts(s: Sys)
    requires Placed(s) && s.held.Some?
    ensures s.held.value in s.threads && s.threads[s.held.value].stage == Held
  {
    assert PlacedAt(s, s.held.value);
  }

  lemma PollPlaced(s: Sys, c: nat, u: Tid)
    requires Placed(s) && c < |s.cores| && s.held == None && s.cores[c].sendq != [] && s.cores[c].sendq[0] in s.threads
    ensures PlacedAt(Poll(s, c), u)
  {
    hide Placed, CoresCount, CoreCount, WaitCount, OutCount, PickCount;
    PlacedHere(s, u);
    QueueFacts(s, c, s.cores[c].sendq[0]);
    var k := s.cores[c];
    CoreReplaced(s.cores, c, k.(sendq := k.sendq[1..]), u);
    PollCount(k, u);
  }

  lemma PollCount(k: Core, u: Tid)
    requires k.sendq != []
    ensures var k' := k.(sendq := k.sendq[1..]);
            && CoreCount(k', Running, u) == CoreCount(k, Running, u)
            && CoreCount(k', Sending, u) + (if k.sendq[0] == u then 1 else 0) == CoreCount(k, Sending, u)
            && CoreCount(k', Receiving, u) == CoreCount(k, Receiving, u)
  {
    OccursHead(k.sendq, u);
  }

  lemma TransmitPlaced(s: Sys, u: Tid)
    requires Placed(s) && s.outbox != [] && s.outbox[0].cpu < |s.cores|
    ensures PlacedAt(Transmit(s), u)
  {
    hide Placed, CoresCount, CoreCount, WaitCount, PickCount;
    PlacedHere(s, u);
    var m := s.outbox[0];
    var k := s.cores[m.cpu];
    CoreReplaced(s.cores, m.cpu, k.(recvq := k.recvq + [m.tid]), u);
    TransmitCount(k, m.tid, u);
  }

  lemma TransmitCount(k: Core, t: Tid, u: Tid)
    ensures var k' := k.(recvq := k.recvq + [t]);
            && CoreCount(k', Running, u) == CoreCount(k, Running, u)
            && CoreCount(k', Sending, u) == CoreCount(k, Sending, u)
            && CoreCount(k', Receiving, u) == CoreCount(k, Receiving, u) + if t == u then 1 else 0
  {
    OccursAppend(k.recvq, [t], u);
  }

  lemma PollLinked(s: Sys, c: nat, u: Tid)
    requires Placed(s) && Linked(s) && c < |s.cores| && s.cores[c].sendq != [] && s.cores[c].sendq[0] in s.threads
    requires u in s.threads
    ensures ThreadOk(Poll(s, c), u)
  {
    hide Placed, Linked;
    QueueFacts(s, c, s.cores[c].sendq[0]);
    ThreadHere(s, s.cores[c].sendq[0]);
    ThreadHere(s, u);
  }

  lemma PollKeepsInv(s: Sys, c: nat)
    requires Inv(s) && Enabled(s, DoPoll(c))
    ensures Inv(Poll(s, c))
  {
    hide Membered, Accounted;
    var s' := Poll(s, c);
    forall u: Tid ensures PlacedAt(s', u) {
      PollPlaced(s, c, u);
    }
    forall u | u in s'.threads ensures ThreadOk(s', u) {
      PollLinked(s, c, u);
    }
    QueueFacts(s, c, s.cores[c].sendq[0]);
    SamePartsMembered(s, s');
    SameRecordsAccounted(s, s');
  }

  lemma TransmitKeepsInv(s: Sys)
    requires Inv(s) && Enabled(s, DoTransmit)
    ensures Inv(Transmit(s))
  {
    hide Membered, Accounted, Linked, PlacedAt;
    var s' := Transmit(s);
    forall u: Tid ensures PlacedAt(s', u) {
      TransmitPlaced(s, u);
    }
    LinkedBasics(s);
    SameThreadsLinked(s, s');
    SamePartsMembered(s, s');
    SameRecordsAccounted(s, s');
  }

  // ----- answering the held message

  /** Answering moves the held thread to the outbox, whatever the answer is. */
  lemma AnswerPlaced(s: Sys, t: Tid, role: Role, msg: Payload, cpu: nat, u: Tid)
    requires PlacedAt(s, u) && s.held == Some(t) && t in s.threads && s.threads[t].stage == Held
    ensures PlacedAt(Answer(s, t, role, msg, cpu), u)
  {
    hide CoresCount, WaitCount, OutCount, PickCount;
    OutCountAppend(s.outbox, Send(t, cpu), u);
  }

  /** A plain answer: nobody else's message depends on the held one. */
  lemma PlainAnswerLinked(s: Sys, t: Tid, role: Role, msg: Payload, cpu: nat)
    requires Placed(s) && Linked(s) && s.held == Some(t) && t in s.threads && cpu < |s.cores|
    requires !s.threads[t].msg.Fork? && !s.threads[t].msg.ForkResponse?
    requires ReplyOk(Answer(s, t, role, msg, cpu), t)
    ensures Linked(Answer(s, t, role, msg, cpu))
  {
    var s' := Answer(s, t, role, msg, cpu);
    forall u | u in s'.threads ensures ThreadOk(s', u) {
      PlainAnswerOthers(s, t, role, msg, cpu, u);
    }
  }

  lemma PlainAnswerOthers(s: Sys, t: Tid, role: Role, msg: Payload, cpu: nat, u: Tid)
    requires Placed(s) && Linked(s) && s.held == Some(t) && t in s.threads && u in s.threads
    requires !s.threads[t].msg.Fork? && !s.threads[t].msg.ForkResponse?
    requires ReplyOk(Answer(s, t, role, msg, cpu), t)
    ensures ThreadOk(Answer(s, t, role, msg, cpu), u)
  {
    hide Placed, Linked;
    HeldFacts(s);
    ThreadHere(s, t);
    ThreadHere(s, u);
  }

  /** CALL, VANISH_BACK and the touring messages. */
  lemma PlainAnswerKeepsInv(s: Sys, t: Tid, role: Role, msg: Payload, cpu: nat)
    requires Inv(s) && s.held == Some(t) && t in s.threads && cpu < |s.cores|
    requires s.threads[t].msg.Call? || s.threads[t].msg.Tour? || s.threads[t].msg.VanishBack?
    requires role == if s.threads[t].msg.VanishBack? then Dead else Live
    requires msg.Response? || (msg.Tour? && s.threads[t].msg.Tour?)
    ensures Inv(Answer(s, t, role, msg, cpu))
  {
    hide Placed, Linked, Membered, Accounted;
    var s' := Answer(s, t, role, msg, cpu);
    HeldFacts(s);
    ThreadHere(s, t);
    AnswerPlacedAll(s, s', t, role, msg, cpu);
    PlainAnswerLinked(s, t, role, msg, cpu);
    SamePartsMembered(s, s');
    SameRecordsAccounted(s, s');
  }

  lemma AnswerPlacedAll(s: Sys, s': Sys, t: Tid, role: Role, msg: Payload, cpu: nat)
    requires Placed(s) && s.held == Some(t) && t in s.threads && s' == Answer(s, t, role, msg, cpu)
    ensures Placed(s')
  {
    hide PlacedAt;
    HeldFacts(s);
    forall u: Tid ensures PlacedAt(s', u) {
      AnswerPlaced(s, t, role, msg, cpu, u);
    }
  }

  // ----- FORK

  lemma HandleForkPlaced(s: Sys, t: Tid, u: Tid)
    requires Placed(s) && Linked(s) && s.held == Some(t) && t in s.threads && s.threads[t].msg.Fork?
    ensures PlacedAt(HandleFork(s, t), u)
  {
    hide Placed, Linked, CoresCount, WaitCount, OutCount, PickCount;
    PlacedHere(s, u);
    HeldFacts(s);
    ThreadHere(s, t);
    AnswerPlaced(s, t, Live, s.threads[t].msg, s.forkNext, u);
    NewTaskWaits(s.tasks, s.threads[t].msg.child, s.next, u);
  }

  lemma NewTaskWaits(tasks: Table, n: Pid, next: nat, u: Tid)
    requires n !in tasks
    ensures WaitCount(tasks[n := NEW_TASK], next, u) == WaitCount(tasks, next, u)
  {
    WaitCountChange(tasks, tasks[n := NEW_TASK], n, next, u);
  }

  lemma HandleForkOthers(s: Sys, t: Tid, u: Tid)
    requires Placed(s) && Linked(s) && s.held == Some(t) && t in s.threads && s.threads[t].msg.Fork? && u in s.threads
    ensures ThreadOk(HandleFork(s, t), u)
  {
    hide Placed, Linked;
    HeldFacts(s);
    ThreadHere(s, t);
    ThreadHere(s, u);
  }

  lemma HandleForkLinked(s: Sys, t: Tid)
    requires Placed(s) && Linked(s) && s.held == Some(t) && t in s.threads && s.threads[t].msg.Fork?
    ensures Linked(HandleFork(s, t)) && HandleFork(s, t).panicked == s.panicked
  {
    var s' := HandleFork(s, t);
    forall u | u in s'.threads ensures ThreadOk(s', u) {
      HandleForkOthers(s, t, u);
    }
  }

  /** A new record for a task the manager was not told about before has no children to count. */
  lemma HandleForkRecords(s: Sys, t: Tid)
    requires Inv(s) && s.held == Some(t) && t in s.threads && s.threads[t].msg.Fork?
    ensures Membered(HandleFork(s, t)) && Accounted(HandleFork(s, t))
  {
    var s' := HandleFork(s, t);
    HeldFacts(s);
    ThreadHere(s, t);
    var n := s.threads[t].msg.child;
    ThreadHere(s, n);
    assert TaskOfOk(s, n);
    HandleForkMembered(s, t, n);
    forall p | p in s'.tasks ensures RecordOk(s', p) {
      if p == n {
        NoKidsYet(s', n);
      } else {
        assert RecordOk(s, p);
        assert Kids(s', p) == Kids(s, p);
      }
    }
  }

  lemma NoKidsYet(s: Sys, n: Pid)
    requires Membered(s) && n !in s.registered
    ensures Kids(s, n) == {}
  {
    forall c | c in s.pcbs && c != s.init ensures s.pcbs[c].ppid != n {
      assert MembersOk(s, c);
    }
  }

  lemma HandleForkMembered(s: Sys, t: Tid, n: Tid)
    requires Membered(s) && t in s.threads && s.threads[t].msg.Fork? && s.threads[t].role == Live
    requires s.threads[t].msg.child == n && n < s.next && |s.cores| > 0 && n !in s.tasks
    ensures Membered(HandleFork(s, t))
  {
    var s' := HandleFork(s, t);
    forall p | p in s'.pcbs ensures MembersOk(s', p) {
      assert MembersOk(s, p);
    }
    forall u | u in s'.threads ensures TaskOfOk(s', u) {
      assert TaskOfOk(s, u);
    }
  }

  lemma HandleForkKeepsInv(s: Sys, t: Tid)
    requires Inv(s) && s.held == Some(t) && t in s.threads && s.threads[t].msg.Fork?
    ensures Inv(HandleFork(s, t))
  {
    hide Linked, Membered, Accounted, PlacedAt;
    LinkedBasics(s);
    forall u: Tid ensures PlacedAt(HandleFork(s, t), u) {
      HandleForkPlaced(s, t, u);
    }
    HandleForkLinked(s, t);
    HandleForkRecords(s, t);
  }

  // ----- FORK_RESPONSE

  /** The facts `smp_fork_response` relies on: the request is parked and its task is alive. */
  lemma ForkResponseFacts(s: Sys, n: Tid)
    requires Inv(s) && s.held == Some(n) && n in s.threads && s.threads[n].msg.ForkResponse?
    ensures var t := s.threads[n].msg.req;
            && t != n && t in s.threads && s.threads[t].stage == Parked && s.threads[t].role == Live
            && s.threads[t].msg == Fork(n, s.threads[t].task) && s.threads[t].task in s.tasks
            && s.threads[n].role == Announced && s.threads[n].stage == Held && s.threads[n].task == n && n in s.tasks
            && n in s.pcbs && n !in s.registered && s.pcbs[n].ppid == s.threads[t].task && n != s.init
  {
    HeldFacts(s);
    ThreadHere(s, n);
    ThreadHere(s, s.threads[n].msg.req);
    assert TaskOfOk(s, n) && TaskOfOk(s, s.threads[n].msg.req);
  }

  lemma ForkResponsePlaced(s: Sys, n: Tid, u: Tid)
    requires Inv(s) && s.held == Some(n) && n in s.threads && s.threads[n].msg.ForkResponse?
    ensures PlacedAt(HandleForkResponse(s, n), u)
  {
    hide Placed, Linked, Membered, Accounted, CoresCount, WaitCount, OutCount, PickCount;
    ForkResponseFacts(s, n);
    PlacedHere(s, u);
    var t := s.threads[n].msg.req;
    var p := s.threads[t].task;
    OutCountAppend(s.outbox, Send(t, s.threads[t].cpu), u);
    OutCountAppend(s.outbox + [Send(t, s.threads[t].cpu)], Send(n, s.threads[n].cpu), u);
    SameWaiters(s.tasks, p, s.tasks[p].(numAlive := s.tasks[p].numAlive + 1), s.next, u);
  }

  lemma SameWaiters(tasks: Table, p: Pid, k: Task, next: nat, u: Tid)
    requires p in tasks && k.waiters == tasks[p].waiters
    ensures WaitCount(tasks[p := k], next, u) == WaitCount(tasks, next, u)
  {
    WaitCountChange(tasks, tasks[p := k], p, next, u);
  }

  lemma ForkResponseOthers(s: Sys, n: Tid, u: Tid)
    requires Inv(s) && s.held == Some(n) && n in s.threads && s.threads[n].msg.ForkResponse? && u in s.threads
    ensures ThreadOk(HandleForkResponse(s, n), u)
  {
    hide Placed, Linked, Membered, Accounted;
    ForkResponseFacts(s, n);
    ThreadHere(s, n);
    ThreadHere(s, u);
  }

  lemma ForkResponseLinked(s: Sys, n: Tid)
    requires Inv(s) && s.held == Some(n) && n in s.threads && s.threads[n].msg.ForkResponse?
    ensures Linked(HandleForkResponse(s, n)) && !HandleForkResponse(s, n).panicked
  {
    hide Placed, Membered, Accounted, ThreadOk;
    var s' := HandleForkResponse(s, n);
    ForkResponseFacts(s, n);
    CpuBound(s, n);
    CpuBound(s, s.threads[n].msg.req);
    forall u | u in s'.threads ensures ThreadOk(s', u) {
      ForkResponseOthers(s, n, u);
    }
  }

  lemma ForkResponseMembered(s: Sys, n: Tid)
    requires Inv(s) && s.held == Some(n) && n in s.threads && s.threads[n].msg.ForkResponse?
    ensures Membered(HandleForkResponse(s, n))
  {
    hide Placed, Linked, Accounted, TaskOfOk, MembersOk;
    var s' := HandleForkResponse(s, n);
    ForkResponseFacts(s, n);
    forall p | p in s'.pcbs ensures MembersOk(s', p) {
      ForkResponseMembers(s, n, p);
    }
    forall u | u in s'.threads ensures TaskOfOk(s', u) {
      ForkResponseTaskOf(s, n, u);
    }
    forall u, w | u in s'.threads && w in s'.threads && BothExiting(s'.threads[u], s'.threads[w]) ensures u == w {
      assert BothExiting(s.threads[u], s.threads[w]);
    }
  }

  lemma ForkResponseMembers(s: Sys, n: Tid, p: Pid)
    requires Inv(s) && s.held == Some(n) && n in s.threads && s.threads[n].msg.ForkResponse? && p in s.pcbs
    ensures p in HandleForkResponse(s, n).pcbs && MembersOk(HandleForkResponse(s, n), p)
  {
    hide Placed, Linked, Accounted;
    ForkResponseFacts(s, n);
    assert MembersOk(s, p);
  }

  lemma ForkResponseTaskOf(s: Sys, n: Tid, u: Tid)
    requires Inv(s) && s.held == Some(n) && n in s.threads && s.threads[n].msg.ForkResponse? && u in s.threads
    ensures TaskOfOk(HandleForkResponse(s, n), u)
  {
    hide Placed, Linked, Accounted;
    ForkResponseFacts(s, n);
    assert TaskOfOk(s, u) && TaskOfOk(s, n);
  }

  /** The parent gains exactly the announced child. */
  lemma ForkResponseAccounted(s: Sys, n: Tid)
    requires Inv(s) && s.held == Some(n) && n in s.threads && s.threads[n].msg.ForkResponse?
    ensures Accounted(HandleForkResponse(s, n))
  {
    var s' := HandleForkResponse(s, n);
    ForkResponseFacts(s, n);
    forall p | p in s'.tasks ensures RecordOk(s', p) {
      ForkResponseRecord(s, n, p);
    }
  }

  lemma ForkResponseKids(s: Sys, n: Tid, p: Pid)
    requires Inv(s) && s.held == Some(n) && n in s.threads && s.threads[n].msg.ForkResponse? && p in s.tasks
    requires s.threads[n].msg.req in s.threads
    ensures n !in Kids(s, p)
    ensures Kids(HandleForkResponse(s, n), p)
         == if p == s.threads[s.threads[n].msg.req].task then Kids(s, p) + {n} else Kids(s, p)
  {
    hide Placed, Linked, Membered, Accounted;
    ForkResponseFacts(s, n);
  }

  lemma ForkResponseRecord(s: Sys, n: Tid, p: Pid)
    requires Inv(s) && s.held == Some(n) && n in s.threads && s.threads[n].msg.ForkResponse? && p in s.tasks
    ensures p in HandleForkResponse(s, n).tasks && RecordOk(HandleForkResponse(s, n), p)
  {
    hide Placed, Linked, Membered, Kids, Accounted;
    ForkResponseFacts(s, n);
    RecordHere(s, p);
    ForkResponseKids(s, n, p);
  }

  lemma RecordHere(s: Sys, p: Pid)
    requires Accounted(s) && p in s.tasks
    ensures RecordOk(s, p)
  {
  }

  lemma ForkResponseKeepsInv(s: Sys, n: Tid)
    requires Inv(s) && s.held == Some(n) && n in s.threads && s.threads[n].msg.ForkResponse?
    ensures Inv(HandleForkResponse(s, n))
  {
    hide Linked, Membered, Accounted, PlacedAt;
    forall u: Tid ensures PlacedAt(HandleForkResponse(s, n), u) {
      ForkResponsePlaced(s, n, u);
    }
    ForkResponseLinked(s, n);
    ForkResponseMembered(s, n);
    ForkResponseAccounted(s, n);
  }

  // ----- WAIT

  lemma WaitFacts(s: Sys, t: Tid)
    requires Inv(s) && s.held == Some(t) && t in s.threads && s.threads[t].msg.Wait?
    ensures var p := s.threads[t].task;
            && s.threads[t].msg == Wait(p) && s.threads[t].role == Live && s.threads[t].stage == Held
            && p in s.tasks && p < s.next && RecordOk(s, p) && t !in s.tasks[p].waiters
  {
    HeldFacts(s);
    ThreadHere(s, t);
    assert TaskOfOk(s, t);
    assert RecordOk(s, s.threads[t].task);
  }

  lemma HandleWaitPlaced(s: Sys, t: Tid, u: Tid)
    requires Inv(s) && s.held == Some(t) && t in s.threads && s.threads[t].msg.Wait?
    ensures PlacedAt(HandleWait(s, t), u)
  {
    hide Placed, Linked, Membered, Accounted, CoresCount, WaitCount, OutCount, PickCount, Occurs;
    WaitFacts(s, t);
    PlacedHere(s, u);
    var p := s.threads[t].task;
    var k := WaitTask(s.tasks[p], t).0;
    WaitQueueCount(s.tasks, p, t, s.next, u);
    if !WaitTask(s.tasks[p], t).1.Blocked? {
      OutCountAppend(s.outbox, Send(t, s.threads[t].cpu), u);
    }
  }

  /** wait() adds its caller to the queue of its task if it blocks, and touches no other queue. */
  lemma WaitQueueCount(tasks: Table, p: Pid, t: Tid, next: nat, u: Tid)
    requires p in tasks && p < next && (tasks[p].numZombie != 0 ==> tasks[p].exits != [])
    ensures var (k, o) := WaitTask(tasks[p], t);
            WaitCount(tasks[p := k], next, u) == WaitCount(tasks, next, u) + if o.Blocked? && u == t then 1 else 0
  {
    hide WaitCount, Occurs;
    var k := WaitTask(tasks[p], t).0;
    WaitCountChange(tasks, tasks[p := k], p, next, u);
    OccursAppend(tasks[p].waiters, [t], u);
    OccursOne(t, u);
  }

  lemma OccursOne(t: Tid, u: Tid)
    ensures Occurs([t], u) == if t == u then 1 else 0
  {
  }

  lemma HandleWaitOthers(s: Sys, t: Tid, u: Tid)
    requires Inv(s) && s.held == Some(t) && t in s.threads && s.threads[t].msg.Wait? && u in s.threads
    ensures ThreadOk(HandleWait(s, t), u)
  {
    hide Placed, Linked, Membered, Accounted;
    WaitFacts(s, t);
    ThreadHere(s, t);
    if u != t {
      HandleWaitBystander(s, t, u);
    }
  }

  lemma HandleWaitBystander(s: Sys, t: Tid, u: Tid)
    requires Inv(s) && s.held == Some(t) && t in s.threads && s.threads[t].msg.Wait? && u in s.threads && u != t
    ensures ThreadOk(HandleWait(s, t), u)
  {
    hide Placed, Linked, Membered, Accounted, HandleWait;
    WaitShape(s, t);
    ThreadHere(s, u);
  }

  /** wait() touches the caller's record and its task's, and removes no waiter. */
  lemma WaitShape(s: Sys, t: Tid)
    requires Inv(s) && s.held == Some(t) && t in s.threads && s.threads[t].msg.Wait?
    ensures var s' := HandleWait(s, t);
            && t in s'.threads && s'.threads == s.threads[t := s'.threads[t]]
            && s'.tasks.Keys == s.tasks.Keys && s'.pcbs == s.pcbs && s'.next == s.next && |s'.cores| == |s.cores|
            && (forall p, w :: p in s.tasks && w in s.tasks[p].waiters ==> w in s'.tasks[p].waiters)
  {
    hide Placed, Linked, Membered, Accounted, ThreadOk;
    WaitFacts(s, t);
  }

  lemma CpuBound(s: Sys, t: Tid)
    requires Linked(s) && t in s.threads
    ensures s.threads[t].cpu < |s.cores|
  {
    assert ThreadOk(s, t);
  }

  lemma HandleWaitLinked(s: Sys, t: Tid)
    requires Inv(s) && s.held == Some(t) && t in s.threads && s.threads[t].msg.Wait?
    ensures Linked(HandleWait(s, t)) && !HandleWait(s, t).panicked
  {
    hide Placed, Membered, Accounted, ThreadOk;
    var s' := HandleWait(s, t);
    WaitFacts(s, t);
    CpuBound(s, t);
    forall u | u in s'.threads ensures ThreadOk(s', u) {
      HandleWaitOthers(s, t, u);
    }
  }

  lemma HandleWaitMembered(s: Sys, t: Tid)
    requires Inv(s) && s.held == Some(t) && t in s.threads && s.threads[t].msg.Wait?
    ensures Membered(HandleWait(s, t))
  {
    hide Placed, Linked, Membered, Accounted;
    WaitFacts(s, t);
    SamePartsMembered(s, HandleWait(s, t));
  }

  lemma HandleWaitRecord(s: Sys, t: Tid, p: Pid)
    requires Inv(s) && s.held == Some(t) && t in s.threads && s.threads[t].msg.Wait? && p in s.tasks
    ensures p in HandleWait(s, t).tasks && RecordOk(HandleWait(s, t), p)
  {
    hide Placed, Linked, Membered, Accounted;
    var s' := HandleWait(s, t);
    WaitFacts(s, t);
    RecordHere(s, p);
    assert Kids(s', p) == Kids(s, p);
    if p != s.init && p == s.threads[t].task {
      WaitKeepsSettled(s.tasks[p], t);
    }
  }

  lemma HandleWaitKeepsInv(s: Sys, t: Tid)
    requires Inv(s) && s.held == Some(t) && t in s.threads && s.threads[t].msg.Wait?
    ensures Inv(HandleWait(s, t))
  {
    hide Linked, Membered, PlacedAt, RecordOk;
    forall u: Tid ensures PlacedAt(HandleWait(s, t), u) {
      HandleWaitPlaced(s, t, u);
    }
    HandleWaitLinked(s, t);
    HandleWaitMembered(s, t);
    WaitFacts(s, t);
    forall p | p in HandleWait(s, t).tasks ensures RecordOk(HandleWait(s, t), p) {
      HandleWaitRecord(s, t, p);
    }
  }
}
