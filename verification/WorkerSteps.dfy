/** The worker cores' steps keep the kernel invariant. */
module WorkerSteps {
  import opened Basics
  import opened Lifecycle
  import opened Protocol
  import opened Placement
  import opened KernelInvariant

  // ----- placement

  lemma PlacedHere(s: Sys, u: Tid)
    requires Placed(s)
    ensures PlacedAt(s, u)
  {
  }

  lemma ThreadHere(s: Sys, t: Tid)
    requires Linked(s) && t in s.threads
    ensures ThreadOk(s, t)
  {
  }

  lemma RunningFacts(s: Sys, c: nat)
    requires Placed(s) && c < |s.cores| && s.cores[c].running.Some?
    ensures var t := s.cores[c].running.value; t in s.threads && s.threads[t].stage == OnCore && t !in s.blocked
  {
    var t := s.cores[c].running.value;
    assert PlacedAt(s, t);
    CoresCountHas(s.cores, c, Running, t);
    assert Occurs(Current(s.cores[c]), t) == 1;
  }

  lemma QueueFacts(s: Sys, c: nat, t: Tid)
    requires Placed(s) && c < |s.cores|
    ensures t in s.cores[c].runq ==> t in s.threads && s.threads[t].stage == OnCore
    ensures t in s.cores[c].sendq ==> t in s.threads && s.threads[t].stage == Sent
    ensures t in s.cores[c].recvq ==> t in s.threads && s.threads[t].stage == Returning
  {
    assert PlacedAt(s, t);
    CoresCountHas(s.cores, c, Running, t);
    CoresCountHas(s.cores, c, Sending, t);
    CoresCountHas(s.cores, c, Receiving, t);
  }

  /** Replacing core `c` changes each count by what the core itself holds. */
  lemma CoreReplaced(cs: seq<Core>, c: nat, k: Core, u: Tid)
    requires c < |cs|
    ensures CoresCount(cs[c := k], Running, u) + CoreCount(cs[c], Running, u)
         == CoresCount(cs, Running, u) + CoreCount(k, Running, u)
    ensures CoresCount(cs[c := k], Sending, u) + CoreCount(cs[c], Sending, u)
         == CoresCount(cs, Sending, u) + CoreCount(k, Sending, u)
    ensures CoresCount(cs[c := k], Receiving, u) + CoreCount(cs[c], Receiving, u)
         == CoresCount(cs, Receiving, u) + CoreCount(k, Receiving, u)
  {
    CoresCountUpdate(cs, c, k, Running, u);
    CoresCountUpdate(cs, c, k, Sending, u);
    CoresCountUpdate(cs, c, k, Receiving, u);
  }

  /** What leaving a core does to its counts; `sendq` is what the leaving thread adds to the send queue. */
  lemma SwitchAwayCount(k: Core, sent: seq<Tid>, u: Tid)
    requires k.running.Some?
    ensures var k0 := SwitchAway(k); var k' := k0.(sendq := k0.sendq + sent);
            && CoreCount(k', Running, u) + (if k.running.value == u then 1 else 0) == CoreCount(k, Running, u)
            && CoreCount(k', Sending, u) == CoreCount(k, Sending, u) + Occurs(sent, u)
            && CoreCount(k', Receiving, u) == CoreCount(k, Receiving, u)
  {
    OccursAppend(k.sendq, sent, u);
    if k.runq != [] {
      OccursHead(k.runq, u);
    }
  }

  lemma SendMsgPlaced(s: Sys, c: nat, t: Tid, role: Role, cpu: nat, msg: Payload, u: Tid)
    requires Placed(s) && Runs(s, c, t)
    ensures PlacedAt(SendMsg(s, c, t, role, cpu, msg), u)
  {
    hide Placed, CoresCount, CoreCount, WaitCount, OutCount, PickCount;
    RunningFacts(s, c);
    PlacedHere(s, u);
    var k := SwitchAway(s.cores[c]);
    CoreReplaced(s.cores, c, k.(sendq := k.sendq + [t]), u);
    SwitchAwayCount(s.cores[c], [t], u);
  }

  /** Taking the `i`-th thread out of the run queue. */
  lemma RemoveCount(k: Core, i: nat, u: Tid)
    requires i < |k.runq|
    ensures var k' := k.(runq := k.runq[..i] + k.runq[i + 1..]);
            && CoreCount(k', Running, u) + (if k.runq[i] == u then 1 else 0) == CoreCount(k, Running, u)
            && CoreCount(k', Sending, u) == CoreCount(k, Sending, u)
            && CoreCount(k', Receiving, u) == CoreCount(k, Receiving, u)
  {
    OccursRemove(k.runq, i, u);
  }

  lemma PickFromRunq(s: Sys, c: nat, i: nat, u: Tid)
    requires Placed(s) && c < |s.cores| && i < |s.cores[c].runq| && s.cores[c].runq[i] in s.threads
    ensures var k := s.cores[c]; PlacedAt(Take(s, c, k.(runq := k.runq[..i] + k.runq[i + 1..]), k.runq[i]), u)
  {
    hide Placed, CoresCount, CoreCount, WaitCount, OutCount, PickCount;
    PlacedHere(s, u);
    var k := s.cores[c];
    QueueFacts(s, c, k.runq[i]);
    CoreReplaced(s.cores, c, k.(runq := k.runq[..i] + k.runq[i + 1..]), u);
    RemoveCount(k, i, u);
    PickCountAppend(s.picked, Pick(k.running, c, k.runq[i]), u);
  }

  /** Dequeuing the head of the receive queue. */
  lemma ReceiveCount(k: Core, u: Tid)
    requires k.recvq != []
    ensures var k' := k.(recvq := k.recvq[1..]);
            && CoreCount(k', Running, u) == CoreCount(k, Running, u)
            && CoreCount(k', Receiving, u) + (if k.recvq[0] == u then 1 else 0) == CoreCount(k, Receiving, u)
            && CoreCount(k', Sending, u) == CoreCount(k, Sending, u)
  {
    OccursHead(k.recvq, u);
  }

  lemma PickNextPlaced(s: Sys, c: nat, u: Tid)
    requires Placed(s) && Linked(s) && c < |s.cores|
    ensures PlacedAt(PickNext(s, c), u)
  {
    hide Placed, CoresCount, CoreCount, WaitCount, OutCount, PickCount, Linked;
    PlacedHere(s, u);
    var k := s.cores[c];
    if k.recvq != [] {
      var t := k.recvq[0];
      QueueFacts(s, c, t);
      ThreadHere(s, t);
      var n := if s.threads[t].msg.Fork? then s.threads[t].msg.child else t;
      ReceiveCount(k, u);
      CoreReplaced(s.cores, c, k.(recvq := k.recvq[1..]), u);
      PickCountAppend(s.picked, Pick(k.running, c, n), u);
    } else if k.runq != [] && k.runq[0] in s.threads {
      PickFromRunq(s, c, 0, u);
      assert k.runq[..0] + k.runq[1..] == k.runq[1..];
    }
  }

  lemma PickTidPlaced(s: Sys, c: nat, tid: Tid, u: Tid)
    requires Placed(s) && c < |s.cores|
    ensures PlacedAt(PickTid(s, c, tid), u)
  {
    hide Placed, CoresCount, CoreCount, WaitCount, OutCount, PickCount;
    PlacedHere(s, u);
    var i := IndexOf(s.cores[c].runq, tid);
    if i < |s.cores[c].runq| && tid in s.threads {
      PickFromRunq(s, c, i, u);
    }
  }

  /** A picked thread is at the stage that says so. */
  lemma PickedFacts(s: Sys, i: nat)
    requires Placed(s) && i < |s.picked|
    ensures s.picked[i].tid in s.threads && s.threads[s.picked[i].tid].stage == Picked
  {
    var x := s.picked[i].tid;
    assert PlacedAt(s, x);
    PickCountRemove(s.picked, i, x);
  }

  /** The running thread goes to the tail of the run queue and `n` runs. */
  lemma SwitchCount(k: Core, n: Tid, u: Tid)
    ensures var k' := k.(running := Some(n), runq := k.runq + Current(k));
            && CoreCount(k', Running, u) == CoreCount(k, Running, u) + (if n == u then 1 else 0)
            && CoreCount(k', Sending, u) == CoreCount(k, Sending, u)
            && CoreCount(k', Receiving, u) == CoreCount(k, Receiving, u)
  {
    OccursAppend(k.runq, Current(k), u);
  }

  lemma SwitchPlaced(s: Sys, c: nat, u: Tid)
    requires Placed(s) && Switching(s, c)
    ensures PlacedAt(SwitchTo(s, c), u)
  {
    hide Placed, CoresCount, CoreCount, WaitCount, OutCount, PickCount;
    PlacedHere(s, u);
    var k := s.cores[c];
    var i := LatestPick(s.picked, k.running, c);
    PickedFacts(s, i);
    PickCountRemove(s.picked, i, u);
    SwitchCount(k, s.picked[i].tid, u);
    CoreReplaced(s.cores, c, k.(running := Some(s.picked[i].tid), runq := k.runq + Current(k)), u);
  }

  lemma BlockPlaced(s: Sys, c: nat, t: Tid, u: Tid)
    requires Placed(s) && Runs(s, c, t)
    ensures PlacedAt(BlockSelf(s, c, t), u)
  {
    hide Placed, CoresCount, CoreCount, WaitCount, OutCount, PickCount;
    PlacedHere(s, u);
    RunningFacts(s, c);
    var k := SwitchAway(s.cores[c]);
    assert k.(sendq := k.sendq + []) == k;
    CoreReplaced(s.cores, c, k, u);
    SwitchAwayCount(s.cores[c], [], u);
  }

  /** Queueing thread `t` on a core that runs `r`. */
  lemma EnqueueCount(k: Core, r: Option<Tid>, t: Tid, u: Tid)
    ensures var k' := k.(running := r, runq := k.runq + [t]);
            && CoreCount(k', Running, u) + Occurs(Current(k), u)
               == CoreCount(k, Running, u) + (if t == u then 1 else 0) + (if r == Some(u) then 1 else 0)
            && CoreCount(k', Sending, u) == CoreCount(k, Sending, u)
            && CoreCount(k', Receiving, u) == CoreCount(k, Receiving, u)
  {
    OccursAppend(k.runq, [t], u);
  }

  lemma WakePlaced(s: Sys, c: nat, t: Tid, u: Tid)
    requires Placed(s) && c < |s.cores|
    ensures PlacedAt(WakeThread(s, c, t), u)
  {
    hide Placed, CoresCount, CoreCount, WaitCount, OutCount, PickCount;
    PlacedHere(s, u);
    if t in s.blocked {
      var k := s.cores[c];
      CoreReplaced(s.cores, c, k.(runq := k.runq + [t]), u);
      EnqueueCount(k, k.running, t, u);
    }
  }

  /** A thread whose id was never handed out is nowhere. */
  lemma FreshIsNowhere(s: Sys, n: Tid)
    requires Linked(s) && n >= s.next
    ensures n !in s.threads
  {
    assert n in s.threads ==> ThreadOk(s, n);
  }

  lemma ThreadForkPlaced(s: Sys, c: nat, t: Tid, u: Tid)
    requires Placed(s) && Linked(s) && Membered(s) && Runs(s, c, t) && s.threads[t].task in s.pcbs
    ensures PlacedAt(ThreadFork(s, c, t), u)
  {
    hide Placed, CoresCount, CoreCount, WaitCount, OutCount, PickCount, Linked, Membered;
    PlacedHere(s, u);
    FreshIsNowhere(s, s.next);
    NextPidWaits(s, u);
    var k := s.cores[c];
    CoreReplaced(s.cores, c, k.(running := Some(s.next), runq := k.runq + [t]), u);
    EnqueueCount(k, Some(s.next), t, u);
  }

  /** Handing out a pid adds no wait queue. */
  lemma NextPidWaits(s: Sys, u: Tid)
    requires Membered(s)
    ensures WaitCount(s.tasks, s.next + 1, u) == WaitCount(s.tasks, s.next, u)
  {
    assert s.next !in s.tasks;
  }

  lemma ForkPlaced(s: Sys, c: nat, t: Tid, u: Tid)
    requires Placed(s) && Linked(s) && Membered(s) && Runs(s, c, t)
    ensures PlacedAt(ForkStep(s, c, t), u)
  {
    hide Placed, CoresCount, CoreCount, WaitCount, OutCount, PickCount, Linked, Membered;
    FreshIsNowhere(s, s.next);
    NextPidWaits(s, u);
    PlacedHere(s, s.next);
    SendMsgPlaced(s, c, t, s.threads[t].role, c, Fork(s.next, s.threads[t].task), u);
    SendMsgPlaced(s, c, t, s.threads[t].role, c, Fork(s.next, s.threads[t].task), s.next);
  }

  // ----- messages in flight

  /** A thread running on a core can send a message without disturbing anyone else's. */
  lemma SendMsgOthers(s: Sys, c: nat, t: Tid, role: Role, cpu: nat, msg: Payload, u: Tid)
    requires Placed(s) && Linked(s) && Runs(s, c, t) && u in s.threads && u != t
    requires s.threads[t].role == Newborn ==> role == Announced && msg == s.threads[t].msg
    ensures ThreadOk(SendMsg(s, c, t, role, cpu, msg), u)
  {
    hide Placed, Linked;
    RunningFacts(s, c);
    ThreadHere(s, t);
    ThreadHere(s, u);
  }

  lemma SendMsgLinked(s: Sys, c: nat, t: Tid, role: Role, cpu: nat, msg: Payload)
    requires Placed(s) && Linked(s) && Runs(s, c, t) && cpu < |s.cores|
    requires s.threads[t].role == Newborn ==> role == Announced && msg == s.threads[t].msg
    requires RequestOk(SendMsg(s, c, t, role, cpu, msg), t)
    ensures Linked(SendMsg(s, c, t, role, cpu, msg))
  {
    var s' := SendMsg(s, c, t, role, cpu, msg);
    ThreadHere(s, t);
    forall u | u in s'.threads ensures ThreadOk(s', u) {
      if u != t {
        SendMsgOthers(s, c, t, role, cpu, msg, u);
      }
    }
  }

  lemma ReceiveForkOthers(s: Sys, c: nat, u: Tid)
    requires Placed(s) && Linked(s) && c < |s.cores| && s.cores[c].recvq != []
    requires s.cores[c].recvq[0] in s.threads && s.threads[s.cores[c].recvq[0]].msg.Fork?
    requires u in s.threads
    ensures ThreadOk(PickNext(s, c), u)
  {
    hide Placed, Linked;
    var t := s.cores[c].recvq[0];
    QueueFacts(s, c, t);
    ThreadHere(s, t);
    var n := s.threads[t].msg.child;
    ThreadHere(s, n);
    ThreadHere(s, u);
  }

  lemma ReceiveReplyOthers(s: Sys, c: nat, u: Tid)
    requires Placed(s) && Linked(s) && c < |s.cores| && s.cores[c].recvq != []
    requires s.cores[c].recvq[0] in s.threads && !s.threads[s.cores[c].recvq[0]].msg.Fork?
    requires u in s.threads
    ensures ThreadOk(PickNext(s, c), u) && PickNext(s, c).panicked == s.panicked
  {
    hide Placed, Linked;
    var t := s.cores[c].recvq[0];
    QueueFacts(s, c, t);
    ThreadHere(s, t);
    ThreadHere(s, u);
  }

  /** The receive queue never holds a message type that the worker would drop. */
  lemma PickNextLinked(s: Sys, c: nat)
    requires Placed(s) && Linked(s) && c < |s.cores|
    ensures Linked(PickNext(s, c)) && PickNext(s, c).panicked == s.panicked
  {
    var s' := PickNext(s, c);
    if s.cores[c].recvq != [] {
      var t := s.cores[c].recvq[0];
      QueueFacts(s, c, t);
      ThreadHere(s, t);
      forall u | u in s'.threads ensures ThreadOk(s', u) {
        if s.threads[t].msg.Fork? {
          ReceiveForkOthers(s, c, u);
        } else {
          ReceiveReplyOthers(s, c, u);
        }
      }
    } else if s.cores[c].runq != [] {
      QueueFacts(s, c, s.cores[c].runq[0]);
      SameStandLinked(s, s', s.cores[c].runq[0]);
    }
  }

  /** A thread that is picked, or switched to, is as fit to run as before. */
  lemma SameStandLinked(s: Sys, s': Sys, x: Tid)
    requires Linked(s) && x in s.threads && s.threads[x].stage in {OnCore, Picked}
    requires exists g :: g in {OnCore, Picked} && s'.threads == s.threads[x := s.threads[x].(stage := g)]
    requires s'.tasks == s.tasks && s'.pcbs == s.pcbs && s'.next == s.next
    requires |s'.cores| == |s.cores| && s'.forkNext == s.forkNext && s'.outbox == s.outbox
    ensures Linked(s')
  {
    forall u | u in s'.threads ensures ThreadOk(s', u) {
      SameStandOthers(s, s', x, u);
    }
  }

  lemma SameStandOthers(s: Sys, s': Sys, x: Tid, u: Tid)
    requires Linked(s) && x in s.threads && s.threads[x].stage in {OnCore, Picked} && u in s.threads
    requires exists g :: g in {OnCore, Picked} && s'.threads == s.threads[x := s.threads[x].(stage := g)]
    requires s'.tasks == s.tasks && s'.pcbs == s.pcbs && s'.next == s.next && |s'.cores| == |s.cores|
    ensures ThreadOk(s', u)
  {
    hide Linked;
    ThreadHere(s, u);
    ThreadHere(s, x);
  }

  lemma PickTidLinked(s: Sys, c: nat, tid: Tid)
    requires Placed(s) && Linked(s) && c < |s.cores|
    ensures Linked(PickTid(s, c, tid))
  {
    hide Linked;
    var i := IndexOf(s.cores[c].runq, tid);
    if i < |s.cores[c].runq| && tid in s.threads {
      QueueFacts(s, c, tid);
      SameStandLinked(s, PickTid(s, c, tid), tid);
    }
  }

  lemma SwitchLinked(s: Sys, c: nat)
    requires Placed(s) && Linked(s) && Switching(s, c)
    ensures Linked(SwitchTo(s, c)) && SwitchTo(s, c).panicked == s.panicked
  {
    hide Linked;
    var i := LatestPick(s.picked, s.cores[c].running, c);
    PickedFacts(s, i);
    SameStandLinked(s, SwitchTo(s, c), s.picked[i].tid);
  }

  /** A step that touches no thread record, no task and no pcb keeps every message in order. */
  lemma SameThreadsLinked(s: Sys, s': Sys)
    requires Linked(s) && s'.threads == s.threads && s'.tasks == s.tasks && s'.pcbs == s.pcbs && s'.next == s.next
    requires |s'.cores| == |s.cores| && s'.forkNext == s.forkNext
    requires forall i :: 0 <= i < |s'.outbox| ==> s'.outbox[i].cpu < |s.cores|
    ensures Linked(s')
  {
    forall u | u in s'.threads ensures ThreadOk(s', u) {
      ThreadHere(s, u);
    }
  }

  lemma ThreadForkLinked(s: Sys, c: nat, t: Tid)
    requires Linked(s) && Runs(s, c, t) && s.threads[t].task in s.pcbs
    ensures Linked(ThreadFork(s, c, t))
  {
    var s' := ThreadFork(s, c, t);
    FreshIsNowhere(s, s.next);
    forall u | u in s'.threads ensures ThreadOk(s', u) {
      if u != s.next {
        ThreadForkOthers(s, c, t, u);
      }
    }
  }

  lemma ThreadForkOthers(s: Sys, c: nat, t: Tid, u: Tid)
    requires Linked(s) && Runs(s, c, t) && s.threads[t].task in s.pcbs && s.next !in s.threads && u in s.threads
    ensures ThreadOk(ThreadFork(s, c, t), u)
  {
    hide Linked;
    ThreadHere(s, u);
  }

  lemma ForkLinked(s: Sys, c: nat, t: Tid)
    requires Placed(s) && Linked(s) && Membered(s) && Runs(s, c, t) && s.threads[t].role == Live
    ensures Linked(ForkStep(s, c, t))
  {
    var s' := ForkStep(s, c, t);
    FreshIsNowhere(s, s.next);
    forall u | u in s'.threads ensures ThreadOk(s', u) {
      if u != s.next && u != t {
        ForkOthers(s, c, t, u);
      } else {
        ForkNew(s, c, t);
      }
    }
  }

  lemma ForkOthers(s: Sys, c: nat, t: Tid, u: Tid)
    requires Placed(s) && Linked(s) && Runs(s, c, t) && s.threads[t].role == Live && s.next !in s.threads
    requires u in s.threads && u != t
    ensures ThreadOk(ForkStep(s, c, t), u)
  {
    hide Placed, Linked;
    SendMsgOthers(s, c, t, Live, c, Fork(s.next, s.threads[t].task), u);
    ThreadHere(s, u);
  }

  lemma ForkNew(s: Sys, c: nat, t: Tid)
    requires Placed(s) && Linked(s) && Membered(s) && Runs(s, c, t) && s.threads[t].role == Live && s.next !in s.threads
    ensures ThreadOk(ForkStep(s, c, t), t) && ThreadOk(ForkStep(s, c, t), s.next)
  {
    assert TaskOfOk(s, t);
    assert s.threads[t].task < s.next;
    assert s.next !in s.tasks;
  }

  /** Creating the new task's pcb and announcing it. */
  lemma AnnounceLinked(s: Sys, c: nat, n: Tid)
    requires Placed(s) && Linked(s) && Membered(s) && Runs(s, c, n) && s.threads[n].role == Newborn
    requires s.threads[n].msg.ForkResponse? && s.threads[n].msg.req in s.threads
    ensures Linked(Announce(s, c, n))
  {
    var s' := Announce(s, c, n);
    RunningFacts(s, c);
    ThreadHere(s, n);
    assert TaskOfOk(s, n);
    forall u | u in s'.threads ensures ThreadOk(s', u) {
      if u != n {
        SendMsgOthers(s, c, n, Announced, c, s.threads[n].msg, u);
        PcbAdded(SendMsg(s, c, n, Announced, c, s.threads[n].msg), n, s'.pcbs[n], u);
      }
    }
  }

  lemma PcbAdded(s: Sys, n: Pid, pcb: Pcb, u: Tid)
    requires u in s.threads && ThreadOk(s, u) && n !in s.pcbs
    ensures ThreadOk(s.(pcbs := s.pcbs[n := pcb]), u)
  {
  }

  lemma VanishLinked(s: Sys, c: nat, t: Tid, status: int)
    requires Placed(s) && Linked(s) && Runs(s, c, t) && s.threads[t].role == Live && s.threads[t].task in s.pcbs
    ensures Linked(BeginVanish(s, c, t, status))
  {
    var s' := BeginVanish(s, c, t, status);
    RunningFacts(s, c);
    ThreadHere(s, t);
    forall u | u in s'.threads ensures ThreadOk(s', u) {
      if u != t {
        VanishOthers(s, c, t, status, u);
      }
    }
  }

  lemma VanishOthers(s: Sys, c: nat, t: Tid, status: int, u: Tid)
    requires Placed(s) && Linked(s) && Runs(s, c, t) && s.threads[t].role == Live && s.threads[t].task in s.pcbs
    requires u in s.threads && u != t
    ensures ThreadOk(BeginVanish(s, c, t, status), u)
  {
    hide Placed, Linked;
    RunningFacts(s, c);
    ThreadHere(s, t);
    ThreadHere(s, u);
  }

  // ----- tasks and their threads

  /** A thread past vanish(): it counts for no task. */
  predicate Gone(th: Thread) {
    th.role in {Departing, Leaving, Dead}
  }

  /** The thread plays the same part for its task in both records. */
  predicate SamePart(a: Thread, b: Thread) {
    && a.task == b.task
    && (a.role == b.role || (Gone(a) && Gone(b)))
    && (a.role == Announced ==> a.msg == b.msg)
  }

  ghost predicate SameParts(s: Sys, s': Sys) {
    && s'.threads.Keys == s.threads.Keys
    && (forall t :: t in s.threads ==> SamePart(s.threads[t], s'.threads[t]))
    && s'.pcbs == s.pcbs && s'.tasks.Keys == s.tasks.Keys && s'.registered == s.registered && s'.init == s.init
    && s'.next == s.next
  }

  lemma SamePartsTaskOf(s: Sys, s': Sys, t: Tid)
    requires SameParts(s, s') && t in s.threads && TaskOfOk(s, t)
    ensures TaskOfOk(s', t)
  {
    assert SamePart(s.threads[t], s'.threads[t]);
    if s.threads[t].role == Announced {
      assert SamePart(s.threads[s.threads[t].msg.req], s'.threads[s.threads[t].msg.req]);
    }
  }

  lemma SamePartsMembers(s: Sys, s': Sys, p: Pid)
    requires Membered(s) && SameParts(s, s') && p in s.pcbs
    ensures MembersOk(s', p)
  {
    assert MembersOk(s, p);
    forall t | t in s.threads ensures SamePart(s.threads[t], s'.threads[t]) {
    }
  }

  lemma SamePartsMembered(s: Sys, s': Sys)
    requires Membered(s) && SameParts(s, s')
    ensures Membered(s')
  {
    hide MembersOk, TaskOfOk;
    forall p | p in s'.pcbs ensures MembersOk(s', p) {
      SamePartsMembers(s, s', p);
    }
    forall t | t in s'.threads ensures TaskOfOk(s', t) {
      assert TaskOfOk(s, t);
      SamePartsTaskOf(s, s', t);
    }
    forall t, u | t in s'.threads && u in s'.threads && BothExiting(s'.threads[t], s'.threads[u]) ensures t == u {
      SamePartsExit(s, s', t, u);
    }
  }

  lemma SamePartsExit(s: Sys, s': Sys, t: Tid, u: Tid)
    requires Membered(s) && SameParts(s, s') && t in s'.threads && u in s'.threads
    requires BothExiting(s'.threads[t], s'.threads[u])
    ensures t == u
  {
    assert SamePart(s.threads[t], s'.threads[t]) && SamePart(s.threads[u], s'.threads[u]);
    assert BothExiting(s.threads[t], s.threads[u]);
  }

  lemma ThreadForkMembered(s: Sys, c: nat, t: Tid)
    requires Linked(s) && Membered(s) && Runs(s, c, t) && s.threads[t].role == Live
    requires s.threads[t].task in s.pcbs
    ensures Membered(ThreadFork(s, c, t))
  {
    var s' := ThreadFork(s, c, t);
    FreshIsNowhere(s, s.next);
    assert TaskOfOk(s, t);
    var q := s.threads[t].task;
    assert MembersOk(s, q) && t in s.pcbs[q].members;
    forall p | p in s'.pcbs ensures MembersOk(s', p) {
      assert MembersOk(s, p);
    }
    forall u | u in s'.threads ensures TaskOfOk(s', u) {
      if u != s.next {
        assert TaskOfOk(s, u);
      }
    }
  }

  lemma ForkMembered(s: Sys, c: nat, t: Tid)
    requires Linked(s) && Membered(s) && Runs(s, c, t) && s.threads[t].role == Live
    ensures Membered(ForkStep(s, c, t))
  {
    var s' := ForkStep(s, c, t);
    FreshIsNowhere(s, s.next);
    forall p | p in s'.pcbs ensures MembersOk(s', p) {
      assert MembersOk(s, p);
    }
    forall u | u in s'.threads ensures TaskOfOk(s', u) {
      ForkTaskOf(s, c, t, u);
    }
  }

  lemma ForkTaskOf(s: Sys, c: nat, t: Tid, u: Tid)
    requires Membered(s) && Runs(s, c, t) && s.threads[t].role == Live && s.next !in s.threads
    requires u in s.threads || u == s.next
    ensures TaskOfOk(ForkStep(s, c, t), u)
  {
    if u == s.next {
      assert u in s.pcbs ==> MembersOk(s, u);
    } else {
      assert TaskOfOk(s, u);
    }
  }

  lemma AnnounceMembered(s: Sys, c: nat, n: Tid)
    requires Placed(s) && Linked(s) && Membered(s) && Runs(s, c, n) && s.threads[n].role == Newborn
    requires s.threads[n].msg.ForkResponse? && s.threads[n].msg.req in s.threads
    ensures Membered(Announce(s, c, n))
  {
    var s' := Announce(s, c, n);
    RunningFacts(s, c);
    ThreadHere(s, n);
    ThreadHere(s, s.threads[n].msg.req);
    assert TaskOfOk(s, n);
    assert TaskOfOk(s, s.threads[n].msg.req);
    forall p | p in s'.pcbs ensures MembersOk(s', p) {
      AnnounceMembers(s, c, n, p);
    }
    forall u | u in s'.threads ensures TaskOfOk(s', u) {
      assert TaskOfOk(s, u);
    }
  }

  lemma AnnounceMembers(s: Sys, c: nat, n: Tid, p: Pid)
    requires Membered(s) && Runs(s, c, n) && s.threads[n].role == Newborn && s.threads[n].task == n < s.next
    requires s.threads[n].msg.ForkResponse? && s.threads[n].msg.req in s.threads
    requires s.threads[s.threads[n].msg.req].task < n
    requires s.threads[s.threads[n].msg.req].task in s.registered
    requires p in s.pcbs || p == n
    ensures MembersOk(Announce(s, c, n), p)
  {
    assert TaskOfOk(s, n);
    if p != n {
      assert MembersOk(s, p);
    } else {
      forall u | u in s.threads && u != n && s.threads[u].task == n ensures !Counted(s.threads[u]) {
        assert TaskOfOk(s, u);
      }
    }
  }

  /** The last thread of a task leaves it empty; nobody else can then report its exit. */
  lemma VanishMembered(s: Sys, c: nat, t: Tid, status: int)
    requires Membered(s) && Runs(s, c, t) && s.threads[t].role == Live && s.threads[t].task in s.pcbs
    requires s.threads[t].task != s.init
    ensures Membered(BeginVanish(s, c, t, status))
  {
    var s' := BeginVanish(s, c, t, status);
    var q := s.threads[t].task;
    assert TaskOfOk(s, t);
    assert MembersOk(s, q) && t in s.pcbs[q].members;
    forall p | p in s'.pcbs ensures MembersOk(s', p) {
      assert MembersOk(s, p);
    }
    forall u | u in s'.threads ensures TaskOfOk(s', u) {
      VanishTaskOf(s, c, t, status, u);
    }
    forall u, w | u in s'.threads && w in s'.threads && BothExiting(s'.threads[u], s'.threads[w]) ensures u == w {
      VanishUnique(s, c, t, status, u, w);
    }
  }

  lemma VanishTaskOf(s: Sys, c: nat, t: Tid, status: int, u: Tid)
    requires Membered(s) && Runs(s, c, t) && s.threads[t].role == Live && s.threads[t].task in s.pcbs
    requires s.threads[t].task != s.init && u in s.threads
    ensures TaskOfOk(BeginVanish(s, c, t, status), u)
  {
    assert TaskOfOk(s, t) && TaskOfOk(s, u);
    assert MembersOk(s, s.threads[t].task) && t in s.pcbs[s.threads[t].task].members;
  }

  lemma VanishUnique(s: Sys, c: nat, t: Tid, status: int, u: Tid, w: Tid)
    requires Membered(s) && Runs(s, c, t) && s.threads[t].role == Live && s.threads[t].task in s.pcbs
    requires u in s.threads && w in s.threads
    requires BothExiting(BeginVanish(s, c, t, status).threads[u], BeginVanish(s, c, t, status).threads[w])
    ensures u == w
  {
    assert MembersOk(s, s.threads[t].task) && t in s.pcbs[s.threads[t].task].members;
    assert TaskOfOk(s, u) && TaskOfOk(s, w);
    if u != t && w != t {
      assert BothExiting(s.threads[u], s.threads[w]);
    }
  }

  // ----- task records

  /** A step that leaves the task records alone keeps them right as long as no waiting thread and no
      registered child changes. */
  lemma SameRecordsAccounted(s: Sys, s': Sys)
    requires Accounted(s) && s'.tasks == s.tasks && s'.registered == s.registered && s'.init == s.init
    requires s'.orphans == s.orphans
    requires forall c :: c in s.registered ==>
      (c in s.pcbs <==> c in s'.pcbs) && (c in s.pcbs ==> s'.pcbs[c].ppid == s.pcbs[c].ppid)
    requires forall t :: t in s.threads && s.threads[t].stage == Waiting ==>
                           t in s'.threads && s'.threads[t].stage == Waiting && s'.threads[t].task == s.threads[t].task
    ensures Accounted(s')
  {
    forall p | p in s'.tasks ensures RecordOk(s', p) {
      assert RecordOk(s, p);
      assert Kids(s', p) == Kids(s, p);
    }
  }

  // ----- every worker step

  /** The steps of a worker core, as opposed to those of the manager. */
  predicate IsWorkerStep(a: Action) {
    !a.DoPoll? && !a.DoHandle? && !a.DoTransmit?
  }

  lemma WorkerPlaced(s: Sys, a: Action)
    requires Inv(s) && Enabled(s, a) && IsWorkerStep(a)
    ensures Placed(Next(s, a))
  {
    forall u: Tid ensures PlacedAt(Next(s, a), u) {
      WorkerPlacedAt(s, a, u);
    }
  }

  lemma WorkerPlacedAt(s: Sys, a: Action, u: Tid)
    requires Inv(s) && Enabled(s, a) && IsWorkerStep(a)
    ensures PlacedAt(Next(s, a), u)
  {
    hide Placed, Linked, Membered, Accounted, PlacedAt, CoresCount, WaitCount, OutCount;
    match a
    case DoPick(c) => PickNextPlaced(s, c, u);
    case DoPickTid(c, tid) => PickTidPlaced(s, c, tid, u);
    case DoSwitch(c) => SwitchPlaced(s, c, u);
    case DoBlock(c) => BlockPlaced(s, c, RunningOn(s, c), u);
    case DoWake(c, t) => WakePlaced(s, c, t, u);
    case DoThreadFork(c) => ThreadForkPlaced(s, c, RunningOn(s, c), u);
    case DoFork(c) => ForkPlaced(s, c, RunningOn(s, c), u);
    case DoAnnounce(c) => AnnouncePlaced(s, c, RunningOn(s, c), u);
    case DoWait(c) => SendMsgPlaced(s, c, RunningOn(s, c), Live, c, Wait(s.threads[RunningOn(s, c)].task), u);
    case DoCall(c) => SendMsgPlaced(s, c, RunningOn(s, c), Live, c, Call, u);
    case DoTour(c, next, found, first) =>
      var t := RunningOn(s, c);
      SendMsgPlaced(s, c, t, Live, if first then c else s.threads[t].cpu, Tour(next, found), u);
    case DoVanish(c, status) => VanishPlaced(s, c, RunningOn(s, c), status, u);
    case DoLeave(c, ori) => SendMsgPlaced(s, c, RunningOn(s, c), Leaving, c, VanishBack(ori), u);
  }

  lemma AnnouncePlaced(s: Sys, c: nat, n: Tid, u: Tid)
    requires Placed(s) && Runs(s, c, n) && s.threads[n].msg.ForkResponse? && s.threads[n].msg.req in s.threads
    ensures PlacedAt(Announce(s, c, n), u)
  {
    hide Placed, CoresCount, WaitCount, OutCount, PickCount;
    SendMsgPlaced(s, c, n, Announced, c, s.threads[n].msg, u);
  }

  lemma VanishPlaced(s: Sys, c: nat, t: Tid, status: int, u: Tid)
    requires Placed(s) && Runs(s, c, t) && s.threads[t].task in s.pcbs
    ensures PlacedAt(BeginVanish(s, c, t, status), u)
  {
    hide Placed, CoresCount, WaitCount, OutCount, PickCount;
    PlacedHere(s, u);
    SendMsgPlaced(s, c, t, Exiting, c, Vanish(s.threads[t].task, s.pcbs[s.threads[t].task].ppid, status), u);
  }

  lemma SendLinked(s: Sys, a: Action)
    requires Inv(s) && Enabled(s, a) && IsSendStep(a)
    ensures Linked(Next(s, a)) && !Next(s, a).panicked
  {
    hide Placed, Linked, Membered, Accounted;
    var t := RunningOn(s, a.c);
    ThreadHere(s, t);
    match a
    case DoWait(c) => SendMsgLinked(s, c, t, Live, c, Wait(s.threads[t].task));
    case DoCall(c) => SendMsgLinked(s, c, t, Live, c, Call);
    case DoTour(c, next, found, first) =>
      SendMsgLinked(s, c, t, Live, if first then c else s.threads[t].cpu, Tour(next, found));
    case DoLeave(c, ori) => SendMsgLinked(s, c, t, Leaving, c, VanishBack(ori));
  }

  lemma WorkerLinked(s: Sys, a: Action)
    requires Inv(s) && Enabled(s, a) && IsWorkerStep(a)
    ensures Linked(Next(s, a)) && !Next(s, a).panicked
  {
    hide Placed, Linked, Membered, Accounted;
    LinkedBasics(s);
    if IsSendStep(a) {
      SendLinked(s, a);
    } else {
      match a
      case DoPick(c) => PickNextLinked(s, c);
      case DoPickTid(c, tid) => PickTidLinked(s, c, tid);
      case DoSwitch(c) => SwitchLinked(s, c);
      case DoBlock(c) => SameThreadsLinked(s, Next(s, a));
      case DoWake(c, t) => SameThreadsLinked(s, Next(s, a));
      case DoThreadFork(c) => ThreadForkLinked(s, c, RunningOn(s, c));
      case DoFork(c) => ForkLinked(s, c, RunningOn(s, c));
      case DoAnnounce(c) => AnnounceLinked(s, c, RunningOn(s, c));
      case DoVanish(c, status) => VanishLinked(s, c, RunningOn(s, c), status);
    }
  }

  lemma LinkedBasics(s: Sys)
    requires Linked(s)
    ensures |s.cores| > 0 && forall i :: 0 <= i < |s.outbox| ==> s.outbox[i].cpu < |s.cores|
  {
  }

  lemma SendMsgMembered(s: Sys, c: nat, t: Tid, role: Role, cpu: nat, msg: Payload)
    requires Membered(s) && Runs(s, c, t)
    requires s.threads[t].role == role == Live || (s.threads[t].role == Departing && role == Leaving)
    ensures Membered(SendMsg(s, c, t, role, cpu, msg))
  {
    hide Membered;
    SamePartsMembered(s, SendMsg(s, c, t, role, cpu, msg));
  }

  lemma SendMembered(s: Sys, a: Action)
    requires Inv(s) && Enabled(s, a) && IsSendStep(a)
    ensures Membered(Next(s, a))
  {
    hide Placed, Linked, Membered, Accounted, SendMsg;
    var t := RunningOn(s, a.c);
    match a
    case DoWait(c) => SendMsgMembered(s, c, t, Live, c, Wait(s.threads[t].task));
    case DoCall(c) => SendMsgMembered(s, c, t, Live, c, Call);
    case DoTour(c, next, found, first) =>
      SendMsgMembered(s, c, t, Live, if first then c else s.threads[t].cpu, Tour(next, found));
    case DoLeave(c, ori) => SendMsgMembered(s, c, t, Leaving, c, VanishBack(ori));
  }

  lemma WorkerMembered(s: Sys, a: Action)
    requires Inv(s) && Enabled(s, a) && IsWorkerStep(a)
    ensures Membered(Next(s, a))
  {
    hide Placed, Linked, Membered, Accounted, SendMsg, PickNext, PickTid, SwitchTo, SameParts;
    if IsSendStep(a) {
      SendMembered(s, a);
    } else {
      match a
      case DoPick(c) => PickNextParts(s, c); SamePartsMembered(s, Next(s, a));
      case DoPickTid(c, tid) => PickTidParts(s, c, tid); SamePartsMembered(s, Next(s, a));
      case DoSwitch(c) => SwitchParts(s, c); SamePartsMembered(s, Next(s, a));
      case DoBlock(c) => BlockWakeParts(s, a); SamePartsMembered(s, Next(s, a));
      case DoWake(_, _) => BlockWakeParts(s, a); SamePartsMembered(s, Next(s, a));
      case DoThreadFork(c) => ThreadForkMembered(s, c, RunningOn(s, c));
      case DoFork(c) => ForkMembered(s, c, RunningOn(s, c));
      case DoAnnounce(c) => AnnounceMembered(s, c, RunningOn(s, c));
      case DoVanish(c, status) => VanishMembered(s, c, RunningOn(s, c), status);
    }
  }

  lemma PickNextParts(s: Sys, c: nat)
    requires Placed(s) && Linked(s) && c < |s.cores|
    ensures SameParts(s, PickNext(s, c))
  {
    hide Placed, Linked;
    if s.cores[c].recvq != [] {
      QueueFacts(s, c, s.cores[c].recvq[0]);
      ThreadHere(s, s.cores[c].recvq[0]);
    }
  }

  lemma PickTidParts(s: Sys, c: nat, tid: Tid)
    requires c < |s.cores|
    ensures SameParts(s, PickTid(s, c, tid))
  {
  }

  lemma SwitchParts(s: Sys, c: nat)
    requires Switching(s, c)
    ensures SameParts(s, SwitchTo(s, c))
  {
  }

  lemma BlockWakeParts(s: Sys, a: Action)
    requires Enabled(s, a) && (a.DoBlock? || a.DoWake?)
    ensures SameParts(s, Next(s, a)) && Next(s, a).threads == s.threads && Next(s, a).tasks == s.tasks
    ensures Next(s, a).orphans == s.orphans
  {
    hide LatestPick, SwitchAway;
    SamePartsSelf(s, Next(s, a));
  }

  lemma SamePartsSelf(s: Sys, s': Sys)
    requires s'.threads == s.threads && s'.pcbs == s.pcbs && s'.tasks == s.tasks && s'.registered == s.registered
    requires s'.init == s.init && s'.next == s.next
    ensures SameParts(s, s')
  {
  }

  /** The record of the running thread, and that of a new thread, are nobody's wait() record. */
  lemma RunningAccounted(s: Sys, c: nat, s': Sys)
    requires Placed(s) && Linked(s) && Accounted(s) && c < |s.cores| && s.cores[c].running.Some?
    requires s'.tasks == s.tasks && s'.registered == s.registered && s'.init == s.init && s'.orphans == s.orphans
    requires forall p :: p in s.registered ==>
      (p in s.pcbs <==> p in s'.pcbs) && (p in s.pcbs ==> s'.pcbs[p].ppid == s.pcbs[p].ppid)
    requires forall t :: t in s.threads && t != s.cores[c].running.value && t < s.next ==>
      t in s'.threads && s'.threads[t] == s.threads[t]
    ensures Accounted(s')
  {
    hide Placed, Linked, Accounted;
    RunningFacts(s, c);
    forall t | t in s.threads && s.threads[t].stage == Waiting
      ensures t in s'.threads && s'.threads[t].stage == Waiting && s'.threads[t].task == s.threads[t].task
    {
      ThreadHere(s, t);
    }
    SameRecordsAccounted(s, s');
  }

  /** The steps that only send the running thread's message away. */
  predicate IsSendStep(a: Action) {
    a.DoWait? || a.DoCall? || a.DoTour? || a.DoLeave?
  }

  lemma SendAccounted(s: Sys, a: Action)
    requires Inv(s) && Enabled(s, a) && IsSendStep(a)
    ensures Accounted(Next(s, a))
  {
    hide Placed, Linked, Accounted, Membered;
    RunningAccounted(s, a.c, Next(s, a));
  }

  /** The steps that add a thread to a task or take one from it. */
  predicate IsMemberStep(a: Action) {
    a.DoAnnounce? || a.DoThreadFork? || a.DoFork? || a.DoVanish?
  }

  lemma MemberAccounted(s: Sys, a: Action)
    requires Inv(s) && Enabled(s, a) && IsMemberStep(a)
    ensures Accounted(Next(s, a))
  {
    hide Placed, Linked, Accounted, Membered;
    if a.DoAnnounce? {
      NewbornUnregistered(s, RunningOn(s, a.c));
    }
    RunningAccounted(s, a.c, Next(s, a));
  }

  lemma WorkerAccounted(s: Sys, a: Action)
    requires Inv(s) && Enabled(s, a) && IsWorkerStep(a)
    ensures Accounted(Next(s, a))
  {
    hide Placed, Linked, Accounted, Membered, LatestPick, SwitchAway;
    if IsSendStep(a) {
      SendAccounted(s, a);
    } else if IsMemberStep(a) {
      MemberAccounted(s, a);
    } else if a.DoPick? || a.DoPickTid? || a.DoSwitch? {
      SwitchAccounted(s, a);
    } else {
      BlockWakeParts(s, a);
      SameRecordsAccounted(s, Next(s, a));
    }
  }

  lemma NewbornUnregistered(s: Sys, n: Tid)
    requires Membered(s) && n in s.threads && s.threads[n].role == Newborn
    ensures n !in s.registered
  {
    assert TaskOfOk(s, n);
  }

  lemma SwitchAccounted(s: Sys, a: Action)
    requires Inv(s) && Enabled(s, a) && (a.DoPick? || a.DoPickTid? || a.DoSwitch?)
    ensures Accounted(Next(s, a))
  {
    hide Placed, Linked, Accounted, Membered, LatestPick;
    SwitchWaiters(s, a);
    SameRecordsAccounted(s, Next(s, a));
  }

  /** Only threads that can run are picked: nobody who waits is disturbed. */
  lemma SwitchWaiters(s: Sys, a: Action)
    requires Placed(s) && Linked(s) && Enabled(s, a) && (a.DoPick? || a.DoPickTid? || a.DoSwitch?)
    ensures forall t :: t in s.threads && s.threads[t].stage == Waiting ==>
                          t in Next(s, a).threads && Next(s, a).threads[t] == s.threads[t]
  {
    hide Placed, Linked;
    var k := s.cores[a.c];
    if a.DoSwitch? {
      PickedFacts(s, LatestPick(s.picked, k.running, a.c));
    } else if a.DoPickTid? {
      QueueFacts(s, a.c, a.tid);
    } else if k.recvq != [] {
      QueueFacts(s, a.c, k.recvq[0]);
      ThreadHere(s, k.recvq[0]);
      if s.threads[k.recvq[0]].msg.Fork? {
        ThreadHere(s, s.threads[k.recvq[0]].msg.child);
      }
    } else if k.runq != [] {
      QueueFacts(s, a.c, k.runq[0]);
    }
  }

  lemma WorkerKeepsInv(s: Sys, a: Action)
    requires Inv(s) && Enabled(s, a) && IsWorkerStep(a)
    ensures Inv(Next(s, a))
  {
    WorkerPlaced(s, a);
    WorkerLinked(s, a);
    WorkerMembered(s, a);
    WorkerAccounted(s, a);
  }
}
