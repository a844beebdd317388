/** Whole runs of the message-passing kernel: the invariant holds from boot on, so the headline
    properties hold in every reachable state. */
module KernelRuns {
  import opened Basics
  import opened Lifecycle
  import opened Protocol
  import opened Placement
  import opened KernelInvariant
  import opened WorkerSteps
  import opened ManagerSteps
  import opened VanishSteps

  lemma HandleKeepsInv(s: Sys)
    requires Inv(s) && Enabled(s, DoHandle)
    ensures Inv(Next(s, DoHandle))
  {
    hide Placed, Linked, Membered, Accounted, HandleFork, HandleForkResponse, HandleWait, HandleVanish;
    var t := s.held.value;
    HeldFacts(s);
    ThreadHere(s, t);
    match s.threads[t].msg
    case Fork(_, _) => HandleForkKeepsInv(s, t);
    case ForkResponse(_) => ForkResponseKeepsInv(s, t);
    case Wait(_) => HandleWaitKeepsInv(s, t);
    case Vanish(_, _, _) => VanishKeepsInv(s, t);
    case VanishBack(cpu) => PlainAnswerKeepsInv(s, t, Dead, Response, cpu);
    case Call => PlainAnswerKeepsInv(s, t, Live, Response, s.threads[t].cpu);
    case Tour(next, found) =>
      var hop := (next + 1) % |s.cores|;
      PlainAnswerKeepsInv(s, t, Live, s.threads[t].msg, s.threads[t].cpu);
      PlainAnswerKeepsInv(s, t, Live, Tour(hop + 1, false), hop);
  }

  lemma StepKeepsInv(s: Sys, a: Action)
    requires Inv(s) && Enabled(s, a)
    ensures Inv(Next(s, a))
  {
    hide Inv;
    match a
    case DoPoll(c) => PollKeepsInv(s, c);
    case DoHandle => HandleKeepsInv(s);
    case DoTransmit => TransmitKeepsInv(s);
    case _ => WorkerKeepsInv(s, a);
  }

  // ----- boot

  lemma {:induction false} IdleCores(cs: seq<Core>, w: Kind, t: Tid)
    requires forall i :: 0 <= i < |cs| ==> cs[i] == Core(None, [], [], [])
    ensures CoresCount(cs, w, t) == 0
  {
    if cs != [] {
      IdleCores(cs[1..], w, t);
    }
  }

  lemma BootPlaced(w: nat, t: Tid)
    requires w > 0
    ensures PlacedAt(Boot(w), t)
  {
    var s := Boot(w);
    IdleCores(s.cores[1..], Running, t);
    IdleCores(s.cores[1..], Sending, t);
    IdleCores(s.cores[1..], Receiving, t);
    assert WaitCount(s.tasks, 1, t) == WaitCount(s.tasks, 0, t) + WaitersCount(s.tasks, 0, t);
  }

  lemma BootInv(w: nat)
    requires w > 0
    ensures Inv(Boot(w))
  {
    var s := Boot(w);
    forall t: Tid ensures PlacedAt(s, t) {
      BootPlaced(w, t);
    }
    assert Kids(s, 0) == {};
  }

  // ----- reachable states

  /** A run: the states after each of a sequence of actions, each enabled where it happens. */
  ghost predicate IsRun(s: Sys, acts: seq<Action>)
    decreases |acts|
  {
    acts == [] || (Enabled(s, acts[0]) && IsRun(Next(s, acts[0]), acts[1..]))
  }

  ghost function After(s: Sys, acts: seq<Action>): Sys
    requires IsRun(s, acts)
    decreases |acts|
  {
    if acts == [] then s else After(Next(s, acts[0]), acts[1..])
  }

  lemma {:induction false} RunKeepsInv(s: Sys, acts: seq<Action>)
    requires Inv(s) && IsRun(s, acts)
    ensures Inv(After(s, acts))
    decreases |acts|
  {
    hide Inv, Next, Enabled;
    if acts != [] {
      StepKeepsInv(s, acts[0]);
      RunKeepsInv(Next(s, acts[0]), acts[1..]);
    }
  }

  /** In every reachable state every thread is in exactly one place, no thread runs on two cores, and
      neither the manager nor a worker has met a message it cannot handle. */
  lemma OnePlaceInEveryRun(w: nat, acts: seq<Action>)
    requires w > 0 && IsRun(Boot(w), acts)
    ensures var s := After(Boot(w), acts);
            && !s.panicked
            && (forall t :: Places(s, t) == if t in s.threads then 1 else 0)
            && (forall c, d :: 0 <= c < |s.cores| && 0 <= d < |s.cores| && c != d && s.cores[c].running.Some?
                  ==> s.cores[c].running != s.cores[d].running)
  {
    hide Places, Linked, Membered, Accounted, Next, Enabled, Boot;
    BootInv(w);
    RunKeepsInv(Boot(w), acts);
    var s := After(Boot(w), acts);
    forall t ensures Places(s, t) == if t in s.threads then 1 else 0 {
      ExactlyOnePlace(s, t);
    }
    forall c, d | 0 <= c < |s.cores| && 0 <= d < |s.cores| && c != d && s.cores[c].running.Some?
      ensures s.cores[c].running != s.cores[d].running
    {
      NeverOnTwoCores(s, c, d, s.cores[c].running.value);
    }
  }

  /** In every reachable state, for every task but init: the zombie counter is the length of the status
      list, the alive counter is the number of living children, waiters never outnumber those children,
      and nobody waits while a status is queued. For init the alive counter is off by exactly the
      orphans that have exited, which are subtracted without ever having been added. */
  lemma RecordsInEveryRun(w: nat, acts: seq<Action>, p: Pid)
    requires w > 0 && IsRun(Boot(w), acts) && p in After(Boot(w), acts).tasks
    ensures var s := After(Boot(w), acts); var k := s.tasks[p];
            && k.numZombie == |k.exits|
            && k.numAlive == |Kids(s, p)| - (if p == s.init then s.orphans else 0)
            && (p != s.init ==> |k.waiters| <= k.numAlive && (k.waiters != [] ==> k.exits == []))
  {
    hide Placed, Linked, Membered, Kids, Next, Enabled, Boot;
    BootInv(w);
    RunKeepsInv(Boot(w), acts);
    RecordHere(After(Boot(w), acts), p);
  }

  /** wait() is refused exactly when no status is queued and every living child already has a waiter.
      For init the children counted fall short by the orphans that have exited. */
  lemma WaitRefusedIff(w: nat, acts: seq<Action>, p: Pid, t: Tid)
    requires w > 0 && IsRun(Boot(w), acts) && p in After(Boot(w), acts).tasks
    ensures var s := After(Boot(w), acts); var k := s.tasks[p];
            && (k.numZombie != 0 ==> k.exits != [])
            && (WaitTask(k, t).1.NoChild? <==>
                  k.exits == [] && |Kids(s, p)| == |k.waiters| + (if p == s.init then s.orphans else 0))
  {
    hide Kids, Next, Enabled, Boot, IsRun, After;
    RecordsInEveryRun(w, acts, p);
  }

  // ----- waiters of init

  /** The step inherits two statuses or more while two threads of init wait. */
  predicate Strands(s: Sys, a: Action) {
    && a.DoHandle? && s.held.Some? && s.held.value in s.threads && s.threads[s.held.value].msg.Vanish?
    && var m := s.threads[s.held.value].msg;
      && CanVanish(s.tasks, s.init, m.vpid, m.vppid)
      && var k := AfterReport(s.tasks, s.init, m.vpid, m.vppid, m.status);
        |k[s.init].waiters| >= 2 && |k[m.vpid].exits| >= 2
  }

  /** No thread of init waits in front of a queued status: exactly the stranding steps end that. */
  lemma InitCollectedIff(s: Sys, a: Action)
    requires Inv(s) && Enabled(s, a) && Collected(s.tasks[s.init])
    ensures s.init in Next(s, a).tasks && Next(s, a).init == s.init
    ensures Collected(Next(s, a).tasks[s.init]) <==> !Strands(s, a)
  {
    hide Placed, Linked, Accounted, HandleFork, HandleForkResponse, HandleWait, HandleVanish, Collected;
    if a.DoHandle? {
      InitHandled(s);
    }
  }

  lemma InitHandled(s: Sys)
    requires Inv(s) && Enabled(s, DoHandle) && Collected(s.tasks[s.init])
    ensures s.init in Next(s, DoHandle).tasks && Next(s, DoHandle).init == s.init
    ensures Collected(Next(s, DoHandle).tasks[s.init]) <==> !Strands(s, DoHandle)
  {
    hide Placed, Linked, Accounted, HandleVanish, HandleWait, HandleFork, HandleForkResponse;
    var t := s.held.value;
    HeldFacts(s);
    ThreadHere(s, t);
    match s.threads[t].msg
    case Fork(_, _) => InitKept(s, t);
    case ForkResponse(_) => InitKept(s, t);
    case Wait(_) => InitWaits(s, t);
    case Vanish(_, _, _) => InitInherits(s, t);
    case VanishBack(_) =>
    case Call =>
    case Tour(_, _) =>
  }

  /** A fork changes at most a counter in the record of init. */
  lemma InitKept(s: Sys, t: Tid)
    requires Inv(s) && s.held == Some(t) && t in s.threads && Collected(s.tasks[s.init])
    requires s.threads[t].msg.Fork? || s.threads[t].msg.ForkResponse?
    ensures s.threads[t].msg.Fork? ==>
              s.init in HandleFork(s, t).tasks && HandleFork(s, t).init == s.init
              && Collected(HandleFork(s, t).tasks[s.init])
    ensures s.threads[t].msg.ForkResponse? ==>
              s.init in HandleForkResponse(s, t).tasks && HandleForkResponse(s, t).init == s.init
              && Collected(HandleForkResponse(s, t).tasks[s.init])
  {
    hide Placed, Linked, Accounted;
    HeldFacts(s);
    ThreadHere(s, t);
    LinkedBasics(s);
    if s.threads[t].msg.ForkResponse? {
      ForkResponseFacts(s, t);
    }
  }

  lemma InitWaits(s: Sys, t: Tid)
    requires Inv(s) && s.held == Some(t) && t in s.threads && s.threads[t].msg.Wait? && Collected(s.tasks[s.init])
    ensures s.init in HandleWait(s, t).tasks && HandleWait(s, t).init == s.init
    ensures Collected(HandleWait(s, t).tasks[s.init])
  {
    hide Placed, Linked, Accounted;
    WaitFacts(s, t);
  }

  lemma InitInherits(s: Sys, t: Tid)
    requires VanishPending(s, t) && s.held == Some(t) && Collected(s.tasks[s.init])
    ensures s.init in HandleVanish(s, t).tasks && HandleVanish(s, t).init == s.init
    ensures Collected(HandleVanish(s, t).tasks[s.init]) <==> !Strands(s, DoHandle)
  {
    hide Placed, Linked, Membered, Accounted, HandleVanish, Collected;
    VanishFacts(s, t);
    var s1 := VanishShape(s, t);
    var m := s.threads[t].msg;
    var k := AfterReport(s.tasks, s.init, m.vpid, m.vppid, m.status);
    CollectedTallies(s.tasks[s.init]);
    ReportKeepsCollected(s.tasks[s.init], Exit(m.vpid, m.status));
    AdoptCollectedIff(k[s.init], k[m.vpid].exits);
  }

  lemma CollectedTallies(k: Task)
    requires Collected(k)
    ensures Tallied(k)
  {
  }

  ghost predicate NeverStrands(s: Sys, acts: seq<Action>)
    requires IsRun(s, acts)
    decreases |acts|
  {
    acts == [] || (!Strands(s, acts[0]) && NeverStrands(Next(s, acts[0]), acts[1..]))
  }

  /** In every run without a stranding step no thread of init waits in front of a queued status. */
  lemma {:induction false} InitInEveryRun(s: Sys, acts: seq<Action>)
    requires Inv(s) && IsRun(s, acts) && Collected(s.tasks[s.init]) && NeverStrands(s, acts)
    ensures s.init in After(s, acts).tasks && Collected(After(s, acts).tasks[s.init])
    decreases |acts|
  {
    if acts != [] {
      StepKeepsInv(s, acts[0]);
      hide Inv, Next, Enabled, Strands, Collected;
      InitCollectedIff(s, acts[0]);
      InitInEveryRun(Next(s, acts[0]), acts[1..]);
    }
  }

  /** While init has one thread, no step strands a waiter. */
  lemma OneThreadNeverStrands(s: Sys, a: Action)
    requires Inv(s) && Enabled(s, a)
    requires forall t, u :: t in s.pcbs[s.init].members && u in s.pcbs[s.init].members ==> t == u
    ensures !Strands(s, a)
  {
    InitWaiter(s);
  }
}
