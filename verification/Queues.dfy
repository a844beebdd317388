/** The queues of the kernel are first in, first out: the run, send and receive queue of every core, and the
    messages that the manager has prepared. What joins and what leaves a queue is read off the call made and
    off who runs, is picked or is held next, not off the queue. */
module Queues {
  import opened Basics
  import opened Lifecycle
  import opened Protocol
  import opened Placement
  import opened KernelInvariant
  import opened WorkerSteps
  import opened ManagerSteps
  import opened VanishSteps
  import opened KernelRuns

  // ----- what joins and what leaves

  /** The action is a call in which the thread running on `c` sends its message to the manager. */
  predicate SendsFrom(s: Sys, a: Action, c: nat)
    requires Enabled(s, a)
  {
    match a
    case DoFork(d) => c == d
    case DoAnnounce(d) => c == d
    case DoWait(d) => c == d
    case DoCall(d) => c == d
    case DoTour(d, _, _, _) => c == d
    case DoVanish(d, _) => c == d && s.pcbs[s.threads[RunningOn(s, d)].task].members <= {RunningOn(s, d)}
    case DoLeave(d, _) => c == d
    case _ => false
  }

  /** Who joins the run queue of `c`: a thread switched away from, a thread woken, the parent of a thread. */
  function RunJoins(s: Sys, a: Action, c: nat): seq<Tid>
    requires c < |s.cores|
  {
    match a
    case DoSwitch(d) => if d == c then Current(s.cores[c]) else []
    case DoThreadFork(d) => if d == c then Current(s.cores[c]) else []
    case DoWake(d, t) => if d == c && t in s.blocked then [t] else []
    case _ => []
  }

  /** The threads picked in the step. */
  function NewPicks(s: Sys, s': Sys): seq<Pick> {
    if |s.picked| <= |s'.picked| then s'.picked[|s.picked|..] else []
  }

  function Tids(ps: seq<Pick>): seq<Tid> {
    if ps == [] then [] else [ps[0].tid] + Tids(ps[1..])
  }

  /** Who leaves it: a thread picked when no message has arrived, and a thread that runs because the running
      one blocked or sent a message. */
  ghost function RunLeaves(s: Sys, a: Action, c: nat): seq<Tid>
    requires Enabled(s, a) && c < |s.cores|
  {
    var s' := Next(s, a);
    if a == DoPick(c) && s.cores[c].recvq == [] then Tids(NewPicks(s, s'))
    else if (a == DoBlock(c) || SendsFrom(s, a, c)) && c < |s'.cores| && s'.cores[c].running != s.cores[c].running
    then Current(s'.cores[c])
    else []
  }

  function SendJoins(s: Sys, a: Action, c: nat): seq<Tid>
    requires Enabled(s, a) && c < |s.cores|
  {
    if SendsFrom(s, a, c) then Current(s.cores[c]) else []
  }

  ghost function SendLeaves(s: Sys, a: Action, c: nat): seq<Tid>
    requires Enabled(s, a) && c < |s.cores|
  {
    if a == DoPoll(c) && Next(s, a).held.Some? then [Next(s, a).held.value] else []
  }

  function RecvJoins(s: Sys, a: Action, c: nat): seq<Tid>
    requires Enabled(s, a) && c < |s.cores|
  {
    if a.DoTransmit? && s.outbox[0].cpu == c then [s.outbox[0].tid] else []
  }

  /** Whose message brought thread `x`: its own, or the request of its parent if `x` is new. */
  function Bringer(s: Sys, x: Tid): Tid {
    if x in s.threads && s.threads[x].stage == Embryo && s.threads[x].msg.ForkResponse? then s.threads[x].msg.req
    else x
  }

  ghost function RecvLeaves(s: Sys, a: Action, c: nat): seq<Tid>
    requires Enabled(s, a) && c < |s.cores|
  {
    var ps := NewPicks(s, Next(s, a));
    if a == DoPick(c) && s.cores[c].recvq != [] && ps != [] then [Bringer(s, ps[0].tid)] else []
  }

  // ----- one step

  /** Each queue of core `c` before the step, with what joins, is what leaves followed by the queue after it. */
  ghost predicate QueuesStep(s: Sys, a: Action, c: nat)
    requires Enabled(s, a) && c < |s.cores|
  {
    var s' := Next(s, a);
    && c < |s'.cores|
    && (!(a.DoPickTid? && a.c == c) ==> s.cores[c].runq + RunJoins(s, a, c) == RunLeaves(s, a, c) + s'.cores[c].runq)
    && s.cores[c].sendq + SendJoins(s, a, c) == SendLeaves(s, a, c) + s'.cores[c].sendq
    && s.cores[c].recvq + RecvJoins(s, a, c) == RecvLeaves(s, a, c) + s'.cores[c].recvq
  }

  lemma HeadFirst(q: seq<Tid>)
    ensures q != [] ==> q + [] == [q[0]] + q[1..]
    ensures q + [] == [] + q
  {
  }

  /** A step that does not touch the queues of core `c`. */
  lemma QuietQueues(s: Sys, a: Action, c: nat)
    requires Enabled(s, a) && c < |s.cores| && c < |Next(s, a).cores| && Next(s, a).cores[c] == s.cores[c]
    requires RunJoins(s, a, c) == [] && RunLeaves(s, a, c) == [] && SendJoins(s, a, c) == []
    requires SendLeaves(s, a, c) == [] && RecvJoins(s, a, c) == [] && RecvLeaves(s, a, c) == []
    ensures QueuesStep(s, a, c)
  {
    hide Enabled, Next, RunJoins, RunLeaves, SendJoins, SendLeaves, RecvJoins, RecvLeaves;
    HeadFirst(s.cores[c].runq);
    HeadFirst(s.cores[c].sendq);
    HeadFirst(s.cores[c].recvq);
  }

  /** The running thread leaves core `c`, with or without a message. */
  lemma LeavingQueues(s: Sys, a: Action, c: nat, sent: seq<Tid>)
    requires Enabled(s, a) && c < |s.cores| && s.cores[c].running.Some?
    requires a == DoBlock(c) || SendsFrom(s, a, c)
    requires var k := SwitchAway(s.cores[c]);
      |Next(s, a).cores| == |s.cores| && Next(s, a).cores[c] == k.(sendq := k.sendq + sent)
    requires sent == if SendsFrom(s, a, c) then Current(s.cores[c]) else []
    requires s.cores[c].runq != [] ==> Some(s.cores[c].runq[0]) != s.cores[c].running
    ensures QueuesStep(s, a, c)
  {
    LeavingFlows(s, a, c);
    hide Enabled, Next, SendsFrom, RunJoins, RunLeaves, SendJoins, SendLeaves, RecvJoins, RecvLeaves;
    HeadFirst(s.cores[c].runq);
    HeadFirst(s.cores[c].sendq);
    HeadFirst(s.cores[c].recvq);
  }

  lemma LeavingFlows(s: Sys, a: Action, c: nat)
    requires Enabled(s, a) && c < |s.cores| && c < |Next(s, a).cores| && (a == DoBlock(c) || SendsFrom(s, a, c))
    ensures RunJoins(s, a, c) == [] && SendLeaves(s, a, c) == []
    ensures RecvJoins(s, a, c) == [] && RecvLeaves(s, a, c) == []
    ensures SendJoins(s, a, c) == if SendsFrom(s, a, c) then Current(s.cores[c]) else []
    ensures var k' := Next(s, a).cores[c];
      RunLeaves(s, a, c) == if k'.running != s.cores[c].running then Current(k') else []
    ensures !a.DoPickTid?
  {
    hide Enabled, Next;
  }

  /** A thread is not at the head of the run queue while it runs. */
  lemma NotQueued(s: Sys, c: nat)
    requires Placed(s) && c < |s.cores| && s.cores[c].running.Some?
    ensures s.cores[c].running.value !in s.cores[c].runq
  {
    var t := s.cores[c].running.value;
    PlacedHere(s, t);
    CoresCountHas(s.cores, c, Running, t);
  }

  lemma SendQueues(s: Sys, a: Action, c: nat)
    requires Placed(s) && Enabled(s, a) && c < |s.cores| && SendsFrom(s, a, c)
    ensures QueuesStep(s, a, c)
  {
    hide QueuesStep, Placed, LatestPick;
    NotQueued(s, c);
    LeavingQueues(s, a, c, Current(s.cores[c]));
  }

  lemma BlockQueues(s: Sys, c: nat)
    requires Placed(s) && Enabled(s, DoBlock(c))
    ensures QueuesStep(s, DoBlock(c), c)
  {
    hide QueuesStep, Placed, LatestPick;
    NotQueued(s, c);
    var k := SwitchAway(s.cores[c]);
    assert k.sendq + [] == k.sendq;
    if RunningOn(s, c) in s.madeRunnable {
      QuietQueues(s, DoBlock(c), c);
    } else {
      LeavingQueues(s, DoBlock(c), c, []);
    }
  }

  lemma JoinQueues(s: Sys, a: Action, c: nat)
    requires Enabled(s, a) && c < |s.cores| && (a.DoSwitch? || a.DoThreadFork? || a.DoWake?) && a.c == c
    requires Placed(s)
    ensures QueuesStep(s, a, c)
  {
    hide Placed, LatestPick;
    HeadFirst(s.cores[c].runq);
    HeadFirst(s.cores[c].sendq);
    HeadFirst(s.cores[c].recvq);
    if a.DoSwitch? {
      PickedFacts(s, LatestPick(s.picked, s.cores[c].running, c));
    }
  }

  lemma OneTid(p: Pick)
    ensures Tids([p]) == [p.tid] && Tids([]) == []
  {
  }

  lemma PickQueues(s: Sys, c: nat)
    requires Inv(s) && c < |s.cores|
    ensures QueuesStep(s, DoPick(c), c)
  {
    hide Placed, Linked, Membered, Accounted, LatestPick, Tids;
    var k, s' := s.cores[c], PickNext(s, c);
    HeadFirst(k.runq);
    HeadFirst(k.sendq);
    HeadFirst(k.recvq);
    OneTid(Pick(k.running, c, 0));
    if k.recvq != [] {
      QueueFacts(s, c, k.recvq[0]);
      ThreadHere(s, k.recvq[0]);
      PickReceived(s, c);
    } else if k.runq != [] {
      QueueFacts(s, c, k.runq[0]);
      OneTid(Pick(k.running, c, k.runq[0]));
      assert NewPicks(s, s') == [Pick(k.running, c, k.runq[0])];
    } else {
      assert NewPicks(s, s') == [];
    }
  }

  lemma PickReceived(s: Sys, c: nat)
    requires Inv(s) && c < |s.cores| && s.cores[c].recvq != []
    ensures var k, s' := s.cores[c], PickNext(s, c); var t := k.recvq[0];
      && |s'.cores| == |s.cores| && s'.cores[c] == k.(recvq := k.recvq[1..])
      && NewPicks(s, s') != [] && Bringer(s, NewPicks(s, s')[0].tid) == t
  {
    hide Placed, Linked, Membered, Accounted;
    var t := s.cores[c].recvq[0];
    QueueFacts(s, c, t);
    ThreadHere(s, t);
  }

  lemma ManagerQueues(s: Sys, a: Action, c: nat)
    requires Enabled(s, a) && c < |s.cores| && (a == DoPoll(c) || (a.DoTransmit? && s.outbox[0].cpu == c))
    ensures QueuesStep(s, a, c)
  {
    HeadFirst(s.cores[c].runq);
    HeadFirst(s.cores[c].sendq);
    HeadFirst(s.cores[c].recvq);
  }

  /** The step happens on another core, or in the manager. */
  predicate Elsewhere(s: Sys, a: Action, c: nat)
    requires Enabled(s, a)
  {
    match a
    case DoHandle => true
    case DoTransmit => s.outbox[0].cpu != c
    case DoVanish(d, _) => d != c || !SendsFrom(s, a, c)
    case _ => a.c != c
  }

  lemma ElsewhereFlows(s: Sys, a: Action, c: nat)
    requires Enabled(s, a) && c < |s.cores| && Elsewhere(s, a, c)
    ensures RunJoins(s, a, c) == [] && RunLeaves(s, a, c) == [] && SendJoins(s, a, c) == []
    ensures SendLeaves(s, a, c) == [] && RecvJoins(s, a, c) == [] && RecvLeaves(s, a, c) == []
  {
    hide Enabled, Next;
  }

  lemma {:induction false} DeliverCores(s: Sys, d: seq<Delivery>)
    ensures Deliver(s, d).cores == s.cores && Deliver(s, d).picked == s.picked && s.outbox <= Deliver(s, d).outbox
    decreases |d|
  {
    if d != [] && d[0].waiter in s.threads {
      DeliverCores(Tell(s, d[0]), d[1..]);
    }
  }

  lemma HandleCores(s: Sys)
    requires Enabled(s, DoHandle)
    ensures var s' := Next(s, DoHandle); s'.cores == s.cores && s'.picked == s.picked && s.outbox <= s'.outbox
  {
    hide VanishTasks, VanishDeliveries, Deliver;
    var m := s.threads[s.held.value].msg;
    if m.Vanish? && CanVanish(s.tasks, s.init, m.vpid, m.vppid) {
      DeliverCores(s, VanishDeliveries(s.tasks, s.init, m.vpid, m.vppid, m.status));
    }
  }

  lemma SameElsewhere(s: Sys, a: Action, c: nat)
    requires Inv(s) && Enabled(s, a) && c < |s.cores| && Elsewhere(s, a, c)
    ensures |Next(s, a).cores| == |s.cores| && Next(s, a).cores[c] == s.cores[c]
  {
    hide Placed, Linked, Membered, Accounted, LatestPick, SwitchAway, Handle, Deliver, Resumes, IndexOf;
    match a
    case DoHandle => HandleCores(s);
    case DoPick(d) => PickElsewhere(s, d, c);
    case DoSwitch(d) => PickedFacts(s, LatestPick(s.picked, s.cores[d].running, d));
    case _ =>
  }

  lemma PickElsewhere(s: Sys, d: nat, c: nat)
    requires Inv(s) && c < |s.cores| && d < |s.cores| && c != d
    ensures |PickNext(s, d).cores| == |s.cores| && PickNext(s, d).cores[c] == s.cores[c]
  {
    hide Placed, Linked, Membered, Accounted;
  }

  /** In every step every queue is first in, first out; only yield() to a named thread takes one out of order. */
  lemma StepQueues(s: Sys, a: Action, c: nat)
    requires Inv(s) && Enabled(s, a) && c < |s.cores|
    ensures QueuesStep(s, a, c)
  {
    hide Next, QueuesStep, Placed, Linked, Membered, Accounted;
    if Elsewhere(s, a, c) {
      ElsewhereFlows(s, a, c);
      SameElsewhere(s, a, c);
      QuietQueues(s, a, c);
    } else if SendsFrom(s, a, c) {
      SendQueues(s, a, c);
    } else {
      match a
      case DoPick(_) => PickQueues(s, c);
      case DoBlock(_) => BlockQueues(s, c);
      case DoPickTid(_, tid) => YieldQueues(s, c, tid);
      case DoPoll(_) => ManagerQueues(s, a, c);
      case DoTransmit => ManagerQueues(s, a, c);
      case _ => JoinQueues(s, a, c);
    }
  }

  lemma YieldQueues(s: Sys, c: nat, tid: Tid)
    requires Enabled(s, DoPickTid(c, tid))
    ensures QueuesStep(s, DoPickTid(c, tid), c)
  {
    hide LatestPick;
    HeadFirst(s.cores[c].sendq);
    HeadFirst(s.cores[c].recvq);
  }

  /** yield() to a thread of the run queue picks that thread, and the others keep their order. */
  lemma YieldTakes(s: Sys, c: nat, tid: Tid)
    requires Inv(s) && Enabled(s, DoPickTid(c, tid))
    ensures var s' := Next(s, DoPickTid(c, tid)); var q, q' := s.cores[c].runq, s'.cores[c].runq;
      && (tid in q ==> exists i :: 0 <= i <= |q'| && q == q'[..i] + [tid] + q'[i..])
      && (tid in q ==> Tids(NewPicks(s, s')) == [tid])
      && (tid !in q ==> s' == s)
  {
    hide Placed, Linked, Membered, Accounted, LatestPick, Tids;
    var q := s.cores[c].runq;
    var i := IndexOf(q, tid);
    if tid in q {
      QueueFacts(s, c, tid);
      var q', p := q[..i] + q[i + 1..], Pick(s.cores[c].running, c, tid);
      assert q == q'[..i] + [tid] + q'[i..];
      assert NewPicks(s, Next(s, DoPickTid(c, tid))) == [p];
      OneTid(p);
    }
  }

  // ----- whole runs

  datatype Kind = RunQueue | SendQueue | ReceiveQueue

  function Queue(s: Sys, c: nat, w: Kind): seq<Tid>
    requires c < |s.cores|
  {
    match w
    case RunQueue => s.cores[c].runq
    case SendQueue => s.cores[c].sendq
    case ReceiveQueue => s.cores[c].recvq
  }

  ghost function Joins(s: Sys, a: Action, c: nat, w: Kind): seq<Tid>
    requires Enabled(s, a) && c < |s.cores|
  {
    match w
    case RunQueue => RunJoins(s, a, c)
    case SendQueue => SendJoins(s, a, c)
    case ReceiveQueue => RecvJoins(s, a, c)
  }

  ghost function Leaves(s: Sys, a: Action, c: nat, w: Kind): seq<Tid>
    requires Enabled(s, a) && c < |s.cores|
  {
    match w
    case RunQueue => RunLeaves(s, a, c)
    case SendQueue => SendLeaves(s, a, c)
    case ReceiveQueue => RecvLeaves(s, a, c)
  }

  /** Everyone who joins the queue over a run, in order. */
  ghost function Joined(s: Sys, acts: seq<Action>, c: nat, w: Kind): seq<Tid>
    requires IsRun(s, acts)
    decreases |acts|
  {
    if acts == [] || c >= |s.cores| then [] else Joins(s, acts[0], c, w) + Joined(Next(s, acts[0]), acts[1..], c, w)
  }

  /** Everyone who leaves it, in order. */
  ghost function Left(s: Sys, acts: seq<Action>, c: nat, w: Kind): seq<Tid>
    requires IsRun(s, acts)
    decreases |acts|
  {
    if acts == [] || c >= |s.cores| then [] else Leaves(s, acts[0], c, w) + Left(Next(s, acts[0]), acts[1..], c, w)
  }

  /** No thread of core `c` yields to a thread it names. */
  predicate NoNamedYield(acts: seq<Action>, c: nat) {
    forall i :: 0 <= i < |acts| ==> !(acts[i].DoPickTid? && acts[i].c == c)
  }

  lemma KindStep(s: Sys, a: Action, c: nat, w: Kind)
    requires Inv(s) && Enabled(s, a) && c < |s.cores| && (w.RunQueue? ==> !(a.DoPickTid? && a.c == c))
    ensures c < |Next(s, a).cores| && Queue(s, c, w) + Joins(s, a, c, w) == Leaves(s, a, c, w) + Queue(Next(s, a), c, w)
  {
    hide Inv, Next, Enabled, RunJoins, RunLeaves, SendJoins, SendLeaves, RecvJoins, RecvLeaves;
    StepQueues(s, a, c);
  }

  lemma Requeue(q: seq<Tid>, j: seq<Tid>, l: seq<Tid>, q1: seq<Tid>, j': seq<Tid>, l': seq<Tid>, q2: seq<Tid>)
    requires q + j == l + q1 && q1 + j' == l' + q2
    ensures q + (j + j') == (l + l') + q2
  {
    assert q + (j + j') == (q + j) + j' == l + (q1 + j') == (l + l') + q2;
  }

  /** Over every run, each queue of each core hands its threads on in the order in which they joined it. */
  lemma {:induction false} QueuesInEveryRun(s: Sys, acts: seq<Action>, c: nat, w: Kind)
    requires Inv(s) && IsRun(s, acts) && c < |s.cores| && (w.RunQueue? ==> NoNamedYield(acts, c))
    ensures c < |After(s, acts).cores|
    ensures Queue(s, c, w) + Joined(s, acts, c, w) == Left(s, acts, c, w) + Queue(After(s, acts), c, w)
    decreases |acts|
  {
    hide Inv, Next, Enabled, Joins, Leaves;
    if acts == [] {
      HeadFirst(Queue(s, c, w));
    } else {
      var a, s' := acts[0], Next(s, acts[0]);
      KindStep(s, a, c, w);
      StepKeepsInv(s, a);
      QueuesInEveryRun(s', acts[1..], c, w);
      Requeue(Queue(s, c, w), Joins(s, a, c, w), Leaves(s, a, c, w), Queue(s', c, w),
              Joined(s', acts[1..], c, w), Left(s', acts[1..], c, w), Queue(After(s', acts[1..]), c, w));
    }
  }

  /** The manager sends its messages in the order in which it prepared them. */
  lemma OutboxStep(s: Sys, a: Action)
    requires Inv(s) && Enabled(s, a)
    ensures if a.DoTransmit? then s.outbox == [s.outbox[0]] + Next(s, a).outbox else s.outbox <= Next(s, a).outbox
    ensures !a.DoTransmit? && !a.DoHandle? ==> Next(s, a).outbox == s.outbox
  {
    hide Placed, Linked, Membered, Accounted, LatestPick, SwitchAway, Handle, Resumes, IndexOf, Current;
    if a.DoHandle? {
      HandleCores(s);
    }
  }

  // ----- wake-ups

  /** `t` calls OP_BLOCK. */
  predicate Blocks(s: Sys, a: Action, t: Tid) {
    a.DoBlock? && a.c < |s.cores| && s.cores[a.c].running == Some(t)
  }

  /** A wake-up that finds its thread not blocked leaves a mark, which stays until the thread tries to block. */
  lemma MarkStays(s: Sys, a: Action, t: Tid)
    requires Inv(s) && Enabled(s, a)
    ensures a.DoWake? && a.tid == t && t !in s.blocked ==> t in Next(s, a).madeRunnable
    ensures t in s.madeRunnable && !Blocks(s, a, t) ==> t in Next(s, a).madeRunnable
  {
    hide Placed, Linked, Membered, Accounted, LatestPick, SwitchAway, Handle, Resumes, IndexOf, Current;
    if a.DoHandle? {
      HandleMarks(s);
    }
  }

  lemma HandleMarks(s: Sys)
    requires Enabled(s, DoHandle)
    ensures Next(s, DoHandle).madeRunnable == s.madeRunnable
  {
    hide VanishTasks, VanishDeliveries, Deliver;
    var m := s.threads[s.held.value].msg;
    if m.Vanish? && CanVanish(s.tasks, s.init, m.vpid, m.vppid) {
      DeliverMarks(s, VanishDeliveries(s.tasks, s.init, m.vpid, m.vppid, m.status));
    }
  }

  lemma {:induction false} DeliverMarks(s: Sys, d: seq<Delivery>)
    ensures Deliver(s, d).madeRunnable == s.madeRunnable
    decreases |d|
  {
    if d != [] && d[0].waiter in s.threads {
      DeliverMarks(Tell(s, d[0]), d[1..]);
    }
  }

  ghost predicate NeverBlocks(s: Sys, acts: seq<Action>, t: Tid)
    requires IsRun(s, acts)
    decreases |acts|
  {
    acts == [] || (!Blocks(s, acts[0], t) && NeverBlocks(Next(s, acts[0]), acts[1..], t))
  }

  lemma {:induction false} MarkStaysOn(s: Sys, acts: seq<Action>, t: Tid)
    requires Inv(s) && IsRun(s, acts) && t in s.madeRunnable && NeverBlocks(s, acts, t)
    ensures t in After(s, acts).madeRunnable
    decreases |acts|
  {
    hide Inv, Next, Enabled, Blocks;
    if acts != [] {
      StepKeepsInv(s, acts[0]);
      MarkStays(s, acts[0], t);
      MarkStaysOn(Next(s, acts[0]), acts[1..], t);
    }
  }

  /** No wake-up is lost: one that comes before its thread blocks, however long before, keeps the thread
      running when it does; one that comes after puts it at the end of a run queue. */
  lemma WakeNotLost(s: Sys, c: nat, t: Tid, acts: seq<Action>, d: nat)
    requires Inv(s) && Enabled(s, DoWake(c, t)) && IsRun(Next(s, DoWake(c, t)), acts)
    requires NeverBlocks(Next(s, DoWake(c, t)), acts, t)
    ensures var s1 := After(Next(s, DoWake(c, t)), acts);
      t !in s.blocked && Enabled(s1, DoBlock(d)) && Blocks(s1, DoBlock(d), t) ==>
        Next(s1, DoBlock(d)).cores == s1.cores && t !in Next(s1, DoBlock(d)).madeRunnable
    ensures t in s.blocked ==>
      t !in Next(s, DoWake(c, t)).blocked && Next(s, DoWake(c, t)).cores[c].runq == s.cores[c].runq + [t]
  {
    hide Inv, IsRun, After, NeverBlocks, Switching;
    StepKeepsInv(s, DoWake(c, t));
    MarkStays(s, DoWake(c, t), t);
    if t !in s.blocked {
      MarkStaysOn(Next(s, DoWake(c, t)), acts, t);
    }
  }
}
