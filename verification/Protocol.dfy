/** The message-passing kernel as a step machine: worker cores with run queues and message queues,
    the manager core, and the threads that travel between them.

    A thread and its message are one token (README.dox): a message is named by the thread that owns
    it, so every queue below is a queue of threads. */
module Protocol {
  import opened Basics
  import opened Lifecycle

  /** `msg_t.type` with the data each type carries. */
  datatype Payload =
    | Empty
    | Fork(child: Tid, ppid: Pid)
    | ForkResponse(req: Tid)
    | ForkDone
    | Wait(pid: Pid)
    | WaitDone(outcome: WaitOutcome)
    | Vanish(vpid: Pid, vppid: Pid, status: int)
    | VanishBack(oriCpu: nat)
    | Call
    | Tour(next: nat, found: bool)
    | Response

  /** Where in its life a thread is: created by fork() but not yet announced, announced to the
      manager, an ordinary thread of its task, or on one of the steps of vanish(): reporting the exit
      of its task, departing, on its way back to the core that created it, and dead there. */
  datatype Role = Newborn | Announced | Live | Exiting | Departing | Leaving | Dead

  /** Which kind of place holds the thread: a core (running, runnable or blocked there), the hands of a
      thread that has picked it to run next but not switched to it yet, a send queue, the manager's
      hands, a message on its way back to a core, a wait queue, the request of a fork in flight, or the
      `new_thr` pointer of a FORK message. */
  datatype Stage = OnCore | Picked | Sent | Held | Returning | Waiting | Parked | Embryo

  datatype Thread = Thread(task: Pid, role: Role, stage: Stage, cpu: nat, msg: Payload)

  /** One worker core; `running` is None while the idle thread runs. */
  datatype Core = Core(running: Option<Tid>, runq: seq<Tid>, sendq: seq<Tid>, recvq: seq<Tid>)

  /** The worker side of a task; `cur_thr_num` is the number of members. */
  datatype Pcb = Pcb(ppid: Pid, members: set<Tid>)

  /** A message the manager has prepared for the receive queue of a core. */
  datatype Send = Send(tid: Tid, cpu: nat)

  /** `tid` has been picked as the next thread by thread `holder`, or by the idle thread of core `core`.
      Interrupts are enabled between picking and switching, so the picking thread can itself be
      switched away from, and can pick again inside the interrupt: its picks form a stack. */
  datatype Pick = Pick(holder: Option<Tid>, core: nat, tid: Tid)

  datatype Sys = Sys(
    cores: seq<Core>,
    picked: seq<Pick>,
    threads: map<Tid, Thread>,
    blocked: set<Tid>,
    madeRunnable: set<Tid>,
    held: Option<Tid>,
    outbox: seq<Send>,
    tasks: Table,
    pcbs: map<Pid, Pcb>,
    registered: set<Pid>,
    init: Pid,
    forkNext: nat,
    next: Tid,
    panicked: bool,
    exited: seq<Exit>,
    delivered: seq<Delivery>,
    orphans: nat)

  // ----- worker steps

  function Current(k: Core): seq<Tid> {
    if k.running.Some? then [k.running.value] else []
  }

  /** `scheduler_block`: leave the running thread out and take the head of the run queue, or idle. */
  function SwitchAway(k: Core): Core {
    if k.runq == [] then k.(running := None)
    else k.(running := Some(k.runq[0]), runq := k.runq[1..])
  }

  function SetCore(s: Sys, c: nat, k: Core): Sys
    requires c < |s.cores|
  {
    s.(cores := s.cores[c := k])
  }

  function SetThread(s: Sys, t: Tid, th: Thread): Sys {
    s.(threads := s.threads[t := th])
  }

  /** The thread running on core `c`. */
  predicate Runs(s: Sys, c: nat, t: Tid) {
    c < |s.cores| && s.cores[c].running == Some(t) && t in s.threads
  }

  /** OP_SEND_MSG: the running thread's message goes to the send queue and the core switches away. */
  function SendMsg(s: Sys, c: nat, t: Tid, role: Role, cpu: nat, msg: Payload): Sys
    requires Runs(s, c, t)
  {
    var k := SwitchAway(s.cores[c]);
    SetThread(SetCore(s, c, k.(sendq := k.sendq + [t])), t,
              s.threads[t].(role := role, stage := Sent, cpu := cpu, msg := msg))
  }

  /** The messages `get_thr_from_msg_queue` turns into a thread; it drops every other type. */
  predicate Resumes(msg: Payload) {
    msg.ForkResponse? || msg.ForkDone? || msg.WaitDone? || msg.Response? || msg.Tour?
  }

  /** Thread `x` has been picked by the thread running on core `c`, whose queues are now those of `k`. */
  function Take(s: Sys, c: nat, k: Core, x: Tid): Sys
    requires c < |s.cores| && x in s.threads
  {
    SetThread(SetCore(s, c, k), x, s.threads[x].(stage := Picked))
      .(picked := s.picked + [Pick(s.cores[c].running, c, x)])
  }

  /** The first half of OP_CONTEXT_SWITCH and yield(-1), under the lock: a message in the receive queue
      goes first, then the head of the run queue. With neither, the thread goes on. */
  function PickNext(s: Sys, c: nat): Sys
    requires c < |s.cores|
  {
    var k := s.cores[c];
    if k.recvq != [] && k.recvq[0] in s.threads && s.threads[k.recvq[0]].msg.Fork? then
      var t := k.recvq[0];
      var n := s.threads[t].msg.child;
      if n in s.threads && n != t then
        SetThread(Take(s, c, k.(recvq := k.recvq[1..]), n), t, s.threads[t].(stage := Parked))
      else s.(panicked := true)
    else if k.recvq != [] && k.recvq[0] in s.threads && Resumes(s.threads[k.recvq[0]].msg) then
      Take(s, c, k.(recvq := k.recvq[1..]), k.recvq[0])
    else if k.recvq != [] then s.(panicked := true)
    else if k.runq != [] && k.runq[0] in s.threads then Take(s, c, k.(runq := k.runq[1..]), k.runq[0])
    else s
  }

  /** The position of the first node of a queue holding thread `tid`, or its length. */
  function IndexOf(q: seq<Tid>, tid: Tid): (i: nat)
    ensures i <= |q| && tid !in q[..i] && (i < |q| ==> q[i] == tid)
  {
    if q == [] || q[0] == tid then 0 else 1 + IndexOf(q[1..], tid)
  }

  /** The first half of yield(tid): pick that thread if it is in this core's run queue. */
  function PickTid(s: Sys, c: nat, tid: Tid): Sys
    requires c < |s.cores|
  {
    var k := s.cores[c];
    var i := IndexOf(k.runq, tid);
    if i < |k.runq| && tid in s.threads then Take(s, c, k.(runq := k.runq[..i] + k.runq[i + 1..]), tid) else s
  }

  /** The pick was made by `who`, or by the idle thread of core `c`. */
  predicate PickedBy(p: Pick, who: Option<Tid>, c: nat) {
    p.holder == who && (who.Some? || p.core == c)
  }

  /** Where the latest pick of that thread is, or -1. */
  function LatestPick(ps: seq<Pick>, who: Option<Tid>, c: nat): (i: int)
    ensures -1 <= i < |ps| && (i >= 0 ==> PickedBy(ps[i], who, c))
  {
    if ps == [] then -1
    else if PickedBy(ps[|ps| - 1], who, c) then |ps| - 1
    else LatestPick(ps[..|ps| - 1], who, c)
  }

  /** The thread running on core `c` has picked another and not switched to it. */
  predicate Switching(s: Sys, c: nat) {
    c < |s.cores| && LatestPick(s.picked, s.cores[c].running, c) >= 0
  }

  /** The second half, under the lock again: the running thread goes to the tail of the run queue and the
      thread it picked last runs. */
  function SwitchTo(s: Sys, c: nat): Sys
    requires Switching(s, c)
  {
    var k := s.cores[c];
    var i := LatestPick(s.picked, k.running, c);
    var x := s.picked[i].tid;
    if x in s.threads then
      SetThread(SetCore(s, c, k.(running := Some(x), runq := k.runq + Current(k))), x, s.threads[x].(stage := OnCore))
        .(picked := s.picked[..i] + s.picked[i + 1..])
    else s.(panicked := true)
  }

  /** OP_BLOCK. */
  function BlockSelf(s: Sys, c: nat, t: Tid): Sys
    requires Runs(s, c, t)
  {
    if t in s.madeRunnable then s.(madeRunnable := s.madeRunnable - {t})
    else SetCore(s, c, SwitchAway(s.cores[c])).(blocked := s.blocked + {t})
  }

  /** OP_MAKE_RUNNABLE, outside its strange-state panic. */
  function WakeThread(s: Sys, c: nat, t: Tid): Sys
    requires c < |s.cores|
  {
    var k := s.cores[c];
    if t in s.blocked then SetCore(s, c, k.(runq := k.runq + [t])).(blocked := s.blocked - {t})
    else s.(madeRunnable := s.madeRunnable + {t})
  }

  /** OP_THREAD_FORK: a new thread of the same task starts running and the old one is queued. */
  function ThreadFork(s: Sys, c: nat, t: Tid): Sys
    requires Runs(s, c, t) && s.threads[t].task in s.pcbs
  {
    var k, p, n := s.cores[c], s.threads[t].task, s.next;
    SetThread(SetCore(s, c, k.(running := Some(n), runq := k.runq + [t])), n, Thread(p, Live, OnCore, c, Empty))
      .(next := n + 1, pcbs := s.pcbs[p := s.pcbs[p].(members := s.pcbs[p].members + {n})])
  }

  /** OP_FORK up to OP_SEND_MSG: a new thread hangs off the FORK message. */
  function ForkStep(s: Sys, c: nat, t: Tid): Sys
    requires Runs(s, c, t)
  {
    var n := s.next;
    SetThread(SendMsg(s, c, t, s.threads[t].role, c, Fork(n, s.threads[t].task)), n,
              Thread(n, Newborn, Embryo, c, ForkResponse(t))).(next := n + 1)
  }

  /** The new thread finishes fork() on its core: it creates its task and announces itself. */
  function Announce(s: Sys, c: nat, n: Tid): Sys
    requires Runs(s, c, n) && s.threads[n].msg.ForkResponse? && s.threads[n].msg.req in s.threads
  {
    SendMsg(s, c, n, Announced, c, s.threads[n].msg)
      .(pcbs := s.pcbs[n := Pcb(s.threads[s.threads[n].msg.req].task, {n})])
  }

  /** vanish(): the thread leaves its task; the last one reports the exit to the manager. */
  function BeginVanish(s: Sys, c: nat, t: Tid, status: int): Sys
    requires Runs(s, c, t) && s.threads[t].task in s.pcbs
  {
    var p := s.threads[t].task;
    var left := s.pcbs[p].members - {t};
    var s1 := if left == {} then SendMsg(s, c, t, Exiting, c, Vanish(p, s.pcbs[p].ppid, status))
              else SetThread(s, t, s.threads[t].(role := Departing));
    s1.(pcbs := s.pcbs[p := s.pcbs[p].(members := left)])
  }

  // ----- manager steps

  /** `manager_recv_msg` finding a message in the send queue of core `c`. */
  function Poll(s: Sys, c: nat): Sys
    requires c < |s.cores| && s.cores[c].sendq != [] && s.cores[c].sendq[0] in s.threads
  {
    var k := s.cores[c];
    var t := k.sendq[0];
    SetThread(SetCore(s, c, k.(sendq := k.sendq[1..])), t, s.threads[t].(stage := Held)).(held := Some(t))
  }

  /** `manager_send_msg`: the oldest prepared message goes to a receive queue. */
  function Transmit(s: Sys): Sys
    requires s.outbox != [] && s.outbox[0].cpu < |s.cores|
  {
    var m := s.outbox[0];
    var k := s.cores[m.cpu];
    SetCore(s, m.cpu, k.(recvq := k.recvq + [m.tid])).(outbox := s.outbox[1..])
  }

  /** Answer the held message of `t` with `msg`, to be sent to core `cpu`; `role` is what the thread
      becomes by the answer. */
  function Answer(s: Sys, t: Tid, role: Role, msg: Payload, cpu: nat): Sys
    requires t in s.threads
  {
    SetThread(s, t, s.threads[t].(role := role, stage := Returning, msg := msg))
      .(held := None, outbox := s.outbox + [Send(t, cpu)])
  }

  /** Prepare the WAIT_RESPONSE message that tells a waiting thread an exit status. */
  function Tell(s: Sys, d: Delivery): Sys
    requires d.waiter in s.threads
  {
    var w := d.waiter;
    SetThread(s, w, s.threads[w].(stage := Returning, msg := WaitDone(Reaped(d.exit))))
      .(outbox := s.outbox + [Send(w, s.threads[w].cpu)], delivered := s.delivered + [d])
  }

  /** Prepare the messages of a list of deliveries. */
  function Deliver(s: Sys, d: seq<Delivery>): Sys
    decreases |d|
  {
    if d == [] then s
    else if d[0].waiter !in s.threads then s.(panicked := true)
    else Deliver(Tell(s, d[0]), d[1..])
  }

  function HandleFork(s: Sys, t: Tid): Sys
    requires t in s.threads && s.threads[t].msg.Fork? && |s.cores| > 0
  {
    Answer(s, t, Live, s.threads[t].msg, s.forkNext)
      .(tasks := s.tasks[s.threads[t].msg.child := NEW_TASK], forkNext := (s.forkNext + 1) % |s.cores|)
  }

  /** `smp_fork_response`: both the parent's request and the child's own message go back. */
  function HandleForkResponse(s: Sys, n: Tid): Sys
    requires n in s.threads && s.threads[n].msg.ForkResponse?
  {
    var t := s.threads[n].msg.req;
    if t !in s.threads || !s.threads[t].msg.Fork? || s.threads[t].msg.ppid !in s.tasks then s.(panicked := true)
    else
      var p := s.threads[t].msg.ppid;
      var s1 := SetThread(s, t, s.threads[t].(stage := Returning, msg := ForkDone))
                .(tasks := s.tasks[p := s.tasks[p].(numAlive := s.tasks[p].numAlive + 1)],
                  outbox := s.outbox + [Send(t, s.threads[t].cpu)],
                  registered := s.registered + {n});
      if n in s1.threads then Answer(s1, n, Live, s1.threads[n].msg, s1.threads[n].cpu) else s1
  }

  function HandleWait(s: Sys, t: Tid): Sys
    requires t in s.threads && s.threads[t].msg.Wait?
  {
    var p := s.threads[t].msg.pid;
    if p !in s.tasks || (s.tasks[p].numZombie != 0 && s.tasks[p].exits == []) then s.(panicked := true)
    else
      var (k, o) := WaitTask(s.tasks[p], t);
      var s1 := s.(tasks := s.tasks[p := k]);
      if o.Blocked? then SetThread(s1, t, s.threads[t].(stage := Waiting)).(held := None)
      else
        var s2 := Answer(s1, t, Live, WaitDone(o), s.threads[t].cpu);
        if o.Reaped? then s2.(delivered := s.delivered + [Delivery(t, o.exit)]) else s2
  }

  function HandleVanish(s: Sys, t: Tid): Sys
    requires t in s.threads && s.threads[t].msg.Vanish?
  {
    var m := s.threads[t].msg;
    if !CanVanish(s.tasks, s.init, m.vpid, m.vppid) then s.(panicked := true)
    else
      var s1 := Deliver(s, VanishDeliveries(s.tasks, s.init, m.vpid, m.vppid, m.status))
                .(tasks := VanishTasks(s.tasks, s.init, m.vpid, m.vppid, m.status),
                  exited := s.exited + [Exit(m.vpid, m.status)],
                  orphans := s.orphans + if m.vppid in s.tasks then 0 else 1);
      if t in s1.threads then Answer(s1, t, Departing, Response, s1.threads[t].cpu) else s1
  }

  function HandleTour(s: Sys, t: Tid): Sys
    requires t in s.threads && s.threads[t].msg.Tour? && |s.cores| > 0
  {
    var m := s.threads[t].msg;
    if m.found then Answer(s, t, Live, m, s.threads[t].cpu)
    else
      var hop := (m.next + 1) % |s.cores|;
      Answer(s, t, Live, Tour(hop + 1, false), hop)
  }

  /** The dispatch loop of `smp_manager_boot` on the message it holds. A type it does not know is
      dropped; that thread would be lost, so it counts as a panic here. */
  function Handle(s: Sys, t: Tid): Sys
    requires t in s.threads && |s.cores| > 0
  {
    match s.threads[t].msg
    case Fork(_, _) => HandleFork(s, t)
    case ForkResponse(_) => HandleForkResponse(s, t)
    case Wait(_) => HandleWait(s, t)
    case Vanish(_, _, _) => HandleVanish(s, t)
    case VanishBack(cpu) => Answer(s, t, Dead, Response, cpu)
    case Call => Answer(s, t, Live, Response, s.threads[t].cpu)
    case Tour(_, _) => HandleTour(s, t)
    case _ => s.(panicked := true)
  }

  // ----- runs

  datatype Action =
    | DoPick(c: nat)
    | DoPickTid(c: nat, tid: Tid)
    | DoSwitch(c: nat)
    | DoBlock(c: nat)
    | DoWake(c: nat, tid: Tid)
    | DoThreadFork(c: nat)
    | DoFork(c: nat)
    | DoAnnounce(c: nat)
    | DoWait(c: nat)
    | DoCall(c: nat)
    | DoTour(c: nat, next: nat, found: bool, first: bool)
    | DoVanish(c: nat, status: int)
    | DoLeave(c: nat, oriCpu: nat)
    | DoPoll(c: nat)
    | DoHandle
    | DoTransmit

  /** The thread running on `c` has the given role and is not in the middle of a switch. */
  predicate RunsAs(s: Sys, c: nat, role: Role) {
    c < |s.cores| && s.cores[c].running.Some? && s.cores[c].running.value in s.threads
    && s.threads[s.cores[c].running.value].role == role && !Switching(s, c)
  }

  function RunningOn(s: Sys, c: nat): Tid
    requires c < |s.cores| && s.cores[c].running.Some?
  {
    s.cores[c].running.value
  }

  /** When an action can happen: what the calling code is, not what the kernel needs to be safe.
      fork() is refused to tasks with several threads; init never exits. A timer interrupt can make any
      thread pick at any time, also one that is in the middle of a switch. */
  predicate Enabled(s: Sys, a: Action) {
    && !s.panicked
    && match a
       case DoPick(c) => c < |s.cores|
       case DoPickTid(c, _) => c < |s.cores| && !Switching(s, c)
       case DoSwitch(c) => Switching(s, c)
       case DoBlock(c) => c < |s.cores| && s.cores[c].running.Some? && Runs(s, c, s.cores[c].running.value)
                          && !Switching(s, c)
       case DoWake(c, t) => c < |s.cores| && t in s.threads && t !in s.madeRunnable
       case DoThreadFork(c) => RunsAs(s, c, Live) && s.threads[RunningOn(s, c)].task in s.pcbs
       case DoFork(c) => RunsAs(s, c, Live) && s.threads[RunningOn(s, c)].task in s.pcbs
                         && |s.pcbs[s.threads[RunningOn(s, c)].task].members| <= 1
       case DoAnnounce(c) => RunsAs(s, c, Newborn) && s.threads[RunningOn(s, c)].msg.ForkResponse?
                             && s.threads[RunningOn(s, c)].msg.req in s.threads
       case DoWait(c) => RunsAs(s, c, Live)
       case DoCall(c) => RunsAs(s, c, Live)
       case DoTour(c, _, _, _) => RunsAs(s, c, Live)
       case DoVanish(c, _) => RunsAs(s, c, Live) && s.threads[RunningOn(s, c)].task in s.pcbs
                              && s.threads[RunningOn(s, c)].task != s.init
       case DoLeave(c, ori) => RunsAs(s, c, Departing) && ori < |s.cores|
       case DoPoll(c) => c < |s.cores| && s.held == None && s.outbox == []
                         && s.cores[c].sendq != [] && s.cores[c].sendq[0] in s.threads
       case DoHandle => |s.cores| > 0 && s.held.Some? && s.held.value in s.threads
       case DoTransmit => s.held == None && s.outbox != [] && s.outbox[0].cpu < |s.cores|
  }

  function Next(s: Sys, a: Action): Sys
    requires Enabled(s, a)
  {
    match a
    case DoPick(c) => PickNext(s, c)
    case DoPickTid(c, tid) => PickTid(s, c, tid)
    case DoSwitch(c) => SwitchTo(s, c)
    case DoBlock(c) => BlockSelf(s, c, RunningOn(s, c))
    case DoWake(c, t) => WakeThread(s, c, t)
    case DoThreadFork(c) => ThreadFork(s, c, RunningOn(s, c))
    case DoFork(c) => ForkStep(s, c, RunningOn(s, c))
    case DoAnnounce(c) => Announce(s, c, RunningOn(s, c))
    case DoWait(c) => SendMsg(s, c, RunningOn(s, c), Live, c, Wait(s.threads[RunningOn(s, c)].task))
    case DoCall(c) => SendMsg(s, c, RunningOn(s, c), Live, c, Call)
    case DoTour(c, next, found, first) =>
      var t := RunningOn(s, c);
      SendMsg(s, c, t, Live, if first then c else s.threads[t].cpu, Tour(next, found))
    case DoVanish(c, status) => BeginVanish(s, c, RunningOn(s, c), status)
    case DoLeave(c, ori) => SendMsg(s, c, RunningOn(s, c), Leaving, c, VanishBack(ori))
    case DoPoll(c) => Poll(s, c)
    case DoHandle => Handle(s, s.held.value)
    case DoTransmit => Transmit(s)
  }

  /** The system after boot: `w` idle cores, and init's one thread running on core 0. */
  function Boot(w: nat): Sys
    requires w > 0
  {
    Sys([Core(Some(0), [], [], [])] + seq(w - 1, _ => Core(None, [], [], [])), [],
        map[0 := Thread(0, Live, OnCore, 0, Empty)], {}, {}, None, [],
        map[0 := NEW_TASK], map[0 := Pcb(0, {0})], {0}, 0, 0, 1, false, [], [], 0)
  }
}
