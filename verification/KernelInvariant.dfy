/** What every reachable state of the message-passing kernel satisfies, besides placement: messages
    and thread roles agree, forks in flight link parent and child, and task records match the tasks. */
module KernelInvariant {
  import opened Basics
  import opened Lifecycle
  import opened Protocol
  import opened Placement

  // ----- messages in flight

  /** `t` has a fork in flight: its message names a child whose own message points back at `t`. */
  ghost predicate ForkerOk(s: Sys, t: Tid)
    requires t in s.threads
  {
    var th := s.threads[t];
    && th.role == Live && th.msg.Fork?
    && th.msg.ppid == th.task < th.msg.child
    && th.msg.child in s.threads
    && s.threads[th.msg.child].msg == ForkResponse(t)
    && s.threads[th.msg.child].task == th.msg.child
  }

  /** `n` was created by a fork whose request is parked until `n` has announced itself. */
  ghost predicate ChildOk(s: Sys, n: Tid)
    requires n in s.threads
  {
    var th := s.threads[n];
    && th.msg.ForkResponse? && th.msg.req in s.threads && th.task == n
    && s.threads[th.msg.req].msg.Fork? && s.threads[th.msg.req].msg.child == n
  }

  ghost predicate RequestOk(s: Sys, t: Tid)
    requires t in s.threads
  {
    var th := s.threads[t];
    match th.msg
    case Fork(n, _) => ForkerOk(s, t) && s.threads[n].stage == Embryo && n !in s.tasks
    case ForkResponse(req) => th.role == Announced && ChildOk(s, t) && s.threads[req].stage == Parked && t in s.tasks
    case Wait(pid) => th.role == Live && pid == th.task
    case Vanish(pid, ppid, _) => th.role == Exiting && pid == th.task && pid in s.pcbs && s.pcbs[pid].ppid == ppid
    case VanishBack(cpu) => th.role == Leaving && cpu < |s.cores|
    case Call => th.role == Live
    case Tour(_, _) => th.role == Live
    case _ => false
  }

  ghost predicate ReplyOk(s: Sys, t: Tid)
    requires t in s.threads
  {
    var th := s.threads[t];
    match th.msg
    case Fork(n, _) => ForkerOk(s, t) && s.threads[n].stage == Embryo && n in s.tasks
    case ForkResponse(_) => th.role == Live
    case ForkDone => th.role == Live
    case WaitDone(_) => th.role == Live
    case Response => th.role in {Live, Departing, Dead}
    case Tour(_, _) => th.role == Live
    case _ => false
  }

  ghost predicate ThreadOk(s: Sys, t: Tid)
    requires t in s.threads
  {
    var th := s.threads[t];
    && th.cpu < |s.cores| && t < s.next
    && match th.stage
       case OnCore | Picked =>
         && th.role in {Live, Newborn, Departing, Dead}
         && (th.role == Newborn ==> ChildOk(s, t) && s.threads[th.msg.req].stage == Parked && t in s.tasks)
       case Sent => RequestOk(s, t)
       case Held => RequestOk(s, t)
       case Returning => ReplyOk(s, t)
       case Waiting => th.role == Live && th.task in s.tasks && t in s.tasks[th.task].waiters
       case Parked => ForkerOk(s, t) && s.threads[th.msg.child].role in {Newborn, Announced}
                      && s.threads[th.msg.child].stage != Embryo
       case Embryo => th.role == Newborn && ChildOk(s, t) && s.threads[th.msg.req].stage in {Sent, Held, Returning}
  }

  ghost predicate Linked(s: Sys) {
    && |s.cores| > 0 && s.forkNext < |s.cores|
    && (forall i :: 0 <= i < |s.outbox| ==> s.outbox[i].cpu < |s.cores|)
    && (forall t :: t in s.threads ==> ThreadOk(s, t))
  }

  // ----- tasks and their threads

  predicate Counted(th: Thread) {
    th.role == Live || th.role == Announced
  }

  ghost predicate MembersOk(s: Sys, p: Pid)
    requires p in s.pcbs
  {
    && (forall t :: t in s.pcbs[p].members <==> t in s.threads && s.threads[t].task == p && Counted(s.threads[t]))
    && (p != s.init ==> s.pcbs[p].ppid != p && s.pcbs[p].ppid in s.registered)
    && p < s.next
  }

  ghost predicate TaskOfOk(s: Sys, t: Tid)
    requires t in s.threads
  {
    var th := s.threads[t];
    && (Counted(th) ==> th.task in s.pcbs && th.task in s.tasks)
    && (th.role == Live ==> th.task in s.registered)
    && (th.role == Newborn ==> th.task == t && t !in s.pcbs && t !in s.registered)
    && (th.role == Announced ==> th.task == t && t !in s.registered && th.msg.ForkResponse? && th.msg.req in s.threads
                                 && s.pcbs[t].ppid == s.threads[th.msg.req].task)
    && (th.role == Exiting ==> th.task in s.pcbs && s.pcbs[th.task].members == {} && th.task in s.tasks
                               && th.task in s.registered && th.task != s.init)
  }

  predicate BothExiting(a: Thread, b: Thread) {
    a.role == Exiting && b.role == Exiting && a.task == b.task
  }

  ghost predicate Membered(s: Sys) {
    && (forall p :: p in s.pcbs ==> MembersOk(s, p))
    && (forall t :: t in s.threads ==> TaskOfOk(s, t))
    && (forall t, u :: t in s.threads && u in s.threads && BothExiting(s.threads[t], s.threads[u]) ==> t == u)
    && s.registered <= s.pcbs.Keys
    && (forall p :: p in s.tasks ==> p < s.next)
    && s.init in s.tasks && s.init in s.pcbs && s.init in s.registered
  }

  // ----- task records

  /** The living children of `p` that the manager has been told about. */
  function Kids(s: Sys, p: Pid): set<Pid> {
    set c | c in s.tasks && c in s.registered && c in s.pcbs && c != s.init && s.pcbs[c].ppid == p
  }

  ghost predicate RecordOk(s: Sys, p: Pid)
    requires p in s.tasks
  {
    && (if p == s.init then Tallied(s.tasks[p]) else Settled(s.tasks[p]))
    && s.tasks[p].numAlive == |Kids(s, p)| - (if p == s.init then s.orphans else 0)
    && (forall t :: t in s.tasks[p].waiters ==>
          t in s.threads && s.threads[t].stage == Waiting && s.threads[t].task == p)
  }

  ghost predicate Accounted(s: Sys) {
    forall p :: p in s.tasks ==> RecordOk(s, p)
  }

  ghost predicate Inv(s: Sys) {
    !s.panicked && Placed(s) && Linked(s) && Membered(s) && Accounted(s)
  }
}
