/** The queueing mutex and the block/make-runnable states of the threads that use it. Each step is
    one region under the inner spinlock or the scheduler's spinlock. */
module Mutex {
  import opened Basics

  /** `thread_state_t`, without WAKEUP, which only sleep() uses. */
  datatype ThreadState = NORMAL | BLOCKED | MADE_RUNNABLE

  /** Where a thread is in the mutex code. */
  datatype Pc =
    | Idle                // not using the mutex
    | Testing             // queued, about to test lock_holder in the loop of mutex_lock
    | AboutToBlock        // found the lock taken, about to enter OP_BLOCK
    | Parked              // blocked in OP_BLOCK, not scheduled
    | Holding             // returned from mutex_lock or mutex_try_lock
    | Waking(next: Tid)   // in mutex_unlock, about to make the new holder runnable

  /** The mutex, its threads, and what a proof needs to remember: everyone who ever queued, in order,
      and everyone who was handed the lock from the queue, in order. */
  datatype Mutex = Mutex(holder: Option<Tid>, queue: seq<Tid>, pc: map<Tid, Pc>, state: map<Tid, ThreadState>,
                         panicked: bool, queued: seq<Tid>, granted: seq<Tid>)

  datatype Action = Lock(t: Tid) | TryLock(t: Tid) | Test(t: Tid) | Block(t: Tid) | Unlock(t: Tid) | Wake(t: Tid)

  function Init(threads: set<Tid>): Mutex {
    Mutex(None, [], map t | t in threads :: Idle, map t | t in threads :: NORMAL, false, [], [])
  }

  /** Callers never lock what they hold and unlock only what they hold. */
  predicate Enabled(m: Mutex, a: Action) {
    && !m.panicked && a.t in m.pc && a.t in m.state
    && match a
       case Lock(t) => m.pc[t] == Idle
       case TryLock(t) => m.pc[t] == Idle
       case Test(t) => m.pc[t] == Testing
       case Block(t) => m.pc[t] == AboutToBlock
       case Unlock(t) => m.pc[t] == Holding
       case Wake(t) => m.pc[t].Waking? && m.pc[t].next in m.pc && m.pc[t].next in m.state
  }

  function Go(m: Mutex, t: Tid, pc: Pc): Mutex {
    m.(pc := m.pc[t := pc])
  }

  function Next(m: Mutex, a: Action): Mutex
    requires Enabled(m, a)
  {
    match a
    case Lock(t) =>
      if m.holder == None then Go(m, t, Holding).(holder := Some(t))
      else Go(m, t, Testing).(queue := m.queue + [t], queued := m.queued + [t])
    case TryLock(t) =>
      if m.holder == None then Go(m, t, Holding).(holder := Some(t)) else m
    case Test(t) => Go(m, t, if m.holder == Some(t) then Holding else AboutToBlock)
    case Block(t) =>
      if m.state[t] == MADE_RUNNABLE then Go(m, t, Testing).(state := m.state[t := NORMAL])
      else if m.state[t] == NORMAL then Go(m, t, Parked).(state := m.state[t := BLOCKED])
      else m.(panicked := true)
    case Unlock(t) =>
      if m.holder == None then m.(panicked := true)
      else if m.queue == [] then Go(m, t, Idle).(holder := None)
      else Go(m, t, Waking(m.queue[0]))
           .(holder := Some(m.queue[0]), queue := m.queue[1..], granted := m.granted + [m.queue[0]])
    case Wake(t) =>
      var n := m.pc[t].next;
      var m1 := Go(m, t, Idle);
      if m.state[n] == BLOCKED then Go(m1, n, Testing).(state := m.state[n := NORMAL])
      else if m.state[n] == NORMAL then m1.(state := m.state[n := MADE_RUNNABLE])
      else m.(panicked := true)
  }

  // ----- the invariant

  predicate Queued(pc: Pc) {
    pc in {Testing, AboutToBlock, Parked}
  }

  /** Some thread is about to make `h` runnable. */
  ghost predicate WakePending(m: Mutex, h: Tid) {
    exists t :: t in m.pc && m.pc[t] == Waking(h)
  }

  ghost predicate ThreadOk(m: Mutex, t: Tid)
    requires t in m.pc && t in m.state
  {
    && (m.pc[t] == Holding ==> m.holder == Some(t))
    && (m.holder == Some(t) ==> m.pc[t] == Holding || Queued(m.pc[t]))
    && (t in m.queue <==> Queued(m.pc[t]) && m.holder != Some(t))
    && (m.state[t] == BLOCKED <==> m.pc[t] == Parked)
    && (m.pc[t].Waking? ==> m.pc[t].next in m.pc && m.pc[t].next != t)
  }

  /** A thread that was granted the lock and is blocked, or is about to block, will be woken: the
      wake-up is still to come or has left its mark. */
  ghost predicate WillWake(m: Mutex, t: Tid)
    requires t in m.pc && t in m.state
  {
    m.holder == Some(t) ==>
      && (m.pc[t] == Parked ==> WakePending(m, t))
      && (m.pc[t] == AboutToBlock ==> m.state[t] == MADE_RUNNABLE || WakePending(m, t))
  }

  predicate NoDuplicates(q: seq<Tid>) {
    forall i, j :: 0 <= i < j < |q| ==> q[i] != q[j]
  }

  ghost predicate Inv(m: Mutex) {
    && m.pc.Keys == m.state.Keys
    && (forall t :: t in m.pc ==> ThreadOk(m, t) && WillWake(m, t))
    && (m.holder == None ==> m.queue == [])
    && (m.holder.Some? ==> m.holder.value in m.pc)
    && (forall t :: t in m.queue ==> t in m.pc)
    && NoDuplicates(m.queue)
    && m.queued == m.granted + m.queue
  }

  lemma LockKeepsInv(m: Mutex, t: Tid)
    requires Inv(m) && Enabled(m, Lock(t))
    ensures Inv(Next(m, Lock(t)))
  {
    var m' := Next(m, Lock(t));
    assert ThreadOk(m, t);
    forall u | u in m'.pc ensures ThreadOk(m', u) && WillWake(m', u) {
      assert ThreadOk(m, u) && WillWake(m, u);
      StillPending(m, m', u, t);
    }
    assert m.holder.Some? ==> m'.queued == m.granted + (m.queue + [t]);
  }

  lemma TryLockKeepsInv(m: Mutex, t: Tid)
    requires Inv(m) && Enabled(m, TryLock(t))
    ensures Inv(Next(m, TryLock(t)))
  {
    if m.holder == None {
      LockKeepsInv(m, t);
    }
  }

  /** A pending wake-up survives any step of a thread that is not the one waking. */
  lemma StillPending(m: Mutex, m': Mutex, h: Tid, t: Tid)
    requires t in m.pc && !m.pc[t].Waking?
    requires forall u :: u in m.pc && u != t ==> u in m'.pc && m'.pc[u] == m.pc[u]
    ensures WakePending(m, h) ==> WakePending(m', h)
  {
  }

  lemma TestKeepsInv(m: Mutex, t: Tid)
    requires Inv(m) && Enabled(m, Test(t))
    ensures Inv(Next(m, Test(t)))
  {
    var m' := Next(m, Test(t));
    forall u | u in m'.pc ensures ThreadOk(m', u) && WillWake(m', u) {
      assert ThreadOk(m, u) && WillWake(m, u);
      StillPending(m, m', u, t);
    }
  }

  /** OP_BLOCK never meets a state it panics on. */
  lemma BlockKeepsInv(m: Mutex, t: Tid)
    requires Inv(m) && Enabled(m, Block(t))
    ensures Inv(Next(m, Block(t))) && !Next(m, Block(t)).panicked
  {
    var m' := Next(m, Block(t));
    assert ThreadOk(m, t) && WillWake(m, t);
    forall u | u in m'.pc ensures ThreadOk(m', u) && WillWake(m', u) {
      assert ThreadOk(m, u) && WillWake(m, u);
      StillPending(m, m', u, t);
    }
  }

  /** Unlocking never finds the mutex unlocked, and a new holder always gets a wake-up. */
  lemma UnlockKeepsInv(m: Mutex, t: Tid)
    requires Inv(m) && Enabled(m, Unlock(t))
    ensures Inv(Next(m, Unlock(t))) && !Next(m, Unlock(t)).panicked
  {
    var m' := Next(m, Unlock(t));
    assert ThreadOk(m, t);
    if m.queue != [] {
      assert m.queue == [m.queue[0]] + m.queue[1..];
      assert m.queue[0] !in m.queue[1..];
      assert m'.pc[t] == Waking(m.queue[0]);
      assert m.granted + m.queue == (m.granted + [m.queue[0]]) + m.queue[1..];
    }
    forall u | u in m'.pc ensures ThreadOk(m', u) && WillWake(m', u) {
      assert ThreadOk(m, u) && WillWake(m, u);
      StillPending(m, m', u, t);
    }
  }

  lemma WakeKeepsInv(m: Mutex, t: Tid)
    requires Inv(m) && Enabled(m, Wake(t)) && !Next(m, Wake(t)).panicked
    ensures Inv(Next(m, Wake(t)))
  {
    var m' := Next(m, Wake(t));
    var n := m.pc[t].next;
    assert ThreadOk(m, t) && ThreadOk(m, n);
    forall u | u in m'.pc ensures ThreadOk(m', u) && WillWake(m', u) {
      WakeOne(m, t, u);
    }
  }

  lemma WakeOne(m: Mutex, t: Tid, u: Tid)
    requires Inv(m) && Enabled(m, Wake(t)) && !Next(m, Wake(t)).panicked && u in m.pc
    ensures u in Next(m, Wake(t)).pc && ThreadOk(Next(m, Wake(t)), u) && WillWake(Next(m, Wake(t)), u)
  {
    var m' := Next(m, Wake(t));
    var n := m.pc[t].next;
    assert ThreadOk(m, t) && ThreadOk(m, n);
    assert ThreadOk(m, u) && WillWake(m, u);
    if u != n {
      OthersPending(m, m', t, u);
    }
  }

  lemma OthersPending(m: Mutex, m': Mutex, t: Tid, u: Tid)
    requires t in m.pc && m.pc[t].Waking? && u != m.pc[t].next && m'.pc.Keys == m.pc.Keys
    requires forall w :: w in m.pc && m.pc[w].Waking? && w != t ==> m'.pc[w] == m.pc[w]
    ensures WakePending(m, u) ==> WakePending(m', u)
  {
  }

  lemma StepKeepsInv(m: Mutex, a: Action)
    requires Inv(m) && Enabled(m, a) && !Next(m, a).panicked
    ensures Inv(Next(m, a))
  {
    match a
    case Lock(t) => LockKeepsInv(m, t);
    case TryLock(t) => TryLockKeepsInv(m, t);
    case Test(t) => TestKeepsInv(m, t);
    case Block(t) => BlockKeepsInv(m, t);
    case Unlock(t) => UnlockKeepsInv(m, t);
    case Wake(t) => WakeKeepsInv(m, t);
  }

  /** The only panic a disciplined caller can meet is OP_MAKE_RUNNABLE finding the mark of an earlier
      wake-up that its thread has not used up: it happens exactly then. */
  lemma PanicIff(m: Mutex, a: Action)
    requires Inv(m) && Enabled(m, a)
    ensures Next(m, a).panicked <==> a.Wake? && m.state[m.pc[a.t].next] == MADE_RUNNABLE
  {
    match a
    case Lock(t) =>
    case TryLock(t) =>
    case Test(t) =>
    case Block(t) => BlockKeepsInv(m, t);
    case Unlock(t) => UnlockKeepsInv(m, t);
    case Wake(t) =>
  }

  // ----- what each call gets

  /** No thread has the mutex and none waits for it. */
  ghost predicate NobodyIn(m: Mutex) {
    forall u :: u in m.pc ==> m.pc[u] != Holding && !Queued(m.pc[u])
  }

  lemma FreeIffNobodyIn(m: Mutex)
    requires Inv(m)
    ensures m.holder == None <==> NobodyIn(m)
  {
    forall u | u in m.pc
      ensures ThreadOk(m, u)
    {
    }
  }

  /** mutex_try_lock() takes the mutex if and only if nobody has it or waits for it, and otherwise changes
      nothing. */
  lemma TryLockTakesIff(m: Mutex, t: Tid)
    requires Inv(m) && Enabled(m, TryLock(t))
    ensures var m' := Next(m, TryLock(t));
      && (m'.pc[t] == Holding <==> NobodyIn(m))
      && (NobodyIn(m) ==> m' == m.(holder := Some(t), pc := m.pc[t := Holding]))
      && (!NobodyIn(m) ==> m' == m)
  {
    FreeIffNobodyIn(m);
  }

  /** mutex_lock() takes it at once in exactly the same case, and otherwise its caller is last in the queue. */
  lemma LockTakesIff(m: Mutex, t: Tid)
    requires Inv(m) && Enabled(m, Lock(t))
    ensures var m' := Next(m, Lock(t));
      && (m'.pc[t] == Holding <==> NobodyIn(m))
      && (NobodyIn(m) ==> m'.holder == Some(t) && m'.queue == m.queue)
      && (!NobodyIn(m) ==> m'.holder == m.holder && m'.queue == m.queue + [t] && Queued(m'.pc[t]))
      && (forall u :: u in m.pc && u != t ==> m'.pc[u] == m.pc[u])
  {
    FreeIffNobodyIn(m);
  }

  /** mutex_unlock() leaves the mutex to nobody if none waits for it, and otherwise to the first in the queue,
      whom it is then about to wake. */
  lemma UnlockPassesOn(m: Mutex, t: Tid)
    requires Inv(m) && Enabled(m, Unlock(t))
    ensures var m' := Next(m, Unlock(t));
      && (m.queue == [] ==> NobodyIn(m') && m'.pc[t] == Idle)
      && (m.queue != [] ==> m.queue == [m.queue[0]] + m'.queue && m'.holder == Some(m.queue[0])
                            && m'.pc[t] == Waking(m.queue[0]))
  {
    UnlockKeepsInv(m, t);
    FreeIffNobodyIn(Next(m, Unlock(t)));
  }

  /** How many steps a queued thread can take before it is parked. */
  function Spins(m: Mutex, t: Tid): nat
    requires t in m.pc && t in m.state
  {
    (if m.pc[t] == Testing then 2 else if m.pc[t] == AboutToBlock then 1 else 0)
    + (if m.state[t] == MADE_RUNNABLE && m.pc[t] != Parked then 2 else 0)
  }

  /** Waiting is not busy: a thread that waits and is not granted the mutex takes at most four steps, two if
      no mark of an earlier wake-up is left, and is parked then. Only a wake-up meant for it brings it
      more. */
  lemma WaitsParked(m: Mutex, a: Action, t: Tid)
    requires Inv(m) && Enabled(m, a) && t in m.queue && !Next(m, a).panicked
    ensures t in m.pc && t in m.state && Spins(m, t) <= 4 && (Spins(m, t) == 0 <==> m.pc[t] == Parked)
    ensures var m' := Next(m, a);
      && t in m'.pc && t in m'.state
      && (a.t == t ==> Spins(m', t) < Spins(m, t))
      && (a.t != t && !(a.Wake? && m.pc[a.t].next == t) ==> Spins(m', t) == Spins(m, t))
  {
    assert ThreadOk(m, t);
  }

  // ----- runs

  ghost predicate IsRun(m: Mutex, acts: seq<Action>)
    decreases |acts|
  {
    acts == [] || (Enabled(m, acts[0]) && IsRun(Next(m, acts[0]), acts[1..]))
  }

  ghost function After(m: Mutex, acts: seq<Action>): Mutex
    requires IsRun(m, acts)
    decreases |acts|
  {
    if acts == [] then m else After(Next(m, acts[0]), acts[1..])
  }

  lemma {:induction false} RunKeepsInv(m: Mutex, acts: seq<Action>)
    requires Inv(m) && IsRun(m, acts) && !After(m, acts).panicked
    ensures Inv(After(m, acts))
    decreases |acts|
  {
    if acts != [] {
      var m' := Next(m, acts[0]);
      if m'.panicked {
        PanicStays(m', acts[1..]);
      }
      StepKeepsInv(m, acts[0]);
      RunKeepsInv(m', acts[1..]);
    }
  }

  /** After a panic nothing happens any more. */
  lemma PanicStays(m: Mutex, acts: seq<Action>)
    requires IsRun(m, acts) && m.panicked
    ensures After(m, acts).panicked
  {
  }

  lemma InitInv(threads: set<Tid>)
    ensures Inv(Init(threads))
  {
  }

  /** In every run that has not panicked: at most one thread holds the mutex, it is free only when
      nobody is queued, waiters are granted the lock in the order they queued, and a thread that was
      granted the lock while blocked has a wake-up on its way. */
  lemma MutexInEveryRun(threads: set<Tid>, acts: seq<Action>)
    requires IsRun(Init(threads), acts) && !After(Init(threads), acts).panicked
    ensures var m := After(Init(threads), acts);
            && (forall t, u :: t in m.pc && u in m.pc && m.pc[t] == Holding && m.pc[u] == Holding ==> t == u)
            && (m.holder == None ==> m.queue == [])
            && m.queued == m.granted + m.queue
            && (forall t :: t in m.pc && m.holder == Some(t) && m.pc[t] == Parked ==> WakePending(m, t))
  {
    InitInv(threads);
    RunKeepsInv(Init(threads), acts);
    var m := After(Init(threads), acts);
    forall t, u | t in m.pc && u in m.pc && m.pc[t] == Holding && m.pc[u] == Holding ensures t == u {
      assert ThreadOk(m, t) && ThreadOk(m, u);
    }
    forall t | t in m.pc && m.holder == Some(t) && m.pc[t] == Parked ensures WakePending(m, t) {
      assert WillWake(m, t);
    }
  }

  /** A granted thread always gets the lock within three more steps of its own and of its waker. */
  lemma GrantedCanProceed(m: Mutex, h: Tid)
    requires Inv(m) && !m.panicked && m.holder == Some(h)
    ensures exists acts: seq<Action> ::
      |acts| <= 3 && IsRun(m, acts) && h in After(m, acts).pc && After(m, acts).pc[h] == Holding
  {
    assert ThreadOk(m, h) && WillWake(m, h);
    match m.pc[h]
    case Holding => Reaches(m, [], h);
    case Testing => TestEnters(m, h);
    case AboutToBlock =>
      if m.state[h] == MADE_RUNNABLE {
        MarkedEnters(m, h);
      } else {
        var t :| t in m.pc && m.pc[t] == Waking(h);
        assert ThreadOk(m, t);
        var m1 := Next(m, Wake(t));
        MarkedEnters(m1, h);
        var acts :| |acts| <= 2 && IsRun(m1, acts) && h in After(m1, acts).pc && After(m1, acts).pc[h] == Holding;
        Prepend(m, Wake(t), acts, h);
      }
    case Parked =>
      var t :| t in m.pc && m.pc[t] == Waking(h);
      assert ThreadOk(m, t);
      var m1 := Next(m, Wake(t));
      TestEnters(m1, h);
      var acts :| |acts| <= 1 && IsRun(m1, acts) && h in After(m1, acts).pc && After(m1, acts).pc[h] == Holding;
      Prepend(m, Wake(t), acts, h);
  }

  lemma Reaches(m: Mutex, acts: seq<Action>, h: Tid)
    requires IsRun(m, acts) && h in After(m, acts).pc && After(m, acts).pc[h] == Holding
    ensures exists r: seq<Action> :: |r| <= |acts| && IsRun(m, r) && h in After(m, r).pc && After(m, r).pc[h] == Holding
  {
  }

  lemma Prepend(m: Mutex, a: Action, acts: seq<Action>, h: Tid)
    requires Enabled(m, a) && IsRun(Next(m, a), acts)
    requires h in After(Next(m, a), acts).pc && After(Next(m, a), acts).pc[h] == Holding
    ensures exists r: seq<Action> ::
      |r| <= |acts| + 1 && IsRun(m, r) && h in After(m, r).pc && After(m, r).pc[h] == Holding
  {
    var r := [a] + acts;
    assert r[1..] == acts;
    assert IsRun(m, r) && After(m, r) == After(Next(m, a), acts);
  }

  lemma TestEnters(m: Mutex, h: Tid)
    requires h in m.pc && h in m.state && !m.panicked && m.holder == Some(h) && m.pc[h] == Testing
    ensures exists r: seq<Action> :: |r| <= 1 && IsRun(m, r) && h in After(m, r).pc && After(m, r).pc[h] == Holding
  {
    assert IsRun(Next(m, Test(h)), []);
    Prepend(m, Test(h), [], h);
  }

  lemma MarkedEnters(m: Mutex, h: Tid)
    requires h in m.pc && h in m.state && !m.panicked && m.holder == Some(h) && m.pc[h] == AboutToBlock
    requires m.state[h] == MADE_RUNNABLE
    ensures exists r: seq<Action> :: |r| <= 2 && IsRun(m, r) && h in After(m, r).pc && After(m, r).pc[h] == Holding
  {
    var m1 := Next(m, Block(h));
    TestEnters(m1, h);
    var acts :| |acts| <= 1 && IsRun(m1, acts) && h in After(m1, acts).pc && After(m1, acts).pc[h] == Holding;
    Prepend(m, Block(h), acts, h);
  }

  /** Two threads, as the run below meets them. */
  function Two(holder: Option<Tid>, queue: seq<Tid>, pc0: Pc, pc1: Pc, state1: ThreadState, queued: seq<Tid>,
               granted: seq<Tid>): Mutex {
    Mutex(holder, queue, map[0 := pc0, 1 := pc1], map[0 := NORMAL, 1 := state1], false, queued, granted)
  }

  /** The panic is real: thread 1 gets the lock without blocking, so the wake-up meant for it leaves a
      mark; when it queues again and is granted the lock a second time, the next wake-up panics. */
  lemma StrangeStateIsReachable()
    ensures exists acts: seq<Action> :: IsRun(Init({0, 1}), acts) && After(Init({0, 1}), acts).panicked
  {
    hide IsRun, After, Next, Enabled;
    SecondGrantPanics();
    FirstGrantMarks();
    var m5 := Two(Some(1), [], Idle, Holding, MADE_RUNNABLE, [1], [1]);
    var rest :| IsRun(m5, rest) && After(m5, rest).panicked;
    Then(Two(Some(1), [], Waking(1), Holding, NORMAL, [1], [1]), Wake(0), rest);
    ReturnedBeforeWake([Wake(0)] + rest);
  }

  /** Thread 0 hands the lock to thread 1, which returns from `mutex_lock` before it is woken. */
  lemma ReturnedBeforeWake(rest: seq<Action>)
    requires IsRun(Two(Some(1), [], Waking(1), Holding, NORMAL, [1], [1]), rest)
    ensures exists acts: seq<Action> ::
      && IsRun(Init({0, 1}), acts)
      && After(Init({0, 1}), acts) == After(Two(Some(1), [], Waking(1), Holding, NORMAL, [1], [1]), rest)
  {
    hide IsRun, After, Next, Enabled, Two, Init;
    FirstGrantMarks();
    Then(Two(Some(1), [], Waking(1), Testing, NORMAL, [1], [1]), Test(1), rest);
    Then(Two(Some(0), [1], Holding, Testing, NORMAL, [1], []), Unlock(0), [Test(1)] + rest);
    Then(Two(Some(0), [], Holding, Idle, NORMAL, [], []), Lock(1), [Unlock(0)] + ([Test(1)] + rest));
    Then(Init({0, 1}), Lock(0), [Lock(1)] + ([Unlock(0)] + ([Test(1)] + rest)));
  }

  /** The unlocking thread finds the thread to wake through a queue node on that thread's stack, in the frame
      of `mutex_lock`. It can do so when the frame is gone: thread 1 has the lock and has returned, and
      thread 0 has yet to read the node. */
  lemma NodeCanBeGone()
    ensures exists acts: seq<Action> :: IsRun(Init({0, 1}), acts) && var m := After(Init({0, 1}), acts);
      Enabled(m, Wake(0)) && m.pc[0] == Waking(1) && 1 in m.pc && m.pc[1] == Holding
  {
    hide IsRun, After;
    Stay(Two(Some(1), [], Waking(1), Holding, NORMAL, [1], [1]));
    ReturnedBeforeWake([]);
  }

  lemma Stay(m: Mutex)
    ensures IsRun(m, []) && After(m, []) == m
  {
  }

  lemma FirstGrantMarks()
    ensures var m0 := Init({0, 1});
            Enabled(m0, Lock(0)) && Next(m0, Lock(0)) == Two(Some(0), [], Holding, Idle, NORMAL, [], [])
    ensures var m1 := Two(Some(0), [], Holding, Idle, NORMAL, [], []);
            Enabled(m1, Lock(1)) && Next(m1, Lock(1)) == Two(Some(0), [1], Holding, Testing, NORMAL, [1], [])
    ensures var m2 := Two(Some(0), [1], Holding, Testing, NORMAL, [1], []);
            Enabled(m2, Unlock(0)) && Next(m2, Unlock(0)) == Two(Some(1), [], Waking(1), Testing, NORMAL, [1], [1])
    ensures var m3 := Two(Some(1), [], Waking(1), Testing, NORMAL, [1], [1]);
            Enabled(m3, Test(1)) && Next(m3, Test(1)) == Two(Some(1), [], Waking(1), Holding, NORMAL, [1], [1])
    ensures var m4 := Two(Some(1), [], Waking(1), Holding, NORMAL, [1], [1]);
            Enabled(m4, Wake(0)) && Next(m4, Wake(0)) == Two(Some(1), [], Idle, Holding, MADE_RUNNABLE, [1], [1])
  {
  }

  lemma SecondGrantPanics()
    ensures var m := Two(Some(1), [], Idle, Holding, MADE_RUNNABLE, [1], [1]);
            exists acts: seq<Action> :: IsRun(m, acts) && After(m, acts).panicked
  {
    hide IsRun, After;
    var m5 := Two(Some(1), [], Idle, Holding, MADE_RUNNABLE, [1], [1]);
    var m6 := Two(None, [], Idle, Idle, MADE_RUNNABLE, [1], [1]);
    var m7 := Two(Some(0), [], Holding, Idle, MADE_RUNNABLE, [1], [1]);
    var m8 := Two(Some(0), [1], Holding, Testing, MADE_RUNNABLE, [1, 1], [1]);
    var m9 := Two(Some(1), [], Waking(1), Testing, MADE_RUNNABLE, [1, 1], [1, 1]);
    SecondGrantSteps();
    Stay(Next(m9, Wake(0)));
    Then(m9, Wake(0), []);
    Then(m8, Unlock(0), [Wake(0)] + []);
    Then(m7, Lock(1), [Unlock(0)] + ([Wake(0)] + []));
    Then(m6, Lock(0), [Lock(1)] + ([Unlock(0)] + ([Wake(0)] + [])));
    Then(m5, Unlock(1), [Lock(0)] + ([Lock(1)] + ([Unlock(0)] + ([Wake(0)] + []))));
  }

  lemma SecondGrantSteps()
    ensures var m5 := Two(Some(1), [], Idle, Holding, MADE_RUNNABLE, [1], [1]);
            Enabled(m5, Unlock(1)) && Next(m5, Unlock(1)) == Two(None, [], Idle, Idle, MADE_RUNNABLE, [1], [1])
    ensures var m6 := Two(None, [], Idle, Idle, MADE_RUNNABLE, [1], [1]);
            Enabled(m6, Lock(0)) && Next(m6, Lock(0)) == Two(Some(0), [], Holding, Idle, MADE_RUNNABLE, [1], [1])
    ensures var m7 := Two(Some(0), [], Holding, Idle, MADE_RUNNABLE, [1], [1]);
            Enabled(m7, Lock(1)) && Next(m7, Lock(1)) == Two(Some(0), [1], Holding, Testing, MADE_RUNNABLE, [1, 1], [1])
    ensures var m8 := Two(Some(0), [1], Holding, Testing, MADE_RUNNABLE, [1, 1], [1]);
            Enabled(m8, Unlock(0))
            && Next(m8, Unlock(0)) == Two(Some(1), [], Waking(1), Testing, MADE_RUNNABLE, [1, 1], [1, 1])
    ensures var m9 := Two(Some(1), [], Waking(1), Testing, MADE_RUNNABLE, [1, 1], [1, 1]);
            Enabled(m9, Wake(0)) && Next(m9, Wake(0)).panicked
  {
  }

  lemma Then(m: Mutex, a: Action, acts: seq<Action>)
    requires Enabled(m, a) && IsRun(Next(m, a), acts)
    ensures IsRun(m, [a] + acts) && After(m, [a] + acts) == After(Next(m, a), acts)
  {
    assert ([a] + acts)[1..] == acts;
  }
}
