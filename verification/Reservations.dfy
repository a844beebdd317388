/** `reserve_frames` and `unreserve_frames` of several threads on one core, access by access, with the pages
    that hold a reservation. The counter is lowered atomically, but the value it then had is stored into it a
    second time, and in between another thread can have changed it. */
module Reservations {

  /** Where a thread is in `reserve_frames`. */
  datatype Pc =
    | Idle
    | Storing(result: int, count: nat)   // lowered the counter, about to store the result into it
    | Testing(count: nat)                // about to test whether the counter is negative
    | Restoring(count: nat)              // about to raise it again

  /** The counter, the threads, and the frames granted: to pages without a frame yet, to pages with one, and
      to pages unmapped whose reservation is about to be given back. */
  datatype State = State(left: int, pc: seq<Pc>, zfod: nat, framed: nat, leaving: nat, panicked: bool) {
    function Granted(): nat {
      zfod + framed + leaving
    }

    /** What is left, granted and under way. */
    function Accounted(): int {
      left + Granted() + Pending(pc)
    }
  }

  datatype Action =
    | Begin(t: nat, count: nat)
    | Store(t: nat)
    | Test(t: nat)
    | Restore(t: nat)
    | Fault              // a page without a frame is touched
    | Unmap              // a page without a frame is removed
    | Release            // a page with a frame is removed and the frame freed
    | Unreserve(n: nat)

  function Start(total: nat, threads: nat): State {
    State(total, seq(threads, _ => Idle), 0, 0, 0, false)
  }

  predicate Enabled(s: State, a: Action) {
    !s.panicked &&
    match a
    case Begin(t, _) => t < |s.pc| && s.pc[t] == Idle
    case Store(t) => t < |s.pc| && s.pc[t].Storing?
    case Test(t) => t < |s.pc| && s.pc[t].Testing?
    case Restore(t) => t < |s.pc| && s.pc[t].Restoring?
    case Fault => s.zfod > 0
    case Unmap => s.zfod > 0
    case Release => s.framed > 0
    case Unreserve(n) => n <= s.leaving
  }

  /** A fault finds no free frame exactly if all of them are under pages already, and then the kernel panics. */
  function Next(s: State, a: Action, total: nat): State
    requires Enabled(s, a)
  {
    match a
    case Begin(t, count) => s.(left := s.left - count, pc := s.pc[t := Storing(s.left - count, count)])
    case Store(t) => s.(left := s.pc[t].result, pc := s.pc[t := Testing(s.pc[t].count)])
    case Test(t) =>
      if s.left < 0 then s.(pc := s.pc[t := Restoring(s.pc[t].count)])
      else s.(pc := s.pc[t := Idle], zfod := s.zfod + s.pc[t].count)
    case Restore(t) => s.(left := s.left + s.pc[t].count, pc := s.pc[t := Idle])
    case Fault => if s.framed < total then s.(zfod := s.zfod - 1, framed := s.framed + 1) else s.(panicked := true)
    case Unmap => s.(zfod := s.zfod - 1, leaving := s.leaving + 1)
    case Release => s.(framed := s.framed - 1, leaving := s.leaving + 1)
    case Unreserve(n) => s.(left := s.left + n, leaving := s.leaving - n)
  }

  function Asked(pc: Pc): nat {
    match pc
    case Idle => 0
    case Storing(_, count) => count
    case Testing(count) => count
    case Restoring(count) => count
  }

  /** The frames asked for by calls still under way. */
  function Pending(pc: seq<Pc>): nat {
    if pc == [] then 0 else Asked(pc[0]) + Pending(pc[1..])
  }

  lemma {:induction false} PendingUpdate(pc: seq<Pc>, t: nat, p: Pc)
    requires t < |pc|
    ensures Pending(pc[t := p]) + Asked(pc[t]) == Pending(pc) + Asked(p)
  {
    if t == 0 {
      assert pc[t := p][1..] == pc[1..];
    } else {
      PendingUpdate(pc[1..], t - 1, p);
      assert pc[t := p][1..] == pc[1..][t - 1 := p];
    }
  }

  /** How far the access moves the counter without any frame changing hands: a thread stores a value that is
      out of date. */
  function Shift(s: State, a: Action): int
    requires Enabled(s, a)
  {
    if a.Store? then s.pc[a.t].result - s.left else 0
  }

  lemma StepAddsUp(s: State, a: Action, total: nat)
    requires Enabled(s, a)
    ensures Next(s, a, total).Accounted() == s.Accounted() + Shift(s, a)
  {
    if a.Begin? || a.Store? || a.Test? || a.Restore? {
      PendingUpdate(s.pc, a.t, Next(s, a, total).pc[a.t]);
    }
  }

  // ----- runs

  predicate IsRun(s: State, acts: seq<Action>, total: nat)
    decreases |acts|
  {
    acts == [] || (Enabled(s, acts[0]) && IsRun(Next(s, acts[0], total), acts[1..], total))
  }

  function After(s: State, acts: seq<Action>, total: nat): State
    requires IsRun(s, acts, total)
    decreases |acts|
  {
    if acts == [] then s else After(Next(s, acts[0], total), acts[1..], total)
  }

  /** After every access of the run the counter is what is left of the total. */
  predicate RightThroughout(s: State, acts: seq<Action>, total: nat)
    requires IsRun(s, acts, total)
    decreases |acts|
  {
    && s.left == total - s.Granted() - Pending(s.pc)
    && (acts != [] ==> RightThroughout(Next(s, acts[0], total), acts[1..], total))
  }

  /** No thread in the run stores a value that is not the counter's. */
  predicate NoneStale(s: State, acts: seq<Action>, total: nat)
    requires IsRun(s, acts, total)
    decreases |acts|
  {
    acts != [] ==> Shift(s, acts[0]) == 0 && NoneStale(Next(s, acts[0], total), acts[1..], total)
  }

  /** No thread in the run stores a value above the counter's. */
  predicate NoneRaises(s: State, acts: seq<Action>, total: nat)
    requires IsRun(s, acts, total)
    decreases |acts|
  {
    acts != [] ==> Shift(s, acts[0]) <= 0 && NoneRaises(Next(s, acts[0], total), acts[1..], total)
  }

  lemma {:induction false} NothingPending(n: nat)
    ensures Pending(seq(n, _ => Idle)) == 0
  {
    if n > 0 {
      NothingPending(n - 1);
      assert seq(n, _ => Idle)[1..] == seq(n - 1, _ => Idle);
    }
  }

  lemma {:induction false} RightFrom(s: State, acts: seq<Action>, total: nat)
    requires IsRun(s, acts, total) && s.Accounted() == total
    ensures RightThroughout(s, acts, total) <==> NoneStale(s, acts, total)
    decreases |acts|
  {
    if acts != [] {
      StepAddsUp(s, acts[0], total);
      if Shift(s, acts[0]) == 0 {
        RightFrom(Next(s, acts[0], total), acts[1..], total);
      }
    }
  }

  /** Over every interleaving: the counter is right after every access if and only if no thread stores a
      value that another access has made out of date. */
  lemma CounterRightIff(total: nat, threads: nat, acts: seq<Action>)
    requires IsRun(Start(total, threads), acts, total)
    ensures RightThroughout(Start(total, threads), acts, total) <==> NoneStale(Start(total, threads), acts, total)
  {
    NothingPending(threads);
    RightFrom(Start(total, threads), acts, total);
  }

  // ----- reserved frames are there

  /** No more frames are promised than there are, and the accounts do not exceed them. */
  predicate Covered(s: State, total: nat) {
    s.Granted() <= total && s.Accounted() <= total && !s.panicked
  }

  lemma StepCovered(s: State, a: Action, total: nat)
    requires Enabled(s, a) && Covered(s, total) && Shift(s, a) <= 0
    ensures Covered(Next(s, a, total), total)
  {
    StepAddsUp(s, a, total);
  }

  lemma {:induction false} RunCovered(s: State, acts: seq<Action>, total: nat)
    requires IsRun(s, acts, total) && Covered(s, total) && NoneRaises(s, acts, total)
    ensures Covered(After(s, acts, total), total)
    decreases |acts|
  {
    if acts != [] {
      StepCovered(s, acts[0], total);
      RunCovered(Next(s, acts[0], total), acts[1..], total);
    }
  }

  /** In every run in which no out-of-date store raises the counter, a fault finds its frame, also while
      refused reservations come and go. */
  lemma FramesForAll(total: nat, threads: nat, acts: seq<Action>)
    requires IsRun(Start(total, threads), acts, total) && NoneRaises(Start(total, threads), acts, total)
    ensures !After(Start(total, threads), acts, total).panicked
    ensures After(Start(total, threads), acts, total).Granted() <= total
  {
    NothingPending(threads);
    RunCovered(Start(total, threads), acts, total);
  }

  function Faults(n: nat): seq<Action> {
    seq(n, _ => Fault)
  }

  lemma {:induction false} FaultsPanic(s: State, n: nat, total: nat)
    requires n <= s.zfod && s.framed <= total && s.framed + n <= total + 1 && !s.panicked
    ensures IsRun(s, Faults(n), total)
    ensures After(s, Faults(n), total).panicked <==> s.framed + n > total
    decreases n
  {
    if n > 0 {
      assert Faults(n)[1..] == Faults(n - 1);
      if s.framed < total {
        FaultsPanic(Next(s, Fault, total), n - 1, total);
      }
    }
  }

  ghost predicate CanPanic(s: State, total: nat) {
    exists n: nat :: n <= s.zfod && IsRun(s, Faults(n), total) && After(s, Faults(n), total).panicked
  }

  /** From any state: the pages can be touched one after another until the kernel panics if and only if there
      are more of them than frames. */
  lemma CanPanicIff(s: State, total: nat)
    requires s.framed <= total && !s.panicked
    ensures CanPanic(s, total) <==> s.zfod + s.framed > total
  {
    if s.zfod + s.framed > total {
      FaultsPanic(s, total + 1 - s.framed, total);
    } else {
      forall n: nat | n <= s.zfod
        ensures IsRun(s, Faults(n), total) && !After(s, Faults(n), total).panicked
      {
        FaultsPanic(s, n, total);
      }
    }
  }

  // ----- threads that are not interrupted

  /** No other access comes between lowering the counter and storing the result. */
  predicate Undisturbed(acts: seq<Action>) {
    forall i :: 0 <= i < |acts| && acts[i].Begin? ==> i + 1 < |acts| && acts[i + 1] == Store(acts[i].t)
  }

  predicate NobodyStores(s: State) {
    forall t :: 0 <= t < |s.pc| ==> !s.pc[t].Storing?
  }

  lemma {:induction false} UndisturbedNoneStale(s: State, acts: seq<Action>, total: nat)
    requires IsRun(s, acts, total) && Undisturbed(acts) && NobodyStores(s)
    ensures NoneStale(s, acts, total)
    decreases |acts|
  {
    if acts != [] {
      var s1 := Next(s, acts[0], total);
      if acts[0].Begin? {
        assert acts[0 + 1] == Store(acts[0].t) && acts[1..][0] == acts[1];
        var s2 := Next(s1, acts[1], total);
        assert acts[1..][1..] == acts[2..];
        UndisturbedTail(acts, 2);
        UndisturbedNoneStale(s2, acts[2..], total);
      } else {
        UndisturbedTail(acts, 1);
        UndisturbedNoneStale(s1, acts[1..], total);
      }
    }
  }

  lemma UndisturbedTail(acts: seq<Action>, k: nat)
    requires Undisturbed(acts) && k <= |acts|
    ensures Undisturbed(acts[k..])
  {
    forall i | 0 <= i < |acts[k..]| && acts[k..][i].Begin?
      ensures i + 1 < |acts[k..]| && acts[k..][i + 1] == Store(acts[k..][i].t)
    {
      assert acts[k + i].Begin?;
    }
  }

  /** If no thread is interrupted between the two accesses, the counter is right throughout every run. */
  lemma CounterRightUndisturbed(total: nat, threads: nat, acts: seq<Action>)
    requires IsRun(Start(total, threads), acts, total) && Undisturbed(acts)
    ensures RightThroughout(Start(total, threads), acts, total)
  {
    CounterRightIff(total, threads, acts);
    UndisturbedNoneStale(Start(total, threads), acts, total);
  }

  // ----- runs that go wrong

  /** Two threads that each reserve one frame, the one between the two accesses of the other. */
  const BothReserve: seq<Action> := [Begin(0, 1), Begin(1, 1), Store(1), Store(0), Test(0), Test(1)]

  lemma BothSucceed(total: nat)
    requires total > 0
    ensures IsRun(Start(total, 2), BothReserve, total)
    ensures After(Start(total, 2), BothReserve, total) == State(total - 1, [Idle, Idle], 2, 0, 0, false)
  {
    var s0 := State(total, [Idle, Idle], 0, 0, 0, false);
    assert Start(total, 2) == s0 by { assert seq(2, _ => Idle) == [Idle, Idle]; }
    var s1 := Next(s0, Begin(0, 1), total);
    var s2 := Next(s1, Begin(1, 1), total);
    var s3 := Next(s2, Store(1), total);
    var s4 := Next(s3, Store(0), total);
    var s5 := Next(s4, Test(0), total);
    var s6 := Next(s5, Test(1), total);
    assert s6.pc == [Idle, Idle];
    Last(s6, total);
    Then(s5, Test(1), [], total);
    Then(s4, Test(0), [Test(1)], total);
    Then(s3, Store(0), [Test(0), Test(1)], total);
    Then(s2, Store(1), [Store(0), Test(0), Test(1)], total);
    Then(s1, Begin(1, 1), [Store(1), Store(0), Test(0), Test(1)], total);
    Then(s0, Begin(0, 1), [Begin(1, 1), Store(1), Store(0), Test(0), Test(1)], total);
    assert [Begin(0, 1)] + [Begin(1, 1), Store(1), Store(0), Test(0), Test(1)] == BothReserve;
  }

  /** Two threads each reserve one of ten frames: both succeed, and nine are left. */
  lemma UpdateCanBeLost()
    ensures IsRun(Start(10, 2), BothReserve, 10)
    ensures After(Start(10, 2), BothReserve, 10).Granted() == 2 && After(Start(10, 2), BothReserve, 10).left == 9
  {
    BothSucceed(10);
  }

  /** Two threads each reserve the only frame: both succeed, and when both touch their page the kernel
      panics. */
  lemma ReservedFrameMissing()
    ensures IsRun(Start(1, 2), BothReserve + [Fault, Fault], 1)
    ensures After(Start(1, 2), BothReserve + [Fault, Fault], 1).panicked
  {
    BothSucceed(1);
    FaultsPanic(After(Start(1, 2), BothReserve, 1), 2, 1);
    assert Faults(2) == [Fault, Fault];
    RunAppend(Start(1, 2), BothReserve, [Fault, Fault], 1);
  }

  lemma {:induction false} RunAppend(s: State, acts: seq<Action>, more: seq<Action>, total: nat)
    requires IsRun(s, acts, total) && IsRun(After(s, acts, total), more, total)
    ensures IsRun(s, acts + more, total)
    ensures After(s, acts + more, total) == After(After(s, acts, total), more, total)
    decreases |acts|
  {
    if acts == [] {
      assert acts + more == more;
    } else {
      RunAppend(Next(s, acts[0], total), acts[1..], more, total);
      assert (acts + more)[1..] == acts[1..] + more;
    }
  }

  lemma Last(s: State, total: nat)
    ensures IsRun(s, [], total) && After(s, [], total) == s
  {
  }

  lemma Then(s: State, a: Action, acts: seq<Action>, total: nat)
    requires Enabled(s, a) && IsRun(Next(s, a, total), acts, total)
    ensures IsRun(s, [a] + acts, total) && After(s, [a] + acts, total) == After(Next(s, a, total), acts, total)
  {
    assert ([a] + acts)[1..] == acts;
  }
}
