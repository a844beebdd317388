/** The two-party spinlock with direct handoff, at the granularity of single loads, stores and
    exchanges. Party 0 is the manager core and party 1 the worker core sharing the queue. */
module Spinlock {

  type Party = p: nat | p < 2

  /** Where a party is in `spinlock_lock` and `spinlock_unlock`; each step below executes one memory
      access and moves to the next point. */
  datatype Pc =
    | Outside        // not using the lock
    | RaiseFlag      // about to store waiting[me] = 1
    | TestFlag       // about to load waiting[me]
    | Exchange       // about to xchg available with 0
    | LowerFlag      // left the loop, about to store waiting[me] = 0
    | Critical       // holds the lock
    | TestOther      // unlocking: about to load waiting[other]
    | HandOff        // about to store waiting[other] = 0
    | Release        // about to xchg available with 1

  /** The shared words and the two program counters. `overtaken[p]` counts how often the other party
      has entered the critical section since `p` last raised its flag. */
  datatype Lock = Lock(available: bool, waiting: seq<bool>, pc: seq<Pc>, overtaken: seq<nat>)

  predicate WellFormed(s: Lock) {
    |s.waiting| == 2 && |s.pc| == 2 && |s.overtaken| == 2
  }

  function Other(p: Party): Party {
    1 - p
  }

  /** `spinlock_init`. */
  const INIT := Lock(true, [false, false], [Outside, Outside], [0, 0])

  function Goto(s: Lock, p: Party, pc: Pc): Lock
    requires WellFormed(s)
  {
    s.(pc := s.pc[p := pc])
  }

  /** One memory access of party `p`. A party outside may start to lock, and one in the critical
      section may stay there or start to unlock. */
  function Step(s: Lock, p: Party): Lock
    requires WellFormed(s)
  {
    match s.pc[p]
    case Outside => Goto(s, p, RaiseFlag)
    case RaiseFlag => Goto(s, p, TestFlag).(waiting := s.waiting[p := true], overtaken := s.overtaken[p := 0])
    case TestFlag => Goto(s, p, if s.waiting[p] then Exchange else LowerFlag)
    case Exchange => Goto(s, p, if s.available then LowerFlag else TestFlag).(available := false)
    case LowerFlag =>
      Goto(s, p, Critical).(waiting := s.waiting[p := false],
                            overtaken := s.overtaken[Other(p) := s.overtaken[Other(p)] + 1])
    case Critical => Goto(s, p, TestOther)
    case TestOther => Goto(s, p, if s.waiting[Other(p)] then HandOff else Release)
    case HandOff => Goto(s, p, Outside).(waiting := s.waiting[Other(p) := false])
    case Release => Goto(s, p, Outside).(available := true)
  }

  // ----- the invariant

  /** The party owns the lock: it has left the spin loop and not yet given the lock away. */
  predicate Owns(pc: Pc) {
    pc in {LowerFlag, Critical, TestOther, HandOff, Release}
  }

  predicate Spinning(pc: Pc) {
    pc in {TestFlag, Exchange}
  }

  /** The other party has handed the lock over and this one has not noticed yet. */
  predicate Granted(s: Lock, p: Party)
    requires WellFormed(s)
  {
    Spinning(s.pc[p]) && !s.waiting[p]
  }

  predicate HasToken(s: Lock, p: Party)
    requires WellFormed(s)
  {
    Owns(s.pc[p]) || Granted(s, p)
  }

  /** Whether the flag is up, as far as the program counter decides it. */
  predicate FlagOk(s: Lock, p: Party)
    requires WellFormed(s)
  {
    && (s.pc[p] in {Outside, RaiseFlag, Critical, TestOther, HandOff, Release} ==> !s.waiting[p])
    && (s.pc[p] == HandOff ==> Spinning(s.pc[Other(p)]) && s.waiting[Other(p)])
  }

  /** How far the other party can have overtaken `p` while `p` spins with its flag up. A party that
      tested the flag before it was raised still has one entry to come; any later one hands over. */
  predicate OvertakenOk(s: Lock, p: Party)
    requires WellFormed(s)
  {
    Spinning(s.pc[p]) ==>
      var other := s.pc[Other(p)];
      && s.overtaken[p] <= 1
      && (s.waiting[p] && other in {Outside, RaiseFlag, TestFlag, Exchange, LowerFlag, Release} ==> s.overtaken[p] == 0)
  }

  /** The lock is in exactly one of three places: available, with party 0, or with party 1. */
  predicate OneToken(s: Lock)
    requires WellFormed(s)
  {
    && (s.available ==> !HasToken(s, 0) && !HasToken(s, 1))
    && !(HasToken(s, 0) && HasToken(s, 1))
    && (s.available || HasToken(s, 0) || HasToken(s, 1))
  }

  predicate Inv(s: Lock) {
    && WellFormed(s)
    && OneToken(s)
    && FlagOk(s, 0) && FlagOk(s, 1)
    && OvertakenOk(s, 0) && OvertakenOk(s, 1)
  }

  /** The steps of `spinlock_lock`. */
  lemma LockStepKeepsInv(s: Lock, p: Party)
    requires Inv(s) && s.pc[p] in {Outside, RaiseFlag, TestFlag, Exchange}
    ensures Inv(Step(s, p))
  {
    var q := Other(p);
    assert (p == 0 && q == 1) || (p == 1 && q == 0);
  }

  /** Entering, and the steps of `spinlock_unlock`. */
  lemma UnlockStepKeepsInv(s: Lock, p: Party)
    requires Inv(s) && s.pc[p] !in {Outside, RaiseFlag, TestFlag, Exchange}
    ensures Inv(Step(s, p))
  {
    var q := Other(p);
    assert (p == 0 && q == 1) || (p == 1 && q == 0);
  }

  lemma StepKeepsInv(s: Lock, p: Party)
    requires Inv(s)
    ensures Inv(Step(s, p))
  {
    hide OneToken, FlagOk, OvertakenOk, Step;
    if s.pc[p] in {Outside, RaiseFlag, TestFlag, Exchange} {
      LockStepKeepsInv(s, p);
    } else {
      UnlockStepKeepsInv(s, p);
    }
  }

  // ----- runs

  function Run(s: Lock, sched: seq<Party>): Lock
    requires WellFormed(s)
    decreases |sched|
  {
    if sched == [] then s else Run(Step(s, sched[0]), sched[1..])
  }

  lemma {:induction false} RunKeepsInv(s: Lock, sched: seq<Party>)
    requires Inv(s)
    ensures Inv(Run(s, sched))
    decreases |sched|
  {
    if sched != [] {
      StepKeepsInv(s, sched[0]);
      RunKeepsInv(Step(s, sched[0]), sched[1..]);
    }
  }

  /** Under every interleaving: the two parties are never both in the critical section, and the lock
      is never lost or doubled: it is available, or one party owns it or has been handed it. */
  lemma MutualExclusion(sched: seq<Party>)
    ensures var s := Run(INIT, sched);
            && WellFormed(s)
            && !(s.pc[0] == Critical && s.pc[1] == Critical)
            && OneToken(s)
  {
    RunKeepsInv(INIT, sched);
  }

  /** Bounded waiting: while a party spins, the other enters the critical section at most once after
      the flag was raised. */
  lemma BoundedWaiting(sched: seq<Party>, p: Party)
    ensures var s := Run(INIT, sched); WellFormed(s) && (Spinning(s.pc[p]) ==> s.overtaken[p] <= 1)
  {
    RunKeepsInv(INIT, sched);
  }

  /** No wake-up is needed and none is lost: from every reachable state where the other party is
      outside, a spinning party reaches the critical section by its own next three steps at most. */
  lemma AloneItEnters(sched: seq<Party>, p: Party)
    ensures var s := Run(INIT, sched);
            WellFormed(s) && (Spinning(s.pc[p]) && s.pc[Other(p)] == Outside ==>
              exists k: nat :: k <= 3 && WellFormed(Alone(s, p, k)) && Alone(s, p, k).pc[p] == Critical)
  {
    RunKeepsInv(INIT, sched);
    var s := Run(INIT, sched);
    if Spinning(s.pc[p]) && s.pc[Other(p)] == Outside {
      SoloProgress(s, p);
    }
  }

  /** `k` steps of party `p` alone. */
  function Alone(s: Lock, p: Party, k: nat): Lock
    requires WellFormed(s)
    decreases k
  {
    if k == 0 then s else Alone(Step(s, p), p, k - 1)
  }

  lemma SoloProgress(s: Lock, p: Party)
    requires Inv(s) && Spinning(s.pc[p]) && s.pc[Other(p)] == Outside
    ensures exists k: nat :: k <= 3 && WellFormed(Alone(s, p, k)) && Alone(s, p, k).pc[p] == Critical
  {
    var s1 := Step(s, p);
    var s2 := Step(s1, p);
    var s3 := Step(s2, p);
    assert Alone(s, p, 2) == s2;
    assert Alone(s, p, 3) == Alone(s1, p, 2) == s3;
    if s2.pc[p] == Critical {
      assert Alone(s, p, 2).pc[p] == Critical;
    } else {
      assert Alone(s, p, 3).pc[p] == Critical;
    }
  }

  /** Unlocking takes three steps of its own. It hands the lock to the other party exactly if that has its flag
      up when the flag is tested, and otherwise makes the lock available. */
  lemma UnlockAlone(sched: seq<Party>, p: Party)
    ensures var s := Run(INIT, sched); WellFormed(s) && (s.pc[p] == Critical ==>
      var s', q := Alone(s, p, 3), Other(p);
      && WellFormed(s') && s'.pc[p] == Outside && s'.pc[q] == s.pc[q]
      && (s.waiting[q] ==> Granted(s', q) && !s'.available)
      && (!s.waiting[q] ==> s'.available))
  {
    RunKeepsInv(INIT, sched);
    var s := Run(INIT, sched);
    if s.pc[p] == Critical {
      ReleaseSteps(s, p);
    }
  }

  lemma ReleaseSteps(s: Lock, p: Party)
    requires Inv(s) && s.pc[p] == Critical
    ensures var s', q := Alone(s, p, 3), Other(p);
      && WellFormed(s') && s'.pc[p] == Outside && s'.pc[q] == s.pc[q]
      && (s.waiting[q] ==> Granted(s', q) && !s'.available)
      && (!s.waiting[q] ==> s'.available)
  {
    var s1 := Step(s, p);
    var s2 := Step(s1, p);
    var s3 := Step(s2, p);
    assert Alone(s1, p, 2) == Alone(s2, p, 1) == s3;
  }

  /** A party outside starts to spin with its flag up by two steps of its own. */
  lemma LockStarts(sched: seq<Party>, p: Party)
    ensures var s := Run(INIT, sched); WellFormed(s) && (s.pc[p] == Outside ==>
      var s' := Alone(s, p, 2); WellFormed(s') && Spinning(s'.pc[p]) && s'.waiting[p])
  {
    RunKeepsInv(INIT, sched);
    var s := Run(INIT, sched);
    if s.pc[p] == Outside {
      var s1 := Step(s, p);
      assert Alone(s1, p, 1) == Step(s1, p);
    }
  }
}
