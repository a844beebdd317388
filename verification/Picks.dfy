/** A thread that has picked another stays on its core until it has switched to it, although interrupts can
    switch it away in between. */
module Picks {
  import opened Basics
  import opened Lifecycle
  import opened Protocol
  import opened Placement
  import opened KernelInvariant
  import opened WorkerSteps
  import opened ManagerSteps
  import opened VanishSteps
  import opened KernelRuns
  import opened Queues

  /** `h` runs on core `c`, is runnable there, or has been picked there. */
  ghost predicate Resides(s: Sys, h: Tid, c: nat) {
    || (c < |s.cores| && (s.cores[c].running == Some(h) || h in s.cores[c].runq))
    || exists i :: 0 <= i < |s.picked| && s.picked[i].tid == h && s.picked[i].core == c
  }

  /** Whoever has picked a thread is still on the core where it did so. */
  ghost predicate HoldersHome(s: Sys) {
    forall i :: 0 <= i < |s.picked| && s.picked[i].holder.Some? ==>
      Resides(s, s.picked[i].holder.value, s.picked[i].core)
  }

  lemma {:induction false} NoPickOf(ps: seq<Pick>, who: Option<Tid>, c: nat, i: nat)
    requires LatestPick(ps, who, c) < 0 && i < |ps|
    ensures !PickedBy(ps[i], who, c)
  {
    if i < |ps| - 1 {
      NoPickOf(ps[..|ps| - 1], who, c, i);
    }
  }

  /** A thread that runs on `c` and resides on `d` runs on `d`. */
  lemma RunsWhereItResides(s: Sys, c: nat, d: nat, h: Tid)
    requires Placed(s) && c < |s.cores| && s.cores[c].running == Some(h) && Resides(s, h, d)
    ensures c == d
  {
    hide Placed;
    RunningFacts(s, c);
    forall i | 0 <= i < |s.picked|
      ensures s.picked[i].tid != h
    {
      PickedFacts(s, i);
    }
    if c != d {
      NeverOnTwoCores(s, c, d, h);
    }
  }

  /** The pick that a switch completes was made on the same core. */
  lemma SwitchedWherePicked(s: Sys, c: nat)
    requires Placed(s) && HoldersHome(s) && Switching(s, c)
    ensures s.picked[LatestPick(s.picked, s.cores[c].running, c)].core == c
  {
    hide Placed, LatestPick, Resides;
    var p := s.picked[LatestPick(s.picked, s.cores[c].running, c)];
    if p.holder.Some? {
      RunsWhereItResides(s, c, p.core, p.holder.value);
    }
  }

  lemma PickedOnce(s: Sys, i: nat, j: nat)
    requires Placed(s) && i < |s.picked| && j < |s.picked| && s.picked[i].tid == s.picked[j].tid
    ensures i == j
  {
    var x := s.picked[i].tid;
    PlacedHere(s, x);
    if i != j {
      PickedTwice(s.picked, i, j);
    }
  }

  lemma PickedTwice(ps: seq<Pick>, i: nat, j: nat)
    requires i < |ps| && j < |ps| && i != j && ps[i].tid == ps[j].tid
    ensures PickCount(ps, ps[i].tid) >= 2
  {
    var x := ps[i].tid;
    PickCountRemove(ps, i, x);
    var rest := ps[..i] + ps[i + 1..];
    PickCountRemove(rest, if j < i then j else j - 1, x);
  }

  // ----- one step

  /** The thread that leaves core `c` is no holder, and every other thread stays. */
  lemma LeavingHome(s: Sys, s': Sys, c: nat)
    requires HoldersHome(s) && c < |s.cores| && s.cores[c].running.Some? && !Switching(s, c)
    requires s'.picked == s.picked && |s'.cores| == |s.cores|
    requires forall d :: 0 <= d < |s.cores| && d != c ==> s'.cores[d] == s.cores[d]
    requires var k := SwitchAway(s.cores[c]); s'.cores[c].running == k.running && s'.cores[c].runq == k.runq
    ensures HoldersHome(s')
  {
    hide LatestPick;
    forall i | 0 <= i < |s.picked| && s.picked[i].holder.Some?
      ensures Resides(s', s.picked[i].holder.value, s.picked[i].core)
    {
      NoPickOf(s.picked, s.cores[c].running, c, i);
      assert Resides(s, s.picked[i].holder.value, s.picked[i].core);
    }
  }

  lemma JoiningHome(s: Sys, s': Sys, c: nat)
    requires HoldersHome(s) && c < |s.cores| && s'.picked == s.picked && |s'.cores| == |s.cores|
    requires forall d :: 0 <= d < |s.cores| && d != c ==> s'.cores[d] == s.cores[d]
    requires forall h :: s.cores[c].running == Some(h) || h in s.cores[c].runq ==>
      s'.cores[c].running == Some(h) || h in s'.cores[c].runq
    ensures HoldersHome(s')
  {
    forall i | 0 <= i < |s.picked| && s.picked[i].holder.Some?
      ensures Resides(s', s.picked[i].holder.value, s.picked[i].core)
    {
      assert Resides(s, s.picked[i].holder.value, s.picked[i].core);
    }
  }

  /** `x` is picked on core `c`, whose run queue may have held it. */
  lemma PickHome(s: Sys, s': Sys, c: nat, x: Tid)
    requires HoldersHome(s) && c < |s.cores| && |s'.cores| == |s.cores|
    requires s'.picked == s.picked + [Pick(s.cores[c].running, c, x)]
    requires forall d :: 0 <= d < |s.cores| && d != c ==> s'.cores[d] == s.cores[d]
    requires s'.cores[c].running == s.cores[c].running
    requires forall h :: h in s.cores[c].runq ==> h == x || h in s'.cores[c].runq
    ensures HoldersHome(s')
  {
    forall i | 0 <= i < |s'.picked| && s'.picked[i].holder.Some?
      ensures Resides(s', s'.picked[i].holder.value, s'.picked[i].core)
    {
      if i < |s.picked| {
        PickKeeps(s, s', c, x, s.picked[i].holder.value, s.picked[i].core);
      }
    }
  }

  lemma PickKeeps(s: Sys, s': Sys, c: nat, x: Tid, h: Tid, d: nat)
    requires Resides(s, h, d) && c < |s.cores| && |s'.cores| == |s.cores|
    requires s'.picked == s.picked + [Pick(s.cores[c].running, c, x)]
    requires forall d :: 0 <= d < |s.cores| && d != c ==> s'.cores[d] == s.cores[d]
    requires s'.cores[c].running == s.cores[c].running
    requires forall h :: h in s.cores[c].runq ==> h == x || h in s'.cores[c].runq
    ensures Resides(s', h, d)
  {
    if i :| 0 <= i < |s.picked| && s.picked[i].tid == h && s.picked[i].core == d {
      assert s'.picked[i] == s.picked[i];
    } else if d == c && h == x {
      assert s'.picked[|s.picked|].tid == h && s'.picked[|s.picked|].core == c;
    }
  }

  lemma SwitchHome(s: Sys, c: nat)
    requires Placed(s) && HoldersHome(s) && Switching(s, c)
    ensures HoldersHome(SwitchTo(s, c))
  {
    hide Placed, LatestPick, Resides;
    var i, s' := LatestPick(s.picked, s.cores[c].running, c), SwitchTo(s, c);
    PickedFacts(s, i);
    SwitchedWherePicked(s, c);
    forall j | 0 <= j < |s'.picked| && s'.picked[j].holder.Some?
      ensures Resides(s', s'.picked[j].holder.value, s'.picked[j].core)
    {
      var q := s.picked[if j < i then j else j + 1];
      assert q == s'.picked[j];
      SwitchKeeps(s, c, q.holder.value, q.core);
    }
  }

  lemma SwitchKeeps(s: Sys, c: nat, h: Tid, d: nat)
    requires Placed(s) && Switching(s, c) && Resides(s, h, d)
    requires s.picked[LatestPick(s.picked, s.cores[c].running, c)].core == c
    ensures Resides(SwitchTo(s, c), h, d)
  {
    hide Placed, LatestPick;
    var i, s' := LatestPick(s.picked, s.cores[c].running, c), SwitchTo(s, c);
    PickedFacts(s, i);
    if j :| 0 <= j < |s.picked| && s.picked[j].tid == h && s.picked[j].core == d {
      if j != i {
        assert s'.picked[if j < i then j else j - 1] == s.picked[j];
      }
    } else if d == c && s.cores[c].running == Some(h) {
      assert h in Current(s.cores[c]);
    }
  }

  lemma OthersSame(s: Sys, a: Action, c: nat)
    requires Inv(s) && Enabled(s, a) && !a.DoHandle? && !a.DoTransmit? && a.c == c < |s.cores|
    ensures var s' := Next(s, a);
      |s'.cores| == |s.cores| && forall d :: 0 <= d < |s.cores| && d != c ==> s'.cores[d] == s.cores[d]
  {
    hide Inv, Next, Enabled;
    assert c >= 0;
    SameElsewhereLength(s, a, c);
    forall d | 0 <= d < |s.cores| && d != c
      ensures |Next(s, a).cores| == |s.cores| && Next(s, a).cores[d] == s.cores[d]
    {
      SameElsewhere(s, a, d);
    }
  }

  lemma SameElsewhereLength(s: Sys, a: Action, c: nat)
    requires Inv(s) && Enabled(s, a) && !a.DoHandle? && !a.DoTransmit? && c < |s.cores|
    ensures |Next(s, a).cores| == |s.cores|
  {
    hide Placed, Linked, Membered, Accounted, LatestPick, SwitchAway, IndexOf, Current, PickNext;
    if a.DoPick? {
      PickLength(s, a.c);
    }
  }

  lemma PickLength(s: Sys, c: nat)
    requires c < |s.cores|
    ensures |PickNext(s, c).cores| == |s.cores|
  {
    hide Resumes;
  }

  lemma SendHome(s: Sys, a: Action, c: nat)
    requires Inv(s) && Enabled(s, a) && HoldersHome(s) && c < |s.cores| && SendsFrom(s, a, c)
    ensures HoldersHome(Next(s, a))
  {
    hide Placed, Linked, Membered, Accounted, LatestPick, HoldersHome;
    OthersSame(s, a, c);
    LeavingHome(s, Next(s, a), c);
  }

  lemma QueueHome(s: Sys, a: Action, c: nat)
    requires Inv(s) && Enabled(s, a) && HoldersHome(s) && c < |s.cores|
    requires (a.DoWake? || a.DoThreadFork? || a.DoPoll?) && a.c == c
    ensures HoldersHome(Next(s, a))
  {
    hide Placed, Linked, Membered, Accounted, LatestPick, HoldersHome;
    OthersSame(s, a, c);
    JoiningHome(s, Next(s, a), c);
  }

  lemma BlockHome(s: Sys, c: nat)
    requires Inv(s) && Enabled(s, DoBlock(c)) && HoldersHome(s)
    ensures HoldersHome(Next(s, DoBlock(c)))
  {
    hide Placed, Linked, Membered, Accounted, LatestPick, HoldersHome;
    OthersSame(s, DoBlock(c), c);
    if RunningOn(s, c) in s.madeRunnable {
      JoiningHome(s, Next(s, DoBlock(c)), c);
    } else {
      LeavingHome(s, Next(s, DoBlock(c)), c);
    }
  }

  lemma PickNextHome(s: Sys, c: nat)
    requires Inv(s) && HoldersHome(s) && Enabled(s, DoPick(c))
    ensures HoldersHome(PickNext(s, c))
  {
    hide Placed, Linked, Membered, Accounted, HoldersHome;
    var k, s' := s.cores[c], PickNext(s, c);
    OthersSame(s, DoPick(c), c);
    if k.recvq != [] {
      QueueFacts(s, c, k.recvq[0]);
      ThreadHere(s, k.recvq[0]);
      ReceivedFrom(s, c);
      PickHome(s, s', c, s'.picked[|s.picked|].tid);
    } else if k.runq != [] {
      QueueFacts(s, c, k.runq[0]);
      PickHome(s, s', c, k.runq[0]);
    }
  }

  lemma ReceivedFrom(s: Sys, c: nat)
    requires Inv(s) && c < |s.cores| && s.cores[c].recvq != []
    ensures var s' := PickNext(s, c);
      && |s'.picked| == |s.picked| + 1 && |s'.cores| == |s.cores|
      && s'.picked == s.picked + [Pick(s.cores[c].running, c, s'.picked[|s.picked|].tid)]
      && s'.cores[c].running == s.cores[c].running && s'.cores[c].runq == s.cores[c].runq
  {
    hide Placed, Linked, Membered, Accounted;
    var t := s.cores[c].recvq[0];
    QueueFacts(s, c, t);
    ThreadHere(s, t);
  }

  lemma PickTidHome(s: Sys, c: nat, tid: Tid)
    requires Inv(s) && HoldersHome(s) && Enabled(s, DoPickTid(c, tid))
    ensures HoldersHome(PickTid(s, c, tid))
  {
    hide Placed, Linked, Membered, Accounted, HoldersHome;
    var q := s.cores[c].runq;
    var i := IndexOf(q, tid);
    OthersSame(s, DoPickTid(c, tid), c);
    if i < |q| && tid in s.threads {
      assert forall h :: h in q ==> h == tid || h in q[..i] + q[i + 1..];
      PickHome(s, PickTid(s, c, tid), c, tid);
    }
  }

  lemma TransmitHome(s: Sys)
    requires HoldersHome(s) && Enabled(s, DoTransmit)
    ensures HoldersHome(Next(s, DoTransmit))
  {
    hide HoldersHome;
    JoiningHome(s, Next(s, DoTransmit), s.outbox[0].cpu);
  }

  lemma SameCoresHome(s: Sys, s': Sys)
    requires HoldersHome(s) && s'.cores == s.cores && s'.picked == s.picked
    ensures HoldersHome(s')
  {
    forall i | 0 <= i < |s.picked| && s.picked[i].holder.Some?
      ensures Resides(s', s.picked[i].holder.value, s.picked[i].core)
    {
      assert Resides(s, s.picked[i].holder.value, s.picked[i].core);
    }
  }

  lemma StepHome(s: Sys, a: Action)
    requires Inv(s) && Enabled(s, a) && HoldersHome(s)
    ensures HoldersHome(Next(s, a))
  {
    hide Placed, Linked, Membered, Accounted, HoldersHome, Switching;
    match a
    case DoPick(c) => PickNextHome(s, c);
    case DoPickTid(c, tid) => PickTidHome(s, c, tid);
    case DoSwitch(c) => SwitchHome(s, c);
    case DoBlock(c) => BlockHome(s, c);
    case DoWake(c, _) => QueueHome(s, a, c);
    case DoThreadFork(c) => QueueHome(s, a, c);
    case DoPoll(c) => QueueHome(s, a, c);
    case DoTransmit => TransmitHome(s);
    case DoHandle => HandleCores(s); SameCoresHome(s, Next(s, a));
    case DoVanish(c, _) =>
      if SendsFrom(s, a, c) {
        SendHome(s, a, c);
      } else {
        SameCoresHome(s, Next(s, a));
      }
    case _ => SendHome(s, a, a.c);
  }
}
