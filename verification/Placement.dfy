/** Every thread is in exactly one place, in every run of the protocol. */
module Placement {
  import opened Basics
  import opened Lifecycle
  import opened Protocol

  // ----- counting the places that hold a thread

  function Occurs(q: seq<Tid>, t: Tid): nat {
    multiset(q)[t]
  }

  lemma OccursAppend(q: seq<Tid>, r: seq<Tid>, t: Tid)
    ensures Occurs(q + r, t) == Occurs(q, t) + Occurs(r, t)
  {
  }

  lemma OccursHead(q: seq<Tid>, t: Tid)
    requires q != []
    ensures Occurs(q, t) == (if q[0] == t then 1 else 0) + Occurs(q[1..], t)
  {
    assert q == [q[0]] + q[1..];
  }

  lemma OccursRemove(q: seq<Tid>, i: nat, t: Tid)
    requires i < |q|
    ensures Occurs(q, t) == (if q[i] == t then 1 else 0) + Occurs(q[..i] + q[i + 1..], t)
  {
    assert q == q[..i] + [q[i]] + q[i + 1..];
  }

  /** The three kinds of place on a core. */
  datatype Kind = Running | Sending | Receiving

  function CoreCount(k: Core, w: Kind, t: Tid): nat {
    match w
    case Running => Occurs(Current(k), t) + Occurs(k.runq, t)
    case Sending => Occurs(k.sendq, t)
    case Receiving => Occurs(k.recvq, t)
  }

  function CoresCount(cs: seq<Core>, w: Kind, t: Tid): nat {
    if cs == [] then 0 else CoreCount(cs[0], w, t) + CoresCount(cs[1..], w, t)
  }

  lemma {:induction false} CoresCountUpdate(cs: seq<Core>, c: nat, k: Core, w: Kind, t: Tid)
    requires c < |cs|
    ensures CoresCount(cs[c := k], w, t) + CoreCount(cs[c], w, t) == CoresCount(cs, w, t) + CoreCount(k, w, t)
  {
    if c == 0 {
      assert cs[c := k][1..] == cs[1..];
    } else {
      CoresCountUpdate(cs[1..], c - 1, k, w, t);
      assert cs[c := k][1..] == cs[1..][c - 1 := k];
    }
  }

  lemma {:induction false} CoresCountHas(cs: seq<Core>, c: nat, w: Kind, t: Tid)
    requires c < |cs|
    ensures CoreCount(cs[c], w, t) <= CoresCount(cs, w, t)
  {
    if c > 0 {
      CoresCountHas(cs[1..], c - 1, w, t);
    }
  }

  lemma {:induction false} CoresCountHasTwo(cs: seq<Core>, c: nat, d: nat, w: Kind, t: Tid)
    requires c < d < |cs|
    ensures CoreCount(cs[c], w, t) + CoreCount(cs[d], w, t) <= CoresCount(cs, w, t)
  {
    if c == 0 {
      CoresCountHas(cs[1..], d - 1, w, t);
    } else {
      CoresCountHasTwo(cs[1..], c - 1, d - 1, w, t);
    }
  }

  function WaitersCount(tasks: Table, p: Pid, t: Tid): nat {
    if p in tasks then Occurs(tasks[p].waiters, t) else 0
  }

  /** How often `t` is in the wait queues of the tasks with a pid below `n`. */
  function WaitCount(tasks: Table, n: nat, t: Tid): nat {
    if n == 0 then 0 else WaitCount(tasks, n - 1, t) + WaitersCount(tasks, n - 1, t)
  }

  /** Two tables that differ at one pid only. */
  ghost predicate AgreeExcept(a: Table, b: Table, p: Pid) {
    forall q: Pid :: q != p ==> (q in a <==> q in b) && (q in a ==> a[q] == b[q])
  }

  lemma {:induction false} WaitCountChange(a: Table, b: Table, p: Pid, n: nat, t: Tid)
    requires AgreeExcept(a, b, p)
    ensures p < n ==> WaitCount(b, n, t) + WaitersCount(a, p, t) == WaitCount(a, n, t) + WaitersCount(b, p, t)
    ensures p >= n ==> WaitCount(b, n, t) == WaitCount(a, n, t)
  {
    if n > 0 {
      WaitCountChange(a, b, p, n - 1, t);
    }
  }

  lemma {:induction false} WaitCountHas(tasks: Table, p: Pid, n: nat, t: Tid)
    requires p < n
    ensures WaitersCount(tasks, p, t) <= WaitCount(tasks, n, t)
  {
    if p < n - 1 {
      WaitCountHas(tasks, p, n - 1, t);
    }
  }

  function OutCount(o: seq<Send>, t: Tid): nat {
    if o == [] then 0 else (if o[0].tid == t then 1 else 0) + OutCount(o[1..], t)
  }

  lemma {:induction false} OutCountAppend(o: seq<Send>, m: Send, t: Tid)
    ensures OutCount(o + [m], t) == OutCount(o, t) + if m.tid == t then 1 else 0
  {
    if o != [] {
      OutCountAppend(o[1..], m, t);
      assert (o + [m])[1..] == o[1..] + [m];
    }
  }

  function PickCount(ps: seq<Pick>, t: Tid): nat {
    if ps == [] then 0 else (if ps[0].tid == t then 1 else 0) + PickCount(ps[1..], t)
  }

  lemma {:induction false} PickCountConcat(a: seq<Pick>, b: seq<Pick>, t: Tid)
    ensures PickCount(a + b, t) == PickCount(a, t) + PickCount(b, t)
  {
    if a == [] {
      assert a + b == b;
    } else {
      PickCountConcat(a[1..], b, t);
      assert (a + b)[1..] == a[1..] + b;
    }
  }

  lemma PickCountAppend(ps: seq<Pick>, p: Pick, t: Tid)
    ensures PickCount(ps + [p], t) == PickCount(ps, t) + if p.tid == t then 1 else 0
  {
    PickCountConcat(ps, [p], t);
  }

  lemma PickCountRemove(ps: seq<Pick>, i: nat, t: Tid)
    requires i < |ps|
    ensures PickCount(ps, t) == PickCount(ps[..i] + ps[i + 1..], t) + if ps[i].tid == t then 1 else 0
  {
    assert ps == ps[..i] + [ps[i]] + ps[i + 1..];
    PickCountConcat(ps[..i], [ps[i]], t);
    PickCountConcat(ps[..i] + [ps[i]], ps[i + 1..], t);
    PickCountConcat(ps[..i], ps[i + 1..], t);
  }

  // ----- the placement invariant

  function At(s: Sys, t: Tid, g: Stage): nat {
    if t in s.threads && s.threads[t].stage == g then 1 else 0
  }

  function InSet(a: set<Tid>, t: Tid): nat {
    if t in a then 1 else 0
  }

  /** The places of each kind hold `t` exactly when it is at that stage, and then once. */
  ghost predicate PlacedAt(s: Sys, t: Tid) {
    && CoresCount(s.cores, Running, t) + InSet(s.blocked, t) == At(s, t, OnCore)
    && PickCount(s.picked, t) == At(s, t, Picked)
    && CoresCount(s.cores, Sending, t) == At(s, t, Sent)
    && (if s.held == Some(t) then 1 else 0) == At(s, t, Held)
    && CoresCount(s.cores, Receiving, t) + OutCount(s.outbox, t) == At(s, t, Returning)
    && WaitCount(s.tasks, s.next, t) == At(s, t, Waiting)
  }

  ghost predicate Placed(s: Sys) {
    forall t: Tid :: PlacedAt(s, t)
  }

  /** How many places in the whole system hold `t`: cores, the picks of threads in the middle of a
      switch, send and receive queues, the manager and its outbox, wait queues, plus one while it is
      parked behind a fork or hangs off a FORK message. */
  function Places(s: Sys, t: Tid): nat {
    CoresCount(s.cores, Running, t) + InSet(s.blocked, t) + PickCount(s.picked, t) + CoresCount(s.cores, Sending, t)
    + (if s.held == Some(t) then 1 else 0) + CoresCount(s.cores, Receiving, t) + OutCount(s.outbox, t)
    + WaitCount(s.tasks, s.next, t) + At(s, t, Parked) + At(s, t, Embryo)
  }

  lemma ExactlyOnePlace(s: Sys, t: Tid)
    requires Placed(s)
    ensures Places(s, t) == if t in s.threads then 1 else 0
  {
    assert PlacedAt(s, t);
  }

  /** No thread runs on two cores, and a running thread is in no queue. */
  lemma NeverOnTwoCores(s: Sys, c: nat, d: nat, t: Tid)
    requires Placed(s) && c < |s.cores| && d < |s.cores| && c != d
    requires s.cores[c].running == Some(t)
    ensures s.cores[d].running != Some(t) && t !in s.cores[d].runq && t !in s.cores[c].runq
  {
    assert PlacedAt(s, t);
    CoresCountHasTwo(s.cores, if c < d then c else d, if c < d then d else c, Running, t);
    assert Occurs(Current(s.cores[c]), t) == 1;
  }
}
