/** Where replies go. A ledger, kept from the calls of a run alone, notes what each thread last asked the
    manager for and from which core; every reply is one to that request, and takes the thread back to that
    core, or to the other core the request named. */
module Letters {
  import opened Basics
  import opened Lifecycle
  import opened Protocol
  import opened Placement
  import opened KernelInvariant
  import opened WorkerSteps
  import opened ManagerSteps
  import opened VanishSteps
  import opened KernelRuns
  import opened Queues
  import opened Picks

  datatype Request =
    | Nothing
    | ForFork
    | ForAnnounce
    | ForWait
    | ForCall
    | ForTour(next: nat, found: bool)
    | ForExit(status: int)
    | ForLeave(home: nat)

  datatype Letter = Letter(request: Request, from: nat)

  type Ledger = map<Tid, Letter>

  // ----- keeping the ledger

  /** The caller's new entry, and that of a thread it creates. On a tour a thread keeps the core it started
      from. */
  ghost function Posted(l: Ledger, s: Sys, a: Action): Ledger
    requires Enabled(s, a)
  {
    match a
    case DoThreadFork(c) => l[s.next := Letter(Nothing, c)]
    case DoFork(c) => l[RunningOn(s, c) := Letter(ForFork, c)][s.next := Letter(Nothing, c)]
    case DoAnnounce(c) => l[RunningOn(s, c) := Letter(ForAnnounce, c)]
    case DoWait(c) => l[RunningOn(s, c) := Letter(ForWait, c)]
    case DoCall(c) => l[RunningOn(s, c) := Letter(ForCall, c)]
    case DoTour(c, next, found, first) =>
      var t := RunningOn(s, c);
      l[t := Letter(ForTour(next, found), if first || t !in l then c else l[t].from)]
    case DoVanish(c, status) => if SendsFrom(s, a, c) then l[RunningOn(s, c) := Letter(ForExit(status), c)] else l
    case DoLeave(c, home) => l[RunningOn(s, c) := Letter(ForLeave(home), c)]
    case _ => l
  }

  ghost predicate Running(s: Sys, t: Tid) {
    exists c :: 0 <= c < |s.cores| && s.cores[c].running == Some(t)
  }

  /** A thread that runs has had its reply. */
  ghost function Opened(l: Ledger, s: Sys): Ledger {
    map t | t in l :: if Running(s, t) then l[t].(request := Nothing) else l[t]
  }

  ghost function NextLedger(l: Ledger, s: Sys, a: Action): Ledger
    requires Enabled(s, a)
  {
    Opened(Posted(l, s, a), Next(s, a))
  }

  const BOOT_LEDGER: Ledger := map[0 := Letter(Nothing, 0)]

  // ----- what fits

  /** The thread carries a reply to the request, on its way to core `c` of `n`. */
  predicate Answers(th: Thread, l: Letter, c: nat, n: nat) {
    match l.request
    case Nothing => false
    case ForFork => th.role == Live && (th.msg.Fork? || (th.msg == ForkDone && c == l.from))
    case ForAnnounce => th.role == Live && th.msg.ForkResponse? && c == l.from
    case ForWait => th.role == Live && th.msg.WaitDone? && c == l.from
    case ForCall => th.role == Live && th.msg == Response && c == l.from
    case ForTour(next, found) =>
      && th.role == Live
      && if found then th.msg == Tour(next, true) && c == l.from
         else n > 0 && c == (next + 1) % n && th.msg == Tour(c + 1, false)
    case ForExit(_) => th.role == Departing && th.msg == Response && c == l.from
    case ForLeave(home) => th.role == Dead && th.msg == Response && c == home
  }

  /** The thread carries the request itself. */
  predicate Carries(th: Thread, r: Request) {
    match r
    case Nothing => false
    case ForFork => th.msg.Fork?
    case ForAnnounce => th.msg.ForkResponse?
    case ForWait => th.msg == Wait(th.task)
    case ForCall => th.msg == Call
    case ForTour(next, found) => th.msg == Tour(next, found)
    case ForExit(status) => th.msg.Vanish? && th.msg.vpid == th.task && th.msg.status == status
    case ForLeave(home) => th.msg == VanishBack(home)
  }

  predicate ThreadFits(th: Thread, l: Letter) {
    && th.cpu == l.from
    && match th.stage
       case OnCore => l.request == Nothing
       case Embryo => l.request == Nothing
       case Sent => Carries(th, l.request)
       case Held => Carries(th, l.request)
       case Waiting => l.request == ForWait
       case Parked => l.request == ForFork
       case _ => true
  }

  ghost predicate ThreadsFit(s: Sys, l: Ledger) {
    && l.Keys == s.threads.Keys
    && forall t :: t in s.threads ==> ThreadFits(s.threads[t], l[t])
  }

  /** A reply of `t` is on its way to core `c`. */
  predicate InMail(s: Sys, t: Tid, c: nat) {
    Send(t, c) in s.outbox || (c < |s.cores| && t in s.cores[c].recvq)
  }

  ghost predicate ReplyFits(s: Sys, l: Ledger, t: Tid, c: nat) {
    t in s.threads && t in l && Answers(s.threads[t], l[t], c, |s.cores|)
  }

  ghost predicate MailFits(s: Sys, l: Ledger) {
    forall t, c :: InMail(s, t, c) ==> ReplyFits(s, l, t, c)
  }

  /** A thread picked on a core has come to it by a reply, or was on it anyway. */
  ghost predicate PickFits(s: Sys, l: Ledger, p: Pick) {
    ReplyFits(s, l, p.tid, p.core) || (p.tid in l && l[p.tid].request == Nothing)
  }

  ghost predicate PicksFit(s: Sys, l: Ledger) {
    forall i :: 0 <= i < |s.picked| ==> PickFits(s, l, s.picked[i])
  }

  ghost predicate LettersOk(s: Sys, l: Ledger) {
    ThreadsFit(s, l) && MailFits(s, l) && PicksFit(s, l)
  }

  // ----- frames

  /** Nothing about `u` that a reply depends on has changed. */
  predicate SameSaid(s: Sys, s': Sys, l: Ledger, l': Ledger, u: Tid) {
    && u in s.threads && u in s'.threads && u in l && u in l'
    && s'.threads[u].role == s.threads[u].role && s'.threads[u].msg == s.threads[u].msg && l'[u] == l[u]
  }

  ghost predicate SameSaidExcept(s: Sys, s': Sys, l: Ledger, l': Ledger, x: set<Tid>) {
    |s'.cores| == |s.cores| && forall u :: u in s.threads && u !in x ==> SameSaid(s, s', l, l', u)
  }

  lemma MailedReturning(s: Sys, t: Tid, c: nat)
    requires Placed(s) && InMail(s, t, c)
    ensures t in s.threads && s.threads[t].stage == Returning
  {
    hide Placed;
    PlacedHere(s, t);
    if c < |s.cores| && t in s.cores[c].recvq {
      QueueFacts(s, c, t);
    } else {
      var i :| 0 <= i < |s.outbox| && s.outbox[i] == Send(t, c);
      OutCountHas(s.outbox, i);
    }
  }

  lemma {:induction false} OutCountHas(o: seq<Send>, i: nat)
    requires i < |o|
    ensures OutCount(o, o[i].tid) > 0
  {
    if i > 0 {
      OutCountHas(o[1..], i - 1);
    }
  }

  lemma ThreadsStay(s: Sys, s': Sys, l: Ledger, l': Ledger, x: set<Tid>)
    requires ThreadsFit(s, l) && l'.Keys == s'.threads.Keys
    requires forall u :: u in s'.threads && u !in x ==>
      u in s.threads && s'.threads[u] == s.threads[u] && u in l && l'[u] == l[u]
    requires forall u :: u in s'.threads && u in x ==> ThreadFits(s'.threads[u], l'[u])
    ensures ThreadsFit(s', l')
  {
    hide ThreadFits;
  }

  /** Old replies stay as they are, and the new ones fit. */
  lemma MailStays(s: Sys, s': Sys, l: Ledger, l': Ledger, x: set<Tid>, added: seq<Send>)
    requires Placed(s) && MailFits(s, l) && SameSaidExcept(s, s', l, l', x)
    requires forall u :: u in s.threads && u in x ==> s.threads[u].stage != Returning
    requires forall u, c :: InMail(s', u, c) ==> InMail(s, u, c) || Send(u, c) in added
    requires forall i :: 0 <= i < |added| ==> ReplyFits(s', l', added[i].tid, added[i].cpu)
    ensures MailFits(s', l')
  {
    hide Placed, InMail, Answers;
    forall u, c | InMail(s', u, c)
      ensures ReplyFits(s', l', u, c)
    {
      if InMail(s, u, c) {
        MailedReturning(s, u, c);
        assert SameSaid(s, s', l, l', u);
        SameAnswer(s.threads[u], s'.threads[u], l[u], c, |s.cores|);
      } else {
        var i :| 0 <= i < |added| && added[i] == Send(u, c);
      }
    }
  }

  lemma SameAnswer(a: Thread, b: Thread, l: Letter, c: nat, n: nat)
    requires a.role == b.role && a.msg == b.msg
    ensures Answers(a, l, c, n) <==> Answers(b, l, c, n)
  {
  }

  /** Picks stay as they are, but for one that fits. */
  lemma PicksStay(s: Sys, s': Sys, l: Ledger, l': Ledger, x: set<Tid>)
    requires Placed(s) && PicksFit(s, l) && SameSaidExcept(s, s', l, l', x)
    requires forall u :: u in s.threads && u in x ==> s.threads[u].stage != Picked
    requires forall p :: p in s'.picked ==> p in s.picked || PickFits(s', l', p)
    ensures PicksFit(s', l')
  {
    hide Placed, Answers;
    forall i | 0 <= i < |s'.picked|
      ensures PickFits(s', l', s'.picked[i])
    {
      var p := s'.picked[i];
      if p in s.picked {
        var j :| 0 <= j < |s.picked| && s.picked[j] == p;
        PickedFacts(s, j);
        assert SameSaid(s, s', l, l', p.tid);
        SameAnswer(s.threads[p.tid], s'.threads[p.tid], l[p.tid], p.core, |s.cores|);
      }
    }
  }

  // ----- what every step does to mail and picks

  lemma CoresStay(s: Sys, a: Action)
    requires Inv(s) && Enabled(s, a)
    ensures |Next(s, a).cores| == |s.cores|
  {
    hide Placed, Membered, Accounted;
    if a.DoHandle? {
      HandleCores(s);
    } else if !a.DoTransmit? {
      SameElsewhereLength(s, a, 0);
    }
  }

  /** Only the manager's handlers make new replies. */
  lemma MailShrinks(s: Sys, a: Action)
    requires Inv(s) && Enabled(s, a) && !a.DoHandle?
    ensures forall t, c :: InMail(Next(s, a), t, c) ==> InMail(s, t, c)
  {
    hide Inv, Next, Enabled;
    var s' := Next(s, a);
    CoresStay(s, a);
    OutboxStep(s, a);
    forall t, c: nat | InMail(s', t, c)
      ensures InMail(s, t, c)
    {
      if c < |s.cores| && t in s'.cores[c].recvq {
        StepQueues(s, a, c);
        assert t in RecvLeaves(s, a, c) + s'.cores[c].recvq;
        assert t in s.cores[c].recvq + RecvJoins(s, a, c);
        SentFromOutbox(s, a, t, c);
      } else {
        assert Send(t, c) in s.outbox;
      }
    }
  }

  lemma SentFromOutbox(s: Sys, a: Action, t: Tid, c: nat)
    requires Enabled(s, a) && c < |s.cores| && t in s.cores[c].recvq + RecvJoins(s, a, c)
    ensures InMail(s, t, c)
  {
  }

  lemma PicksShrink(s: Sys, a: Action)
    requires Inv(s) && Enabled(s, a) && !a.DoPick? && !a.DoPickTid?
    ensures forall p :: p in Next(s, a).picked ==> p in s.picked
  {
    hide Inv, Next, Enabled;
    if a.DoSwitch? {
      SwitchShape(s, a.c);
    } else {
      PickedSame(s, a);
    }
  }

  lemma PickedSame(s: Sys, a: Action)
    requires Inv(s) && Enabled(s, a) && !a.DoPick? && !a.DoPickTid? && !a.DoSwitch?
    ensures Next(s, a).picked == s.picked
  {
    hide Inv, LatestPick, SwitchAway, Handle, Current;
    if a.DoHandle? {
      HandleCores(s);
    }
  }

  // ----- the workers' steps

  /** A call that sends a message. */
  lemma SendFits(s: Sys, a: Action, l: Ledger, c: nat)
    requires Inv(s) && Enabled(s, a) && LettersOk(s, l) && c < |s.cores| && SendsFrom(s, a, c)
    ensures LettersOk(Next(s, a), Posted(l, s, a))
  {
    hide Placed, Linked, Membered, Accounted, MailFits, PicksFit, InMail, ThreadsFit, Next, Posted, Enabled;
    SendRuns(s, a, c);
    RunningFacts(s, c);
    SendThreads(s, a, l, c);
    NextIsNew(s);
    FitsOn(s, a, l, {RunningOn(s, c), s.next});
  }

  lemma SendRuns(s: Sys, a: Action, c: nat)
    requires Enabled(s, a) && c < |s.cores| && SendsFrom(s, a, c)
    ensures s.cores[c].running.Some? && s.cores[c].running.value in s.threads
  {
    hide LatestPick;
  }

  /** Threads that fit, and nothing new in the mail or among the picks. */
  lemma FitsOn(s: Sys, a: Action, l: Ledger, x: set<Tid>)
    requires Inv(s) && Enabled(s, a) && LettersOk(s, l) && !a.DoHandle? && !a.DoPick? && !a.DoPickTid?
    requires ThreadsFit(Next(s, a), Posted(l, s, a))
    requires forall u :: u in s.threads && u !in x ==> SameSaid(s, Next(s, a), l, Posted(l, s, a), u)
    requires forall u :: u in s.threads && u in x ==> s.threads[u].stage in {OnCore, Sent}
    ensures LettersOk(Next(s, a), Posted(l, s, a))
  {
    hide Placed, Linked, Membered, Accounted, MailFits, PicksFit, InMail, ThreadsFit, Next, Posted, Enabled, SameSaid;
    var s', l' := Next(s, a), Posted(l, s, a);
    CoresStay(s, a);
    MailShrinks(s, a);
    MailStays(s, s', l, l', x, []);
    PicksShrink(s, a);
    PicksStay(s, s', l, l', x);
  }

  lemma NextIsNew(s: Sys)
    requires Linked(s)
    ensures s.next !in s.threads
  {
    if s.next in s.threads {
      ThreadHere(s, s.next);
    }
  }

  lemma SendThreads(s: Sys, a: Action, l: Ledger, c: nat)
    requires Inv(s) && Enabled(s, a) && ThreadsFit(s, l) && c < |s.cores| && SendsFrom(s, a, c)
    ensures s.cores[c].running.Some?
    ensures var s', l' := Next(s, a), Posted(l, s, a);
      && ThreadsFit(s', l')
      && forall u :: u in s.threads && u !in {RunningOn(s, c), s.next} ==> SameSaid(s, s', l, l', u)
  {
    hide Placed, Linked, Membered, Accounted, Next, Posted, Enabled;
    SendRuns(s, a, c);
    RunningFacts(s, c);
    NextIsNew(s);
    if a.DoFork? {
      ForkShape(s, c, l);
    } else {
      SendShape(s, a, l, c);
    }
    ThreadsStay(s, Next(s, a), l, Posted(l, s, a), {RunningOn(s, c), s.next});
  }

  /** The caller's record and its entry in the ledger change together. */
  lemma SendShape(s: Sys, a: Action, l: Ledger, c: nat)
    requires Enabled(s, a) && c < |s.cores| && SendsFrom(s, a, c) && !a.DoFork?
    requires var t := s.cores[c].running.value; t in l && s.threads[t].cpu == l[t].from
    ensures var s', l', t := Next(s, a), Posted(l, s, a), s.cores[c].running.value;
      && t in s'.threads && s'.threads == s.threads[t := s'.threads[t]]
      && t in l' && l' == l[t := l'[t]] && ThreadFits(s'.threads[t], l'[t])
  {
    hide SwitchAway, LatestPick;
  }

  lemma ForkShape(s: Sys, c: nat, l: Ledger)
    requires Enabled(s, DoFork(c)) && s.cores[c].running.value != s.next
    ensures var s', l', t, n := Next(s, DoFork(c)), Posted(l, s, DoFork(c)), s.cores[c].running.value, s.next;
      && t in s'.threads && n in s'.threads && s'.threads == s.threads[t := s'.threads[t]][n := s'.threads[n]]
      && t in l' && n in l' && l' == l[t := l'[t]][n := l'[n]]
      && ThreadFits(s'.threads[t], l'[t]) && ThreadFits(s'.threads[n], l'[n])
  {
    hide SwitchAway, LatestPick;
  }

  /** A step of a worker that sends nothing, picks nobody and switches to nobody. */
  lemma QuietFits(s: Sys, a: Action, l: Ledger)
    requires Inv(s) && Enabled(s, a) && LettersOk(s, l)
    requires a.DoBlock? || a.DoWake? || a.DoThreadFork? || (a.DoVanish? && !SendsFrom(s, a, a.c))
    ensures LettersOk(Next(s, a), Posted(l, s, a))
  {
    hide Placed, Linked, Membered, Accounted, MailFits, PicksFit, InMail, ThreadsFit, Next, Posted, SendsFrom, Enabled;
    var x := QuietThreads(s, a, l);
    FitsOn(s, a, l, x);
  }

  lemma QuietThreads(s: Sys, a: Action, l: Ledger) returns (x: set<Tid>)
    requires Inv(s) && Enabled(s, a) && ThreadsFit(s, l)
    requires a.DoBlock? || a.DoWake? || a.DoThreadFork? || (a.DoVanish? && !SendsFrom(s, a, a.c))
    ensures var s', l' := Next(s, a), Posted(l, s, a);
      && ThreadsFit(s', l')
      && (forall u :: u in s.threads && u !in x ==> SameSaid(s, s', l, l', u))
      && (forall u :: u in s.threads && u in x ==> s.threads[u].stage == OnCore)
  {
    hide Placed, Linked, Membered, Accounted, ThreadsFit;
    NextIsNew(s);
    if a.DoVanish? {
      x := {RunningOn(s, a.c)};
      DepartShape(s, a, l);
    } else {
      x := {s.next};
      QuietShape(s, a, l);
    }
  }

  lemma DepartShape(s: Sys, a: Action, l: Ledger)
    requires Inv(s) && Enabled(s, a) && ThreadsFit(s, l) && a.DoVanish? && !SendsFrom(s, a, a.c)
    ensures var s', l', t := Next(s, a), Posted(l, s, a), RunningOn(s, a.c);
      && ThreadsFit(s', l') && t in s.threads && s.threads[t].stage == OnCore
      && (forall u :: u in s.threads && u != t ==> SameSaid(s, s', l, l', u))
  {
    hide Placed, Linked, Membered, Accounted, LatestPick, SwitchAway;
    RunningFacts(s, a.c);
    ThreadsStay(s, Next(s, a), l, Posted(l, s, a), {RunningOn(s, a.c)});
  }

  lemma QuietShape(s: Sys, a: Action, l: Ledger)
    requires Inv(s) && Enabled(s, a) && ThreadsFit(s, l) && s.next !in s.threads
    requires a.DoBlock? || a.DoWake? || a.DoThreadFork?
    ensures var s', l' := Next(s, a), Posted(l, s, a);
      ThreadsFit(s', l') && forall u :: u in s.threads ==> SameSaid(s, s', l, l', u)
  {
    hide Placed, Linked, Membered, Accounted, LatestPick, SwitchAway;
    ThreadsStay(s, Next(s, a), l, Posted(l, s, a), {s.next});
  }

  /** Picking moves a reply from the mail to the picks. */
  lemma PickNextFits(s: Sys, c: nat, l: Ledger)
    requires Inv(s) && Enabled(s, DoPick(c)) && LettersOk(s, l)
    ensures LettersOk(Next(s, DoPick(c)), l)
  {
    hide Placed, Linked, Membered, Accounted, MailFits, PicksFit, InMail;
    var s' := Next(s, DoPick(c));
    PickNextThreads(s, c, l);
    PickNextPick(s, c, l);
    hide ThreadsFit, Next, Enabled;
    CoresStay(s, DoPick(c));
    MailShrinks(s, DoPick(c));
    MailStays(s, s', l, l, {}, []);
    PicksStay(s, s', l, l, {});
  }

  lemma PickNextThreads(s: Sys, c: nat, l: Ledger)
    requires Inv(s) && c < |s.cores| && ThreadsFit(s, l) && MailFits(s, l)
    ensures var s' := PickNext(s, c); ThreadsFit(s', l) && forall u :: u in s.threads ==> SameSaid(s, s', l, l, u)
  {
    hide Placed, Linked, Membered, Accounted, ThreadsFit;
    if s.cores[c].recvq != [] {
      ReceiveThreads(s, c, l);
    } else {
      RunThreads(s, c, l);
    }
  }

  lemma ReceiveThreads(s: Sys, c: nat, l: Ledger)
    requires Inv(s) && c < |s.cores| && ThreadsFit(s, l) && MailFits(s, l) && s.cores[c].recvq != []
    ensures var s' := PickNext(s, c); ThreadsFit(s', l) && forall u :: u in s.threads ==> SameSaid(s, s', l, l, u)
  {
    hide Placed, Linked, Membered, Accounted;
    var t, s' := s.cores[c].recvq[0], PickNext(s, c);
    QueueFacts(s, c, t);
    ThreadHere(s, t);
    assert InMail(s, t, c) && ReplyFits(s, l, t, c);
    ThreadsStay(s, s', l, l, if s.threads[t].msg.Fork? then {t, s.threads[t].msg.child} else {t});
  }

  lemma RunThreads(s: Sys, c: nat, l: Ledger)
    requires Inv(s) && c < |s.cores| && ThreadsFit(s, l) && s.cores[c].recvq == []
    ensures var s' := PickNext(s, c); ThreadsFit(s', l) && forall u :: u in s.threads ==> SameSaid(s, s', l, l, u)
  {
    hide Placed, Linked, Membered, Accounted;
    var k, s' := s.cores[c], PickNext(s, c);
    if k.runq != [] {
      QueueFacts(s, c, k.runq[0]);
      ThreadsStay(s, s', l, l, {k.runq[0]});
    }
  }

  lemma PickNextPick(s: Sys, c: nat, l: Ledger)
    requires Inv(s) && c < |s.cores| && ThreadsFit(s, l) && MailFits(s, l)
    ensures var s' := PickNext(s, c); forall p :: p in s'.picked ==> p in s.picked || PickFits(s', l, p)
  {
    hide Placed, Linked, Membered, Accounted;
    var k := s.cores[c];
    if k.recvq != [] {
      var t := k.recvq[0];
      QueueFacts(s, c, t);
      ThreadHere(s, t);
      assert InMail(s, t, c) && ReplyFits(s, l, t, c);
    } else if k.runq != [] {
      QueueFacts(s, c, k.runq[0]);
    }
  }

  lemma PickTidFits(s: Sys, c: nat, tid: Tid, l: Ledger)
    requires Inv(s) && Enabled(s, DoPickTid(c, tid)) && LettersOk(s, l)
    ensures LettersOk(Next(s, DoPickTid(c, tid)), l)
  {
    hide Placed, Linked, Membered, Accounted, MailFits, PicksFit, InMail, LatestPick;
    var a, s' := DoPickTid(c, tid), Next(s, DoPickTid(c, tid));
    QueueFacts(s, c, tid);
    if tid in s.cores[c].runq {
      ThreadsStay(s, s', l, l, {tid});
    }
    CoresStay(s, a);
    MailShrinks(s, a);
    MailStays(s, s', l, l, {}, []);
    PicksStay(s, s', l, l, {});
  }

  // ----- the switch

  /** The thread that a switch on core `c` lets run. */
  function Chosen(s: Sys, c: nat): Tid
    requires Switching(s, c)
  {
    s.picked[LatestPick(s.picked, s.cores[c].running, c)].tid
  }

  lemma SwitchShape(s: Sys, c: nat)
    requires Inv(s) && Enabled(s, DoSwitch(c))
    ensures var s', x := Next(s, DoSwitch(c)), Chosen(s, c);
      && x in s.threads && s.threads[x].stage == Picked && s'.threads == s.threads[x := s.threads[x].(stage := OnCore)]
      && c < |s.cores| == |s'.cores| && s'.cores[c].running == Some(x)
      && (forall p :: p in s'.picked ==> p in s.picked && p.tid != x)
      && (forall d :: 0 <= d < |s.cores| && d != c ==> s'.cores[d] == s.cores[d])
  {
    hide Placed, Linked, Membered, Accounted, LatestPick, Current;
    var i, s' := LatestPick(s.picked, s.cores[c].running, c), Next(s, DoSwitch(c));
    PickedFacts(s, i);
    forall p | p in s'.picked
      ensures p in s.picked && p.tid != s.picked[i].tid
    {
      var j :| 0 <= j < |s'.picked| && s'.picked[j] == p;
      var k := if j < i then j else j + 1;
      assert s.picked[k] == p;
      if p.tid == s.picked[i].tid {
        PickedOnce(s, i, k);
      }
    }
  }

  /** The reply is read: only the thread switched to has its entry cleared. */
  lemma OpenedOne(s: Sys, c: nat, l: Ledger)
    requires Inv(s) && Enabled(s, DoSwitch(c)) && ThreadsFit(s, l)
    ensures var x := Chosen(s, c); x in l && Opened(l, Next(s, DoSwitch(c))) == l[x := l[x].(request := Nothing)]
  {
    hide Placed, Linked, Membered, Accounted, LatestPick, Next, Switching, Chosen;
    SwitchShape(s, c);
    var s', x := Next(s, DoSwitch(c)), Chosen(s, c);
    assert Running(s', x);
    forall t | t in l && t != x && Running(s', t)
      ensures l[t].request == Nothing
    {
      var d :| 0 <= d < |s'.cores| && s'.cores[d].running == Some(t);
      RunningFacts(s, d);
    }
  }

  lemma SwitchFits(s: Sys, c: nat, l: Ledger)
    requires Inv(s) && Enabled(s, DoSwitch(c)) && LettersOk(s, l)
    ensures LettersOk(Next(s, DoSwitch(c)), NextLedger(l, s, DoSwitch(c)))
  {
    hide Placed, Linked, Membered, Accounted, MailFits, PicksFit, InMail, LatestPick, Next, Switching, Chosen;
    var a, s', x := DoSwitch(c), Next(s, DoSwitch(c)), Chosen(s, c);
    var l' := NextLedger(l, s, a);
    SwitchShape(s, c);
    OpenedOne(s, c, l);
    ThreadsStay(s, s', l, l', {x});
    MailShrinks(s, a);
    MailStays(s, s', l, l', {x}, []);
    SwitchPicks(s, c, l, l');
  }

  lemma SwitchPicks(s: Sys, c: nat, l: Ledger, l': Ledger)
    requires Inv(s) && Enabled(s, DoSwitch(c)) && LettersOk(s, l)
    requires var x := Chosen(s, c); x in l && l' == l[x := l[x].(request := Nothing)]
    ensures PicksFit(Next(s, DoSwitch(c)), l')
  {
    hide Placed, Linked, Membered, Accounted, MailFits, LatestPick, Next, Enabled, Switching, Chosen, Answers;
    var s' := Next(s, DoSwitch(c));
    SwitchShape(s, c);
    forall i | 0 <= i < |s'.picked|
      ensures PickFits(s', l', s'.picked[i])
    {
      var p := s'.picked[i];
      var j :| 0 <= j < |s.picked| && s.picked[j] == p;
      PickedFacts(s, j);
    }
  }

  /** Apart from a switch, whoever runs after a step had no reply outstanding. */
  lemma OpenedSame(l: Ledger, s: Sys)
    requires Placed(s) && ThreadsFit(s, l)
    ensures Opened(l, s) == l
  {
    hide Placed;
    forall t | t in l && Running(s, t)
      ensures l[t].request == Nothing
    {
      var c :| 0 <= c < |s.cores| && s.cores[c].running == Some(t);
      RunningFacts(s, c);
    }
  }

  // ----- the manager's steps

  lemma CarryFits(s: Sys, a: Action, l: Ledger)
    requires Inv(s) && Enabled(s, a) && LettersOk(s, l) && (a.DoPoll? || a.DoTransmit?)
    ensures LettersOk(Next(s, a), Posted(l, s, a))
  {
    hide Placed, Linked, Membered, Accounted, MailFits, PicksFit, InMail;
    var s', x := Next(s, a), if a.DoPoll? then {s.cores[a.c].sendq[0]} else {};
    if a.DoPoll? {
      QueueFacts(s, a.c, s.cores[a.c].sendq[0]);
    }
    ThreadsStay(s, s', l, l, x);
    FitsOn(s, a, l, {});
  }

  /** One reply is prepared, for the thread whose message the manager holds. */
  lemma AnswerFits(s: Sys, s': Sys, l: Ledger, t: Tid, role: Role, msg: Payload, cpu: nat)
    requires Inv(s) && LettersOk(s, l) && s.held == Some(t) && t in s.threads
    requires s'.cores == s.cores && s'.picked == s.picked && s'.outbox == s.outbox + [Send(t, cpu)]
    requires s'.threads == s.threads[t := s.threads[t].(role := role, stage := Returning, msg := msg)]
    requires Answers(s'.threads[t], l[t], cpu, |s.cores|)
    ensures LettersOk(s', l)
  {
    hide Placed, Linked, Membered, Accounted, Answers, MailFits, PicksFit;
    HeldFacts(s);
    ThreadsStay(s, s', l, l, {t});
    MailStays(s, s', l, l, {t}, [Send(t, cpu)]);
    PicksStay(s, s', l, l, {t});
  }

  lemma HeldCarries(s: Sys, l: Ledger, t: Tid)
    requires Inv(s) && ThreadsFit(s, l) && s.held == Some(t)
    ensures t in s.threads && t in l && s.threads[t].stage == Held && ThreadOk(s, t)
    ensures Carries(s.threads[t], l[t].request) && s.threads[t].cpu == l[t].from
  {
    HeldFacts(s);
    ThreadHere(s, t);
  }

  lemma ForkHandled(s: Sys, l: Ledger, t: Tid)
    requires Inv(s) && LettersOk(s, l) && s.held == Some(t) && t in s.threads && s.threads[t].msg.Fork? && |s.cores| > 0
    ensures LettersOk(HandleFork(s, t), l)
  {
    hide Placed, Linked, Membered, Accounted, MailFits, PicksFit, ThreadsFit;
    HeldCarries(s, l, t);
    AnswerFits(s, HandleFork(s, t), l, t, Live, s.threads[t].msg, s.forkNext);
  }

  lemma PlainHandled(s: Sys, l: Ledger, t: Tid)
    requires Inv(s) && LettersOk(s, l) && s.held == Some(t) && t in s.threads && |s.cores| > 0
    requires s.threads[t].msg.VanishBack? || s.threads[t].msg.Call? || s.threads[t].msg.Tour?
    ensures LettersOk(Handle(s, t), l)
  {
    hide Placed, Linked, Membered, Accounted, MailFits, PicksFit, ThreadsFit;
    HeldCarries(s, l, t);
    match s.threads[t].msg
    case VanishBack(cpu) => AnswerFits(s, Handle(s, t), l, t, Dead, Response, cpu);
    case Call => AnswerFits(s, Handle(s, t), l, t, Live, Response, s.threads[t].cpu);
    case Tour(next, found) =>
      if found {
        AnswerFits(s, Handle(s, t), l, t, Live, s.threads[t].msg, s.threads[t].cpu);
      } else {
        var hop := (next + 1) % |s.cores|;
        AnswerFits(s, Handle(s, t), l, t, Live, Tour(hop + 1, false), hop);
      }
  }

  lemma WaitHandled(s: Sys, l: Ledger, t: Tid)
    requires Inv(s) && LettersOk(s, l) && s.held == Some(t) && t in s.threads && s.threads[t].msg.Wait?
    ensures LettersOk(HandleWait(s, t), l)
  {
    hide Placed, Linked, Membered, Accounted, MailFits, PicksFit;
    var s', p := HandleWait(s, t), s.threads[t].task;
    HeldCarries(s, l, t);
    WaitFacts(s, t);
    var o := WaitTask(s.tasks[p], t).1;
    if o.Blocked? {
      ThreadsStay(s, s', l, l, {t});
      MailStays(s, s', l, l, {t}, []);
      PicksStay(s, s', l, l, {t});
    } else {
      AnswerFits(s, s', l, t, Live, WaitDone(o), s.threads[t].cpu);
    }
  }

  lemma ForkResponseHandled(s: Sys, l: Ledger, n: Tid)
    requires Inv(s) && LettersOk(s, l) && s.held == Some(n) && n in s.threads && s.threads[n].msg.ForkResponse?
    ensures LettersOk(HandleForkResponse(s, n), l)
  {
    hide Placed, Linked, Membered, Accounted, MailFits, PicksFit;
    var s', t := HandleForkResponse(s, n), s.threads[n].msg.req;
    HeldCarries(s, l, n);
    ForkResponseFacts(s, n);
    ThreadsStay(s, s', l, l, {t, n});
    MailStays(s, s', l, l, {t, n}, [Send(t, s.threads[t].cpu), Send(n, s.threads[n].cpu)]);
    PicksStay(s, s', l, l, {t, n});
  }

  lemma MailAppended(s: Sys, s': Sys, added: seq<Send>)
    requires s'.cores == s.cores && s'.outbox == s.outbox + added
    ensures forall u, c :: InMail(s', u, c) ==> InMail(s, u, c) || Send(u, c) in added
  {
  }

  /** The threads that a vanish answers. */
  ghost function Answered(s: Sys, t: Tid): set<Tid>
    requires VanishHeld(s, t)
  {
    var d := NewDeliveries(s, t);
    {t} + set i | 0 <= i < |d| :: d[i].waiter
  }

  lemma VanishThreads(s: Sys, l: Ledger, t: Tid, s': Sys)
    requires VanishHeld(s, t) && WaitersKnown(s, NewDeliveries(s, t)) && VanishSays(s, t, s') && ThreadsFit(s, l)
    ensures ThreadsFit(s', l) && SameSaidExcept(s, s', l, l, Answered(s, t))
    ensures forall u :: u in s.threads && u in Answered(s, t) ==> s.threads[u].stage in {Held, Waiting}
  {
    hide Inv, NewDeliveries, Replies, ThreadFits, SameSaid, VanishSays;
    forall u | u in s.threads
      ensures u in s'.threads && ThreadFits(s'.threads[u], l[u])
      ensures u in Answered(s, t) ==> s.threads[u].stage in {Held, Waiting}
      ensures u !in Answered(s, t) ==> SameSaid(s, s', l, l, u)
    {
      VanishThread(s, l, t, s', u);
    }
    SaysFrame(s, t, s');
  }

  lemma SaysFrame(s: Sys, t: Tid, s': Sys)
    requires VanishHeld(s, t) && WaitersKnown(s, NewDeliveries(s, t)) && VanishSays(s, t, s')
    ensures s'.threads.Keys == s.threads.Keys && s'.cores == s.cores && s'.picked == s.picked
  {
  }

  lemma VanishThread(s: Sys, l: Ledger, t: Tid, s': Sys, u: Tid)
    requires VanishHeld(s, t) && WaitersKnown(s, NewDeliveries(s, t)) && VanishSays(s, t, s') && ThreadsFit(s, l)
    requires u in s.threads
    ensures u in s'.threads && ThreadFits(s'.threads[u], l[u])
    ensures u in Answered(s, t) ==> s.threads[u].stage in {Held, Waiting}
    ensures u !in Answered(s, t) ==> SameSaid(s, s', l, l, u)
  {
    hide Inv, NewDeliveries, Replies;
    var d := NewDeliveries(s, t);
    assert ThreadFits(s.threads[u], l[u]);
    if u in Answered(s, t) && u != t {
      var i :| 0 <= i < |d| && d[i].waiter == u;
      assert IsTold(s, d[i], s');
    }
  }

  lemma VanishReplies(s: Sys, l: Ledger, t: Tid, s': Sys)
    requires VanishHeld(s, t) && WaitersKnown(s, NewDeliveries(s, t)) && VanishSays(s, t, s') && ThreadsFit(s, l)
    ensures var added := Replies(s, NewDeliveries(s, t)) + [Send(t, s.threads[t].cpu)];
      && s'.outbox == s.outbox + added
      && forall i :: 0 <= i < |added| ==> ReplyFits(s', l, added[i].tid, added[i].cpu)
  {
    hide Placed, Linked, Membered, Accounted, NewDeliveries;
    HeldCarries(s, l, t);
    var d := NewDeliveries(s, t);
    var added := Replies(s, d) + [Send(t, s.threads[t].cpu)];
    forall i | 0 <= i < |added|
      ensures ReplyFits(s', l, added[i].tid, added[i].cpu)
    {
      if i < |d| {
        assert added[i] == Send(d[i].waiter, s.threads[d[i].waiter].cpu);
        assert IsTold(s, d[i], s');
      }
    }
  }

  lemma VanishHandled(s: Sys, l: Ledger, t: Tid)
    requires VanishPending(s, t) && LettersOk(s, l)
    ensures LettersOk(HandleVanish(s, t), l)
  {
    hide Placed, Linked, Membered, Accounted, MailFits, PicksFit, ThreadsFit, HandleVanish, NewDeliveries, InMail;
    hide Replies, ReplyFits, Answered, VanishSays;
    VanishAnswers(s, t);
    SaysFrame(s, t, HandleVanish(s, t));
    var s', x := HandleVanish(s, t), Answered(s, t);
    var added := Replies(s, NewDeliveries(s, t)) + [Send(t, s.threads[t].cpu)];
    VanishThreads(s, l, t, s');
    VanishReplies(s, l, t, s');
    MailAppended(s, s', added);
    MailStays(s, s', l, l, x, added);
    PicksStay(s, s', l, l, x);
  }

  lemma HandleFits(s: Sys, l: Ledger)
    requires Inv(s) && Enabled(s, DoHandle) && LettersOk(s, l)
    ensures LettersOk(Next(s, DoHandle), l)
  {
    hide Placed, Linked, Membered, Accounted, LettersOk, HandleFork, HandleForkResponse, HandleWait, HandleVanish;
    hide HandleTour;
    var t := s.held.value;
    HeldFacts(s);
    ThreadHere(s, t);
    match s.threads[t].msg
    case Fork(_, _) => ForkHandled(s, l, t);
    case ForkResponse(_) => ForkResponseHandled(s, l, t);
    case Wait(_) => WaitHandled(s, l, t);
    case Vanish(_, _, _) => VanishHandled(s, l, t);
    case _ => PlainHandled(s, l, t);
  }

  // ----- every step, and every run

  lemma PostedFits(s: Sys, a: Action, l: Ledger)
    requires Inv(s) && Enabled(s, a) && LettersOk(s, l) && !a.DoSwitch?
    ensures LettersOk(Next(s, a), Posted(l, s, a))
  {
    hide Inv, LettersOk, Next, Switching;
    match a
    case DoPick(c) => PickNextFits(s, c, l);
    case DoPickTid(c, tid) => PickTidFits(s, c, tid, l);
    case DoBlock(_) => QuietFits(s, a, l);
    case DoWake(_, _) => QuietFits(s, a, l);
    case DoThreadFork(_) => QuietFits(s, a, l);
    case DoPoll(_) => CarryFits(s, a, l);
    case DoTransmit => CarryFits(s, a, l);
    case DoHandle => HandleFits(s, l);
    case DoVanish(c, _) =>
      if SendsFrom(s, a, c) {
        SendFits(s, a, l, c);
      } else {
        QuietFits(s, a, l);
      }
    case DoFork(c) => SendFits(s, a, l, c);
    case DoAnnounce(c) => SendFits(s, a, l, c);
    case DoWait(c) => SendFits(s, a, l, c);
    case DoCall(c) => SendFits(s, a, l, c);
    case DoTour(c, _, _, _) => SendFits(s, a, l, c);
    case DoLeave(c, _) => SendFits(s, a, l, c);
  }

  lemma StepFits(s: Sys, a: Action, l: Ledger)
    requires Inv(s) && Enabled(s, a) && LettersOk(s, l)
    ensures LettersOk(Next(s, a), NextLedger(l, s, a))
  {
    hide Placed, Linked, Membered, Accounted, Next, Enabled, MailFits, PicksFit, ThreadsFit, Posted, Opened;
    if a.DoSwitch? {
      SwitchFits(s, a.c, l);
    } else {
      PostedFits(s, a, l);
      StepKeepsInv(s, a);
      OpenedSame(Posted(l, s, a), Next(s, a));
    }
  }

  ghost function LedgerAfter(l: Ledger, s: Sys, acts: seq<Action>): Ledger
    requires IsRun(s, acts)
    decreases |acts|
  {
    if acts == [] then l else LedgerAfter(NextLedger(l, s, acts[0]), Next(s, acts[0]), acts[1..])
  }

  lemma {:induction false} RunFits(s: Sys, acts: seq<Action>, l: Ledger)
    requires Inv(s) && HoldersHome(s) && IsRun(s, acts) && LettersOk(s, l)
    ensures Inv(After(s, acts)) && HoldersHome(After(s, acts))
    ensures LettersOk(After(s, acts), LedgerAfter(l, s, acts))
    decreases |acts|
  {
    hide Inv, HoldersHome, LettersOk, Next, Enabled, NextLedger;
    if acts != [] {
      StepKeepsInv(s, acts[0]);
      StepHome(s, acts[0]);
      StepFits(s, acts[0], l);
      RunFits(Next(s, acts[0]), acts[1..], NextLedger(l, s, acts[0]));
    }
  }

  lemma BootFits(w: nat)
    requires w > 0
    ensures LettersOk(Boot(w), BOOT_LEDGER) && HoldersHome(Boot(w))
  {
  }

  /** In every run from boot, a reply on its way answers the request its thread last made, and goes to the
      core the request was made on; the exceptions are the request of a fork, which goes where the new
      thread shall run, the hops of a tour, and the last message of a dying thread, which goes to the core
      that it named. */
  lemma RepliesGoHome(w: nat, acts: seq<Action>, t: Tid, c: nat)
    requires w > 0 && IsRun(Boot(w), acts) && InMail(After(Boot(w), acts), t, c)
    ensures var s, l := After(Boot(w), acts), LedgerAfter(BOOT_LEDGER, Boot(w), acts);
      t in s.threads && t in l && Answers(s.threads[t], l[t], c, |s.cores|)
  {
    hide Inv, HoldersHome, Next, Enabled, Boot, ThreadsFit, PicksFit, InMail;
    BootInv(w);
    BootFits(w);
    RunFits(Boot(w), acts, BOOT_LEDGER);
  }

  /** In every run from boot, when a thread that awaits a reply comes to run, it runs on the core that the
      reply belongs to, and has the reply: after wait() on core c it next runs on core c, with the outcome. */
  lemma CallsReturnHome(w: nat, acts: seq<Action>, a: Action, t: Tid, c: nat)
    requires w > 0 && IsRun(Boot(w), acts) && Enabled(After(Boot(w), acts), a)
    requires var l := LedgerAfter(BOOT_LEDGER, Boot(w), acts); t in l && l[t].request != Nothing
    requires var s' := Next(After(Boot(w), acts), a); c < |s'.cores| && s'.cores[c].running == Some(t)
    ensures var s', l := Next(After(Boot(w), acts), a), LedgerAfter(BOOT_LEDGER, Boot(w), acts);
      t in s'.threads && Answers(s'.threads[t], l[t], c, |s'.cores|)
  {
    hide Inv, HoldersHome, Next, Enabled, Boot, LettersOk, Answers;
    BootInv(w);
    BootFits(w);
    RunFits(Boot(w), acts, BOOT_LEDGER);
    ReplyRuns(After(Boot(w), acts), a, LedgerAfter(BOOT_LEDGER, Boot(w), acts), t, c);
  }

  lemma ReplyRuns(s: Sys, a: Action, l: Ledger, t: Tid, c: nat)
    requires Inv(s) && HoldersHome(s) && LettersOk(s, l) && Enabled(s, a)
    requires t in l && l[t].request != Nothing
    requires c < |Next(s, a).cores| && Next(s, a).cores[c].running == Some(t)
    ensures t in Next(s, a).threads && Answers(Next(s, a).threads[t], l[t], c, |Next(s, a).cores|)
  {
    hide Placed, Linked, Membered, Accounted, HoldersHome, Next, MailFits, Answers, LatestPick;
    CoresStay(s, a);
    if a.DoSwitch? {
      SwitchReply(s, a.c, l, t, c);
    } else {
      RunnerUnasked(s, a, l, t, c);
    }
  }

  /** Apart from a switch, nobody comes to run who awaits a reply. */
  lemma RunnerUnasked(s: Sys, a: Action, l: Ledger, t: Tid, c: nat)
    requires Inv(s) && LettersOk(s, l) && Enabled(s, a) && !a.DoSwitch? && t in l
    requires c < |Next(s, a).cores| && Next(s, a).cores[c].running == Some(t)
    ensures l[t].request == Nothing
  {
    hide Placed, Linked, Membered, Accounted, Next, MailFits, PicksFit, Enabled;
    StepKeepsInv(s, a);
    PostedFits(s, a, l);
    RunningFacts(Next(s, a), c);
    PostedOthers(s, a, l, t);
  }

  lemma PostedOthers(s: Sys, a: Action, l: Ledger, t: Tid)
    requires Inv(s) && Enabled(s, a) && ThreadsFit(s, l) && t in l
    ensures t in Posted(l, s, a) && (Posted(l, s, a)[t] == l[t] || l[t].request == Nothing)
  {
    hide Placed, Linked, Membered, Accounted, LatestPick;
    NextIsNew(s);
    if !a.DoTransmit? && !a.DoHandle? && a.c < |s.cores| && s.cores[a.c].running.Some? {
      RunningFacts(s, a.c);
    }
  }

  lemma SwitchReply(s: Sys, d: nat, l: Ledger, t: Tid, c: nat)
    requires Inv(s) && HoldersHome(s) && LettersOk(s, l) && Enabled(s, DoSwitch(d))
    requires t in l && l[t].request != Nothing
    requires var s' := Next(s, DoSwitch(d)); c < |s'.cores| && s'.cores[c].running == Some(t)
    ensures var s' := Next(s, DoSwitch(d)); t in s'.threads && Answers(s'.threads[t], l[t], c, |s'.cores|)
  {
    hide Placed, Linked, Membered, Accounted, HoldersHome, Next, MailFits, Answers, LatestPick;
    SwitchShape(s, d);
    SwitchedWherePicked(s, d);
    if c != d {
      RunningFacts(s, c);
    } else {
      var p := s.picked[LatestPick(s.picked, s.cores[d].running, d)];
      assert PickFits(s, l, p);
      SameAnswer(s.threads[t], Next(s, DoSwitch(d)).threads[t], l[t], c, |s.cores|);
    }
  }
}
