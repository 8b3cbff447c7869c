/**
 What a blocked socket asks for is what the poller is asked for: the registration of `vk_proc_prepoll`,
 followed to the poll array and back to the descriptor's next registration.
 */
module Registration {
  import opened Machine
  import opened SList
  import opened Process
  import opened Kernel
  import opened KernelInv
  import opened KernelRun

  /** The socket registers descriptor `f`; of a descriptor used both ways only the read side. */
  predicate Names(reg: Reg, f: nat) {
    reg.rx.fd == f || reg.tx.fd == f
  }

  function AskedOf(reg: Reg, f: nat): set<PollBit> {
    if reg.rx.fd == f then reg.rx.events else reg.tx.events
  }

  /** `f` is free for process `p`: unallocated, or its own and not closed. */
  predicate OpenFor(k: Kernel, p: nat, f: nat) {
    f < |k.fds| && (k.fds[f].inUse ==> k.fds[f].procId == p && !k.fds[f].closed)
  }

  /** The walk over closed descriptors leaves none of them on the list, and closes none. */
  lemma {:induction false} ReleaseClosedReleases(k: Kernel, p: nat, walk: seq<nat>, f: nat)
    requires k.FdSide() && p < |k.procs| && k.freshFds == [] && f < |k.fds|
    requires Distinct(walk) && forall g :: g in walk ==> g in k.procs[p].fds
    ensures var n := k.ReleaseClosed(p, walk);
      && n.fds[f].closed == k.fds[f].closed && n.fds[f].procId == k.fds[f].procId
      && (n.fds[f].inUse ==> k.fds[f].inUse)
      && (f in walk && k.fds[f].closed ==> !n.fds[f].inUse)
    decreases |walk|
  {
    if walk != [] {
      var g := walk[0];
      assert g in walk && g in k.procs[p].fds && k.ListOk(p);
      assert f in walk <==> f == g || f in walk[1..];
      if k.fds[g].closed {
        ReleaseOneKeeps(k, p, g);
        WithoutMembers(k.procs[p].fds, g);
        ReleaseClosedReleases(k.EnqueueDirty(g).DeallocateFd(p, g), p, walk[1..], f);
      } else {
        ReleaseClosedReleases(k, p, walk[1..], f);
      }
    }
  }

  lemma {:induction false} PrepollFdRegisters(k: Kernel, p: nat, ask: Future, f: nat)
    requires p < |k.procs| && OpenFor(k, p, f)
    ensures var n := k.PrepollFd(p, ask);
      && OpenFor(n, p, f)
      && (ask.fd == f ==> Reset(k, n, p, f, ask.events))
      && (ask.fd != f ==> n.fds[f] == k.fds[f])
  {
  }

  /** From `k` to `n`, `f` was registered anew, for `events` and nothing else. */
  predicate Reset(k: Kernel, n: Kernel, p: nat, f: nat, events: set<PollBit>) {
    && f < |k.fds| && f < |n.fds|
    && n.fds[f].inUse && n.fds[f].procId == p && !n.fds[f].closed
    && n.fds[f].pre == IDLE.(fd := f, events := events)
    && (n.fds[f].dirtyQed <==> k.fds[f].dirtyQed || events != {})
  }

  lemma {:induction false} PrepollSocketRegisters(k: Kernel, p: nat, reg: Reg, f: nat)
    requires p < |k.procs| && OpenFor(k, p, f)
    ensures var n := k.PrepollSocket(p, reg);
      && OpenFor(n, p, f)
      && (Names(reg, f) ==> Reset(k, n, p, f, AskedOf(reg, f)))
      && (!Names(reg, f) ==> n.fds[f] == k.fds[f])
  {
    PrepollFdRegisters(k, p, reg.rx, f);
    var m := if reg.rx.fd != -1 then k.PrepollFd(p, reg.rx) else k;
    PrepollFdRegisters(m, p, reg.tx, f);
  }

  /** What the last socket of the walk that names `f` asks of it. */
  function LastAsk(regs: seq<Reg>, f: nat): Option<set<PollBit>> {
    if regs == [] then None
    else
      var rest := LastAsk(regs[1..], f);
      if rest.Some? then rest else if Names(regs[0], f) then Some(AskedOf(regs[0], f)) else None
  }

  /** Some socket of the walk asks for an event on `f`. */
  predicate AnyAsk(regs: seq<Reg>, f: nat) {
    regs != [] && ((Names(regs[0], f) && AskedOf(regs[0], f) != {}) || AnyAsk(regs[1..], f))
  }

  lemma {:induction false} LastAskIs(regs: seq<Reg>, f: nat, j: nat)
    requires j < |regs| && Names(regs[j], f) && forall i :: j < i < |regs| ==> !Names(regs[i], f)
    ensures LastAsk(regs, f) == Some(AskedOf(regs[j], f))
  {
    if j > 0 {
      assert regs[1..][j - 1] == regs[j];
      assert forall i :: j - 1 < i < |regs[1..]| ==> regs[1..][i] == regs[i + 1];
      LastAskIs(regs[1..], f, j - 1);
    } else {
      NoLastAsk(regs[1..], f);
    }
  }

  lemma {:induction false} NoLastAsk(regs: seq<Reg>, f: nat)
    requires forall i :: 0 <= i < |regs| ==> !Names(regs[i], f)
    ensures LastAsk(regs, f) == None
  {
    if regs != [] {
      NoLastAsk(regs[1..], f);
    }
  }

  /** The last socket of the walk wins: it overwrites what those before it asked. */
  lemma {:induction false} LastSocketWins(k: Kernel, p: nat, regs: seq<Reg>, f: nat)
    requires p < |k.procs| && OpenFor(k, p, f)
    ensures var n, ask := k.Register(p, regs), LastAsk(regs, f);
      && (ask.None? ==> n.fds[f] == k.fds[f])
      && (ask.Some? ==>
            && n.fds[f].inUse && n.fds[f].procId == p && !n.fds[f].closed
            && n.fds[f].pre == IDLE.(fd := f, events := ask.value)
            && (n.fds[f].dirtyQed <==> k.fds[f].dirtyQed || AnyAsk(regs, f)))
    ensures LastAsk(regs, f).Some? && LastAsk(regs, f).value != {} ==> AnyAsk(regs, f)
    ensures LastAsk(regs, f).None? ==> !AnyAsk(regs, f)
    decreases |regs|
  {
    if regs != [] {
      PrepollSocketRegisters(k, p, regs[0], f);
      LastSocketWins(k.PrepollSocket(p, regs[0]), p, regs[1..], f);
    }
  }

  lemma {:induction false} PrepollRegisters(k: Kernel, p: nat, f: nat)
    requires k.FdSide() && p < |k.procs| && k.procs[p].live && k.freshFds == [] && f < |k.fds|
    requires k.fds[f].inUse ==> k.fds[f].procId == p
    requires LastAsk(k.procs[p].regs, f).Some?
    ensures var n, events := k.Prepoll(p), LastAsk(k.procs[p].regs, f).value;
      && n.FdSide() && k.SameShape(n)
      && n.fds[f].inUse && n.fds[f].procId == p && !n.fds[f].closed
      && n.fds[f].pre == IDLE.(fd := f, events := events)
      && (events != {} ==> n.fds[f].dirtyQed)
  {
    assert k.ListOk(p) && k.Held(f);
    ReleaseClosedReleases(k, p, k.procs[p].fds, f);
    ReleaseClosedKeeps(k, p, k.procs[p].fds);
    LastSocketWins(k.ReleaseClosed(p, k.procs[p].fds), p, k.procs[p].regs, f);
    PrepollKeeps(k, p);
  }

  /** Everything that a socket waits for on `f`, in either direction. */
  function WaitOf(reg: Reg, f: nat): set<PollBit> {
    (if reg.rx.fd == f then reg.rx.events else {}) + (if reg.tx.fd == f then reg.tx.events else {})
  }

  /**
   After the prepoll of its process, a descriptor that some blocked socket names is polled if and only
   if the last socket of the queue that names it asks for something. It is then polled for exactly that
   socket's ask, so that socket `j` has all it waits for registered if and only if the last one asks for it.
   */
  lemma {:induction false} PolledIffLastAsks(k: Kernel, p: nat, f: nat, j: nat, last: nat)
    requires k.FdSide() && p < |k.procs| && k.procs[p].live && k.freshFds == [] && f < |k.fds|
    requires k.fds[f].inUse ==> k.fds[f].procId == p
    requires j <= last < |k.procs[p].regs| && Names(k.procs[p].regs[j], f) && Names(k.procs[p].regs[last], f)
    requires forall i :: last < i < |k.procs[p].regs| ==> !Names(k.procs[p].regs[i], f)
    ensures var n, regs := k.Prepoll(p), k.procs[p].regs;
      && f < |n.fds| && n.fds[f].inUse && n.fds[f].procId == p
      && n.fds[f].pre.events == AskedOf(regs[last], f)
      && (f in n.PollArray(n.dirtyFds) <==> AskedOf(regs[last], f) != {})
      && (WaitOf(regs[j], f) <= n.fds[f].pre.events <==> WaitOf(regs[j], f) <= AskedOf(regs[last], f))
      && (regs[last].rx.fd != f || regs[last].tx.fd != f ==> WaitOf(regs[last], f) == n.fds[f].pre.events)
  {
    LastAskIs(k.procs[p].regs, f, last);
    PrepollRegisters(k, p, f);
    var n := k.Prepoll(p);
    assert n.FdOk(f);
    PollArrayIs(n, n.dirtyFds, f);
  }

  // ---- waits that are lost ----

  const UNUSED: Fd := Fd(false, 0, false, false, false, false, ZERO, ZERO, ZERO)

  /** One live process, and two descriptors that nobody has used. */
  const ONE_PROC: Kernel := Kernel([Proc(true, false, false, [], false, [])], [], [], [UNUSED, UNUSED], [], [])

  function Wait(f: int, events: set<PollBit>): Future {
    Future(f, events, {}, false, false)
  }

  /**
   A coroutine writes a descriptor and another one of its process, as a responder and its requestor do,
   reads it. Blocked in this order, the read's registration replaces the write's.
   */
  lemma {:induction false} WriteWaitLost()
    ensures var regs := [Reg(IDLE, Wait(0, {Out})), Reg(Wait(0, {In}), IDLE)];
      ONE_PROC.Register(0, regs).fds[0].pre.events == {In} && Out in WaitOf(regs[0], 0)
  {
    var regs := [Reg(IDLE, Wait(0, {Out})), Reg(Wait(0, {In}), IDLE)];
    assert LastAsk(regs[1..], 0) == Some({In});
    LastSocketWins(ONE_PROC, 0, regs, 0);
  }

  /** A socket that names the descriptor for its idle direction takes it out of the poll array. */
  lemma {:induction false} WaitDropped()
    ensures var regs := [Reg(IDLE, Wait(0, {Out})), Reg(Wait(0, {}), Wait(1, {In}))];
      var n := ONE_PROC.Register(0, regs);
      n.fds[0].pre.events == {} && 0 !in n.PollArray(n.dirtyFds) && Out in WaitOf(regs[0], 0)
  {
    var regs := [Reg(IDLE, Wait(0, {Out})), Reg(Wait(0, {}), Wait(1, {In}))];
    assert LastAsk(regs[1..], 0) == Some({});
    LastSocketWins(ONE_PROC, 0, regs, 0);
    RegisterKeeps(ONE_PROC, 0, regs);
    var n := ONE_PROC.Register(0, regs);
    PollArrayIs(n, n.dirtyFds, 0);
  }

  /** A polled descriptor stays registered, for the same events, until all that it asked for has been returned. */
  lemma {:induction false} RegisteredUntilReturned(k: Kernel, f: nat, revents: set<PollBit>)
    requires k.FdSide() && f < |k.fds| && k.fds[f].inUse && k.fds[f].dirtyQed
    requires k.fds[f].pre.events == k.fds[f].post.events
    ensures var x, n := k.fds[f], k.ProcessFd(f, revents);
      if x.pre.events <= revents then f !in n.dirtyFds && n.fds[f].pre.events == {}
      else f in n.dirtyFds && n.fds[f].pre.events == x.pre.events
  {
    var m := k.TakeReport(f, revents);
    FdSideUpTo(k, m);
    EnqueueFreshKeeps(m, f);
    var l := if revents != {} then m.EnqueueFresh(f) else m;
    DropReturnedKeeps(l, f);
    ProcessFdReports(k, f, revents);
    var a := k.fds[f].pre.events;
    assert a <= revents <==> a * revents == a;
    if a <= revents {
      assert (a - revents * a) + (revents * a - a) == {};
    }
  }

  /** Where nothing is pending, no report is taken: the loop is about to end. */
  lemma {:induction false} IdlePollIgnores(k: Kernel, results: seq<set<PollBit>>, others: seq<set<PollBit>>)
    requires !k.PrepareAll(k.dirtyFds).Pending()
    ensures k.Poll(results) == k.Poll(others)
  {
  }

  /** Hang-ups and errors close the directions that they concern, for good. */
  lemma {:induction false} ReportCloses(k: Kernel, f: nat, revents: set<PollBit>)
    requires k.FdSide() && f < |k.fds| && k.fds[f].inUse
    ensures var x, y := k.fds[f].post, k.ProcessFd(f, revents).fds[f].ret;
      && (y.rxClosed <==> x.rxClosed || Hup in revents || Fault in revents)
      && (y.txClosed <==> x.txClosed || RdHup in revents)
      && k.ProcessFd(f, revents).fds[f].post == y && y.revents == revents && y.fd == x.fd && y.events == x.events
  {
    var m := k.TakeReport(f, revents);
    FdSideUpTo(k, m);
    EnqueueFreshKeeps(m, f);
    DropReturnedKeeps(if revents != {} then m.EnqueueFresh(f) else m, f);
  }
}
