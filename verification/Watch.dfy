/**
 What stays registered over whole runs of the kernel: a descriptor that only one process ever names is
 registered, wherever the loop waits for the poller, for what that process's last socket asks.
 */
module Watch {
  import opened SList
  import opened Process
  import opened Kernel
  import opened KernelInv
  import opened KernelRun
  import opened Registration

  /** The descriptor `x`, number `f`, belongs to `p` and is registered anew for `ask`. */
  predicate HeldFor(x: Fd, p: nat, f: nat, ask: set<PollBit>) {
    && x.inUse && x.procId == p && !x.closed
    && x.pre == IDLE.(fd := f, events := ask) && (ask != {} ==> x.dirtyQed)
  }

  /** If a socket of `p` is blocked on `f`, the last one that names it is the one `f` is registered for. */
  predicate Holds(k: Kernel, p: nat, f: nat)
    requires p < |k.procs| && f < |k.fds|
  {
    var ask := LastAsk(k.procs[p].regs, f);
    ask.Some? ==> HeldFor(k.fds[f], p, f, ask.value)
  }

  /** No process but `p` has `f`. */
  predicate Free(k: Kernel, p: nat, f: nat) {
    p < |k.procs| && f < |k.fds| && (k.fds[f].inUse ==> k.fds[f].procId == p)
  }

  /** It is registered, unless the process is about to run and will register it. */
  predicate Watched(k: Kernel, p: nat, f: nat) {
    Free(k, p, f) && (k.procs[p].live && !k.procs[p].runQed && !k.fds[f].freshQed ==> Holds(k, p, f))
  }

  // ---- dispatches of other processes ----

  lemma {:induction false} ReleaseOthers(k: Kernel, q: nat, walk: seq<nat>, f: nat)
    requires f !in walk && f < |k.fds|
    ensures k.ReleaseClosed(q, walk).fds[f] == k.fds[f]
    decreases |walk|
  {
    if walk != [] {
      assert walk[0] in walk;
      var n := if walk[0] < |k.fds| && k.fds[walk[0]].closed
               then k.EnqueueDirty(walk[0]).DeallocateFd(q, walk[0]) else k;
      ReleaseOthers(n, q, walk[1..], f);
    }
  }

  lemma {:induction false} PrepollFdOthers(k: Kernel, q: nat, ask: Future, f: nat)
    requires ask.fd != f && f < |k.fds|
    ensures k.PrepollFd(q, ask).fds[f] == k.fds[f]
  {
  }

  lemma {:induction false} SocketOthers(k: Kernel, q: nat, reg: Reg, f: nat)
    requires !Names(reg, f) && f < |k.fds|
    ensures k.PrepollSocket(q, reg).fds[f] == k.fds[f]
  {
    PrepollFdOthers(k, q, reg.rx, f);
    PrepollFdOthers(if reg.rx.fd != -1 then k.PrepollFd(q, reg.rx) else k, q, reg.tx, f);
  }

  lemma {:induction false} RegisterOthers(k: Kernel, q: nat, regs: seq<Reg>, f: nat)
    requires LastAsk(regs, f).None? && f < |k.fds|
    ensures k.Register(q, regs).fds[f] == k.fds[f]
    decreases |regs|
  {
    if regs != [] {
      SocketOthers(k, q, regs[0], f);
      RegisterOthers(k.PrepollSocket(q, regs[0]), q, regs[1..], f);
    }
  }

  lemma {:induction false} BuryOthers(k: Kernel, q: nat, walk: seq<nat>, f: nat)
    requires f !in walk && f < |k.fds|
    ensures k.BuryAll(q, walk).fds[f] == k.fds[f]
    decreases |walk|
  {
    if walk != [] {
      assert walk[0] in walk;
      BuryOthers(k.Bury(q, walk[0]), q, walk[1..], f);
    }
  }

  /** Descriptors are on the lists of their owners only. */
  lemma {:induction false} NotListed(k: Kernel, p: nat, q: nat, f: nat)
    requires k.FdSide() && Free(k, p, f) && q < |k.procs| && q != p
    ensures f !in k.procs[q].fds
  {
    assert k.ListOk(q);
  }

  /** The registration of a process that does not name the descriptor leaves it alone. */
  lemma {:induction false} PrepollOthers(k: Kernel, q: nat, p: nat, f: nat)
    requires k.FdSide() && Free(k, p, f) && q < |k.procs| && q != p && LastAsk(k.procs[q].regs, f).None?
    ensures k.Prepoll(q).fds[f] == k.fds[f]
  {
    NotListed(k, p, q, f);
    ReleaseOthers(k, q, k.procs[q].fds, f);
    RegisterOthers(k.ReleaseClosed(q, k.procs[q].fds), q, k.procs[q].regs, f);
  }

  lemma {:induction false} SpawnAllFds(k: Kernel, ps: seq<nat>)
    ensures k.SpawnAll(ps).fds == k.fds && k.SpawnAll(ps).dirtyFds == k.dirtyFds
    decreases |ps|
  {
    if ps != [] {
      SpawnAllFds(k.Spawn(ps[0]), ps[1..]);
    }
  }

  /** What a process is registered with, when its sockets are. */
  lemma {:induction false} BeforePrepoll(k: Kernel, q: nat, ex: Execution) returns (b: Kernel)
    requires k.FdSide() && k.ProcSide(q) && k.freshFds == [] && q < |k.procs| && k.procs[q].live
    ensures b == k.Left(q, ex.regs).SpawnAll(ex.spawn)
    ensures b.FdSide() && b.fds == k.fds && b.freshFds == [] && k.SameShape(b)
    ensures b.procs[q].live && b.procs[q].regs == ex.regs && k.Executed(q, ex) == b.Prepoll(q)
  {
    EnterKeeps(k, q, ex);
    var m := k.Left(q, ex.regs);
    SpawnAllKeeps(m, q, ex.spawn);
    SpawnAllFds(m, ex.spawn);
    b := m.SpawnAll(ex.spawn);
  }

  lemma {:induction false} ExecutedOthers(k: Kernel, q: nat, ex: Execution, p: nat, f: nat)
    requires k.FdSide() && k.ProcSide(q) && k.freshFds == [] && q < |k.procs| && k.procs[q].live
    requires Free(k, p, f) && q != p && LastAsk(ex.regs, f).None?
    ensures k.Executed(q, ex).fds[f] == k.fds[f]
  {
    var b := BeforePrepoll(k, q, ex);
    PrepollOthers(b, q, p, f);
  }

  /** The dispatch of a process that does not name the descriptor leaves it alone. */
  lemma {:induction false} DispatchOthers(k: Kernel, q: nat, ex: Execution, p: nat, f: nat)
    requires k.FdSide() && k.ProcSide(q) && k.freshFds == [] && q < |k.procs| && k.procs[q].live
    requires Free(k, p, f) && q != p && LastAsk(ex.regs, f).None?
    ensures k.Dispatch(q, ex).fds[f] == k.fds[f]
  {
    ExecutedOthers(k, q, ex, p, f);
    ExecutedKeeps(k, q, ex);
    var e := k.Executed(q, ex);
    FlushKeeps(e, q);
    var n := e.Flush(q);
    if n.IsZombie(q) {
      NotListed(n, p, q, f);
      BuryOthers(n, q, n.procs[q].fds, f);
    }
  }

  // ---- dispatches of the process itself ----

  lemma {:induction false} BuryOwn(k: Kernel, p: nat, walk: seq<nat>, f: nat)
    requires f < |k.fds|
    ensures var x := k.BuryAll(p, walk).fds[f]; x.procId == k.fds[f].procId && (x.inUse ==> k.fds[f].inUse)
    decreases |walk|
  {
    if walk != [] {
      BuryOwn(k.Bury(p, walk[0]), p, walk[1..], f);
    }
  }

  lemma {:induction false} PrepollOwn(k: Kernel, p: nat, f: nat)
    requires k.FdSide() && p < |k.procs| && k.procs[p].live && k.freshFds == [] && Free(k, p, f)
    ensures Free(k.Prepoll(p), p, f)
    ensures LastAsk(k.procs[p].regs, f).Some? ==>
              HeldFor(k.Prepoll(p).fds[f], p, f, LastAsk(k.procs[p].regs, f).value)
  {
    if LastAsk(k.procs[p].regs, f).Some? {
      PrepollRegisters(k, p, f);
    } else {
      assert k.ListOk(p);
      ReleaseClosedReleases(k, p, k.procs[p].fds, f);
      RegisterOthers(k.ReleaseClosed(p, k.procs[p].fds), p, k.procs[p].regs, f);
    }
  }

  lemma {:induction false} ExecutedOwn(k: Kernel, p: nat, ex: Execution, f: nat)
    requires k.FdSide() && k.ProcSide(p) && k.freshFds == [] && p < |k.procs| && k.procs[p].live && Free(k, p, f)
    ensures Free(k.Executed(p, ex), p, f) && k.Executed(p, ex).procs[p].regs == ex.regs
    ensures Holds(k.Executed(p, ex), p, f)
  {
    var b := BeforePrepoll(k, p, ex);
    PrepollOwn(b, p, f);
    ExecutedKeeps(k, p, ex);
  }

  /** The dispatch of the process registers it. */
  lemma {:induction false} DispatchOwn(k: Kernel, p: nat, ex: Execution, f: nat)
    requires k.FdSide() && k.ProcSide(p) && k.freshFds == [] && p < |k.procs| && k.procs[p].live && Free(k, p, f)
    ensures Free(k.Dispatch(p, ex), p, f) && (k.Dispatch(p, ex).procs[p].live ==> Holds(k.Dispatch(p, ex), p, f))
  {
    ExecutedOwn(k, p, ex, f);
    ExecutedKeeps(k, p, ex);
    var e := k.Executed(p, ex);
    FlushPlaces(e, p);
    var n := e.Flush(p);
    if n.IsZombie(p) {
      BuryOwn(n, p, n.procs[p].fds, f);
    }
  }

  // ---- a pass ----

  lemma {:induction false} RunFirstWatched(k: Kernel, ex: Execution, p: nat, f: nat)
    requires k.Inv() && k.freshFds == [] && k.runProcs != [] && Watched(k, p, f)
    requires k.runProcs[0] == p || LastAsk(ex.regs, f).None?
    ensures Watched(k.DequeueRun().Dispatch(k.runProcs[0], ex), p, f)
  {
    var q, d := k.runProcs[0], k.DequeueRun();
    DequeuedFirst(k);
    DispatchKeeps(d, q, ex);
    var n := d.Dispatch(q, ex);
    if q == p {
      DispatchOwn(d, p, ex, f);
    } else {
      DispatchOthers(d, q, ex, p, f);
      StaysSettled(k, d, n, q, p);
    }
  }

  /** A process that is not dispatched stays as it was, or is queued. */
  lemma {:induction false} StaysSettled(k: Kernel, d: Kernel, n: Kernel, q: nat, p: nat)
    requires k.Inv() && k.freshFds == [] && k.runProcs != [] && q == k.runProcs[0] && d == k.DequeueRun()
    requires n.Inv() && Elsewhere(d, n, q) && p < |k.procs| && p != q
    ensures n.procs[p].regs == k.procs[p].regs
    ensures n.procs[p].live && !n.procs[p].runQed ==> k.procs[p].live && !k.procs[p].runQed
  {
    DequeuedFirst(k);
    assert k.Settled(p) && n.Settled(p);
    assert k.procs[p].runQed ==> p in k.runProcs;
  }

  /** Every process that is dispatched, but `p`, leaves no socket blocked on `f`. */
  predicate OnlyNamedBy(k: Kernel, script: seq<Execution>, p: nat, f: nat)
    decreases |script|
  {
    k.runProcs == [] || script == [] ||
    (&& (k.runProcs[0] == p || LastAsk(script[0].regs, f).None?)
     && OnlyNamedBy(k.DequeueRun().Dispatch(k.runProcs[0], script[0]), script[1..], p, f))
  }

  lemma {:induction false} RunAllWatched(k: Kernel, script: seq<Execution>, p: nat, f: nat)
    requires k.Inv() && k.freshFds == [] && Watched(k, p, f) && OnlyNamedBy(k, script, p, f)
    ensures Watched(k.RunAll(script).k, p, f)
    decreases |script|
  {
    if k.runProcs != [] && script != [] {
      RunFirstWatched(k, script[0], p, f);
      RunFirstKeeps(k, script[0]);
      RunAllWatched(k.DequeueRun().Dispatch(k.runProcs[0], script[0]), script[1..], p, f);
    }
  }

  lemma {:induction false} WakeWatched(k: Kernel, p: nat, f: nat)
    requires k.Inv() && Watched(k, p, f)
    ensures Watched(k.WakeFresh(), p, f)
  {
    WakeFreshWakes(k);
    var n := k.WakeFresh();
    assert k.FdOk(f);
    assert k.fds[f].freshQed ==> p in n.runProcs;
    assert k.procs[p].runQed ==> p in k.runProcs;
  }

  // ---- a poll ----

  /** Preparing leaves a descriptor that is to stay open as it is registered. */
  lemma {:induction false} PrepareWatched(k: Kernel, walk: seq<nat>, f: nat)
    requires k.FdSide() && Distinct(walk) && f < |k.fds|
    requires forall g: nat | g in walk :: g < |k.fds| && k.fds[g].dirtyQed
    requires !k.fds[f].zombie && !(k.fds[f].pre.rxClosed && k.fds[f].pre.txClosed)
    ensures var x := k.PrepareAll(walk).fds[f]; x == k.fds[f].(post := x.post)
    decreases |walk|
  {
    if walk != [] {
      PrepareFirst(k, walk);
      assert walk[0] in walk && walk[0] in k.dirtyFds;
      PrepareKeeps(k, walk[0]);
      PrepareWatched(k.Prepare(walk[0]), walk[1..], f);
    }
  }

  /** A report of nothing leaves a descriptor that asks for something registered. */
  lemma {:induction false} NothingReported(k: Kernel, f: nat)
    requires f < |k.fds| && k.fds[f].pre.events != {}
    ensures var x := k.ProcessFd(f, {}).fds[f]; x == k.fds[f].(post := x.post, ret := x.ret)
  {
    assert k.fds[f].pre.events * {} == {};
  }

  lemma {:induction false} ProcessWatched(k: Kernel, polled: seq<nat>, results: seq<set<PollBit>>, f: nat)
    requires k.FdSide() && Distinct(polled) && |results| == |polled| && f < |k.fds|
    requires forall g: nat | g in polled :: g < |k.fds| && k.fds[g].inUse
    requires f in polled ==> k.fds[f].pre.events != {}
    ensures var x := k.ProcessAll(polled, results).fds[f];
      x.freshQed || x == k.fds[f].(post := x.post, ret := x.ret)
    decreases |polled|
  {
    if polled != [] {
      assert polled[0] in polled && polled == [polled[0]] + polled[1..];
      assert forall g: nat | g in polled[1..] :: g in polled && g != polled[0];
      var n := k.ProcessFd(polled[0], results[0]);
      ProcessFdReports(k, polled[0], results[0]);
      if polled[0] != f {
        ProcessWatched(n, polled[1..], results[1..], f);
      } else {
        ProcessAllReports(n, polled[1..], results[1..]);
        if results[0] == {} {
          NothingReported(k, f);
        }
      }
    }
  }

  lemma {:induction false} PollWatched(k: Kernel, results: seq<set<PollBit>>, p: nat, f: nat)
    requires k.Inv() && k.freshFds == [] && |results| == |k.PollArray(k.dirtyFds)| && Watched(k, p, f)
    ensures Watched(k.Poll(results), p, f)
  {
    PollKeeps(k, results);
    PollReady(k);
    assert k.FdOk(f) && f !in k.freshFds;
    if k.procs[p].live && !k.procs[p].runQed && LastAsk(k.procs[p].regs, f).Some? {
      PrepareWatched(k, k.dirtyFds, f);
      PollArrayIs(k, k.dirtyFds, f);
      ProcessWatched(k.PrepareAll(k.dirtyFds), k.PollArray(k.dirtyFds), results, f);
    }
  }

  // ---- the loop ----

  /** In no round does a process other than `p` leave a socket blocked on `f`. */
  predicate OnlyNamed(k: Kernel, rounds: seq<Round>, p: nat, f: nat)
    decreases |rounds|
  {
    rounds == [] ||
    var n := k.Poll(rounds[0].results);
    OnlyNamedBy(n.WakeFresh(), rounds[0].script, p, f) && OnlyNamed(n.Postpoll(rounds[0].script).k, rounds[1..], p, f)
  }

  lemma {:induction false} PostpollWatched(k: Kernel, script: seq<Execution>, p: nat, f: nat)
    requires k.Inv() && Watched(k, p, f) && OnlyNamedBy(k.WakeFresh(), script, p, f)
    ensures Watched(k.Postpoll(script).k, p, f)
  {
    WakeWatched(k, p, f);
    WakeFreshWakes(k);
    RunAllWatched(k.WakeFresh(), script, p, f);
  }

  lemma {:induction false} LoopWatched(k: Kernel, rounds: seq<Round>, p: nat, f: nat)
    requires k.Inv() && k.freshFds == [] && Answered(k, rounds) && Watched(k, p, f) && OnlyNamed(k, rounds, p, f)
    ensures Watched(Loop(k, rounds).k, p, f)
    decreases |rounds|
  {
    if rounds != [] {
      PollWatched(k, rounds[0].results, p, f);
      PollKeeps(k, rounds[0].results);
      RoundSettles(k, rounds[0]);
      PostpollWatched(k.Poll(rounds[0].results), rounds[0].script, p, f);
      LoopWatched(k.Poll(rounds[0].results).Postpoll(rounds[0].script).k, rounds[1..], p, f);
    }
  }

  /** Processes that start are about to run. */
  lemma {:induction false} SpawnWatched(k: Kernel, ps: seq<nat>, p: nat, f: nat)
    requires k.Inv() && Watched(k, p, f)
    ensures Watched(k.SpawnAll(ps), p, f)
  {
    SpawnAllKeeps(k, |k.procs|, ps);
    SpawnAllFds(k, ps);
    var n := k.SpawnAll(ps);
    assert k.Settled(p) && n.Settled(p);
    assert k.procs[p].runQed ==> p in k.runProcs;
  }

  /** What is watched while nothing runs is polled exactly if the last socket asks for something. */
  lemma {:induction false} WatchedIsPolled(k: Kernel, p: nat, f: nat)
    requires k.Inv() && k.runProcs == [] && k.freshFds == [] && Watched(k, p, f)
    requires LastAsk(k.procs[p].regs, f).Some?
    ensures var ask := LastAsk(k.procs[p].regs, f).value;
      HeldFor(k.fds[f], p, f, ask) && (f in k.PollArray(k.dirtyFds) <==> ask != {})
  {
    assert k.Settled(p) && k.FdOk(f);
    assert p !in k.runProcs && f !in k.freshFds;
    PollArrayIs(k, k.dirtyFds, f);
  }

  /**
   Over every run from boot, for every process `p` and every descriptor `f` on which no other process
   leaves a socket blocked: wherever the loop waits, if `p` has sockets blocked on `f`, it is registered for
   what the last of them asks, and it is in the next poll array exactly if that is anything.
   */
  lemma {:induction false} AlwaysRegistered(
    procCount: nat, fdCount: nat, spawn: seq<nat>, first: seq<Execution>, rounds: seq<Round>, p: nat, f: nat)
    requires var b := Booted(procCount, fdCount).SpawnAll(spawn);
      && b.Postpoll(first).complete && Answered(b.Postpoll(first).k, rounds)
      && OnlyNamedBy(b.WakeFresh(), first, p, f) && OnlyNamed(b.Postpoll(first).k, rounds, p, f)
    requires p < procCount && f < fdCount
    ensures var l := Loop(Booted(procCount, fdCount).SpawnAll(spawn).Postpoll(first).k, rounds);
      && p < |l.k.procs| && f < |l.k.fds|
      && (l.end == Waiting && LastAsk(l.k.procs[p].regs, f).Some? ==>
            var ask := LastAsk(l.k.procs[p].regs, f).value;
            HeldFor(l.k.fds[f], p, f, ask) && (f in l.k.PollArray(l.k.dirtyFds) <==> ask != {}))
  {
    var b := Booted(procCount, fdCount);
    SpawnAllKeeps(b, |b.procs|, spawn);
    SpawnWatched(b, spawn, p, f);
    var s := b.SpawnAll(spawn);
    PostpollKeeps(s, first);
    PostpollWatched(s, first, p, f);
    var k := s.Postpoll(first).k;
    LoopWatched(k, rounds, p, f);
    WaitsIdle(k, rounds);
    LoopExits(k, rounds);
    var l := Loop(k, rounds);
    if l.end == Waiting && LastAsk(l.k.procs[p].regs, f).Some? {
      WatchedIsPolled(l.k, p, f);
    }
  }

  /** The loop waits only when nothing is left to run. */
  lemma {:induction false} WaitsIdle(k: Kernel, rounds: seq<Round>)
    requires k.Inv() && k.freshFds == [] && k.runProcs == [] && Answered(k, rounds)
    ensures Loop(k, rounds).end == Waiting ==> Loop(k, rounds).k.runProcs == []
    decreases |rounds|
  {
    if rounds != [] {
      RoundSettles(k, rounds[0]);
      var pass := k.Poll(rounds[0].results).Postpoll(rounds[0].script);
      if pass.complete {
        WaitsIdle(pass.k, rounds[1..]);
      }
    }
  }
}
