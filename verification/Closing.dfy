/**
 What becomes of descriptors and processes at the ends of their lives: a close that is asked for is done by
 the next poll, the descriptors of a process that ends are closed by it too, and a process that is started
 is live and queued.
 */
module Closing {
  import opened SList
  import opened Process
  import opened Kernel
  import opened KernelInv
  import opened KernelRun
  import opened Registration
  import opened Watch

  // ---- closing ----

  /** A close is asked for: both directions are to be closed, or the process is gone. */
  predicate AsksClose(x: Fd) {
    x.zombie || (x.pre.rxClosed && x.pre.txClosed)
  }

  /**
   What cleaning leaves of `x`. A close that is asked for is done, and is marked in both directions of what
   the owner reads; there is nothing to poll for, and the owner is told if it is still there.
   */
  function Cleaned(x: Fd): Fd {
    var y := if x.zombie then x.(dirtyQed := false, freshQed := false) else x;
    if !x.closed && AsksClose(x) then
      y.(closed := true, dirtyQed := false, freshQed := y.freshQed || !x.zombie,
         post := x.post.(rxClosed := true, txClosed := true),
         ret := x.ret.(rxClosed := true, txClosed := true))
    else y
  }

  lemma {:induction false} CleanIs(k: Kernel, f: nat)
    requires f < |k.fds|
    ensures k.Clean(f).fds == k.fds[f := Cleaned(k.fds[f])]
  {
    var d := k.DropZombie(f);
    assert k.fds == k.fds[f := k.fds[f]];
    if d.Closes(f) {
      var l := d.MarkClosed(f).DropDirty(f);
      assert l.fds[f].zombie == k.fds[f].zombie;
    }
  }

  /** The first loop of the poll cleans every dirty descriptor. */
  lemma {:induction false} PrepareAllCloses(k: Kernel, walk: seq<nat>, f: nat)
    requires k.FdSide() && Distinct(walk) && f in walk
    requires forall g: nat | g in walk :: g < |k.fds| && k.fds[g].dirtyQed
    requires AsksClose(k.fds[f])
    ensures k.PrepareAll(walk).fds[f] == Cleaned(k.fds[f])
    decreases |walk|
  {
    PrepareFirst(k, walk);
    var n := k.Prepare(walk[0]);
    if f == walk[0] {
      CleanIs(k, f);
      PrepareAllKeeps(n, walk[1..]);
    } else {
      PrepareAllCloses(n, walk[1..], f);
    }
  }

  /** A close that is asked for is done by the next poll, which does not wait for the descriptor. */
  lemma {:induction false} PollCloses(k: Kernel, results: seq<set<PollBit>>, f: nat)
    requires k.Inv() && |results| == |k.PollArray(k.dirtyFds)|
    requires f < |k.fds| && k.fds[f].dirtyQed && AsksClose(k.fds[f])
    ensures k.Poll(results).fds[f] == Cleaned(k.fds[f]) && f !in k.PollArray(k.dirtyFds)
  {
    assert f in k.dirtyFds;
    PrepareAllCloses(k, k.dirtyFds, f);
    PollReady(k);
    PollArrayIs(k, k.dirtyFds, f);
    ProcessAllReports(k.PrepareAll(k.dirtyFds), k.PollArray(k.dirtyFds), results);
  }

  /** If its process lives, that process is dispatched next and finds the close. */
  lemma {:induction false} CloseReachesProcess(k: Kernel, results: seq<set<PollBit>>, script: seq<Execution>, f: nat)
    requires k.Inv() && |results| == |k.PollArray(k.dirtyFds)|
    requires f < |k.fds| && k.fds[f].dirtyQed && AsksClose(k.fds[f]) && !k.fds[f].closed && !k.fds[f].zombie
    ensures var pass := k.Poll(results).Postpoll(script);
      && k.SameShape(pass.k) && pass.k.fds[f].ret.rxClosed && pass.k.fds[f].ret.txClosed
      && (pass.complete ==> k.fds[f].procId in pass.dispatched)
  {
    PollCloses(k, results, f);
    PollKeeps(k, results);
    var n := k.Poll(results);
    WakeFreshWakes(n);
    RunAllDispatches(n.WakeFresh(), script);
  }

  // ---- the end of a process ----

  /** Nobody has the descriptor, and the next poll closes it if it is not closed yet. */
  predicate Buried(x: Fd) {
    !x.inUse && x.dirtyQed && (x.closed || AsksClose(x))
  }

  lemma {:induction false} BuryAllBuries(k: Kernel, p: nat, walk: seq<nat>, f: nat)
    requires k.FdSide() && p < |k.procs| && k.freshFds == []
    requires walk == k.procs[p].fds && f in walk
    ensures f < |k.fds| && Buried(k.BuryAll(p, walk).fds[f])
    decreases |walk|
  {
    assert k.ListOk(p);
    BuryKeeps(k, p, walk[0]);
    if f == walk[0] {
      BuryOthers(k.Bury(p, f), p, walk[1..], f);
    } else {
      BuryAllBuries(k.Bury(p, walk[0]), p, walk[1..], f);
    }
  }

  /** Registering releases a descriptor that is closed, and leaves any other on the list. */
  lemma {:induction false} ReleaseClosedIs(k: Kernel, p: nat, walk: seq<nat>, f: nat)
    requires k.FdSide() && p < |k.procs| && k.freshFds == []
    requires Distinct(walk) && (forall g :: g in walk ==> g in k.procs[p].fds) && f in walk
    ensures f < |k.fds|
    ensures var n := k.ReleaseClosed(p, walk);
      if k.fds[f].closed then Buried(n.fds[f]) else n.fds[f] == k.fds[f] && f in n.procs[p].fds
    decreases |walk|
  {
    var g := walk[0];
    assert g in walk && k.ListOk(p);
    if k.fds[g].closed {
      ReleaseOneKeeps(k, p, g);
      WithoutMembers(k.procs[p].fds, g);
    }
    if f == g {
      ReleaseAfter(k, p, walk, f);
    } else {
      ReleaseClosedIs(if k.fds[g].closed then k.EnqueueDirty(g).DeallocateFd(p, g) else k, p, walk[1..], f);
    }
  }

  lemma {:induction false} ReleaseAfter(k: Kernel, p: nat, walk: seq<nat>, f: nat)
    requires k.FdSide() && p < |k.procs| && k.freshFds == [] && Distinct(walk) && walk != [] && walk[0] == f
    requires forall g :: g in walk ==> g in k.procs[p].fds
    ensures f < |k.fds|
    ensures var n := k.ReleaseClosed(p, walk);
      if k.fds[f].closed then Buried(n.fds[f]) else n.fds[f] == k.fds[f] && f in n.procs[p].fds
  {
    assert f in walk && k.ListOk(p);
    var n := if k.fds[f].closed then k.EnqueueDirty(f).DeallocateFd(p, f) else k;
    if k.fds[f].closed {
      ReleaseOneKeeps(k, p, f);
      WithoutMembers(k.procs[p].fds, f);
    }
    ReleaseOthers(n, p, walk[1..], f);
    ReleaseClosedKeeps(n, p, walk[1..]);
    assert n.ReleaseClosed(p, walk[1..]).Held(f);
  }

  /** A process that leaves no socket blocked leaves no descriptor behind. */
  lemma {:induction false} DispatchBuries(k: Kernel, p: nat, ex: Execution, f: nat)
    requires k.FdSide() && k.ProcSide(p) && k.freshFds == [] && p < |k.procs| && k.procs[p].live
    requires ex.regs == [] && f in k.procs[p].fds
    ensures f < |k.fds| && Buried(k.Dispatch(p, ex).fds[f])
  {
    var b := BeforePrepoll(k, p, ex);
    ListStays(k, p, ex, b);
    assert b.ListOk(p);
    ReleaseClosedIs(b, p, b.procs[p].fds, f);
    ExecutedKeeps(k, p, ex);
    var e := k.Executed(p, ex);
    assert e == b.ReleaseClosed(p, b.procs[p].fds);
    FlushPlaces(e, p);
    FlushKeeps(e, p);
    var n := e.Flush(p);
    if f in n.procs[p].fds {
      BuryAllBuries(n, p, n.procs[p].fds, f);
    } else {
      BuryOthers(n, p, n.procs[p].fds, f);
    }
  }

  lemma {:induction false} ListStays(k: Kernel, p: nat, ex: Execution, b: Kernel)
    requires k.FdSide() && k.ProcSide(p) && p < |k.procs| && k.procs[p].live
    requires b == k.Left(p, ex.regs).SpawnAll(ex.spawn)
    ensures k.SameShape(b) && b.procs[p].fds == k.procs[p].fds
  {
    EnterKeeps(k, p, ex);
    SpawnAllKeeps(k.Left(p, ex.regs), p, ex.spawn);
  }

  // ---- over a pass ----

  /** The first dispatch of `p` leaves none of its sockets blocked: it ends. */
  predicate Ends(k: Kernel, script: seq<Execution>, p: nat)
    decreases |script|
  {
    && k.runProcs != [] && script != []
    && if k.runProcs[0] == p then script[0].regs == []
       else Ends(k.DequeueRun().Dispatch(k.runProcs[0], script[0]), script[1..], p)
  }

  /** No other dispatch leaves a socket blocked on `f`. */
  predicate Unnamed(script: seq<Execution>, f: nat) {
    forall j: nat | j < |script| :: LastAsk(script[j].regs, f).None?
  }

  /** A buried descriptor stays buried until somebody names it. */
  lemma {:induction false} StaysBuried(k: Kernel, script: seq<Execution>, f: nat)
    requires k.Inv() && k.freshFds == [] && f < |k.fds| && !k.fds[f].inUse && Unnamed(script, f)
    ensures k.SameShape(k.RunAll(script).k) && k.RunAll(script).k.fds[f] == k.fds[f]
    decreases |script|
  {
    if k.runProcs != [] && script != [] {
      var q, d := k.runProcs[0], k.DequeueRun();
      DequeuedFirst(k);
      UnusedOthers(d, q, script[0], f);
      RunFirstKeeps(k, script[0]);
      StaysBuried(d.Dispatch(q, script[0]), script[1..], f);
    }
  }

  lemma {:induction false} UnusedOthers(k: Kernel, q: nat, ex: Execution, f: nat)
    requires k.FdSide() && k.ProcSide(q) && k.freshFds == [] && q < |k.procs| && k.procs[q].live
    requires f < |k.fds| && !k.fds[f].inUse && LastAsk(ex.regs, f).None?
    ensures k.Dispatch(q, ex).fds[f] == k.fds[f]
  {
    var b := BeforePrepoll(k, q, ex);
    UnusedPrepoll(b, q, f);
    ExecutedKeeps(k, q, ex);
    var e := k.Executed(q, ex);
    FlushKeeps(e, q);
    var n := e.Flush(q);
    assert n.ListOk(q);
    BuryOthers(n, q, n.procs[q].fds, f);
  }

  lemma {:induction false} UnusedPrepoll(k: Kernel, q: nat, f: nat)
    requires k.FdSide() && q < |k.procs| && f < |k.fds| && !k.fds[f].inUse && LastAsk(k.procs[q].regs, f).None?
    ensures k.Prepoll(q).fds[f] == k.fds[f]
  {
    assert k.ListOk(q);
    ReleaseOthers(k, q, k.procs[q].fds, f);
    RegisterOthers(k.ReleaseClosed(q, k.procs[q].fds), q, k.procs[q].regs, f);
  }

  lemma {:induction false} StillListed(k: Kernel, q: nat, ex: Execution, p: nat, f: nat)
    requires k.FdSide() && k.ProcSide(q) && k.freshFds == [] && q < |k.procs| && k.procs[q].live
    requires p < |k.procs| && q != p && f in k.procs[p].fds && LastAsk(ex.regs, f).None?
    ensures f in k.Dispatch(q, ex).procs[p].fds
  {
    assert k.ListOk(p);
    DispatchOthers(k, q, ex, p, f);
    DispatchKeeps(k, q, ex);
    assert k.Dispatch(q, ex).Held(f);
  }

  /** A pass in which a process ends buries its descriptors, those named by others excepted. */
  lemma {:induction false} PassBuries(k: Kernel, script: seq<Execution>, p: nat, f: nat)
    requires k.Inv() && k.freshFds == [] && Ends(k, script, p) && Unnamed(script, f)
    requires p < |k.procs| && f in k.procs[p].fds
    ensures f < |k.fds| && k.SameShape(k.RunAll(script).k) && Buried(k.RunAll(script).k.fds[f])
    decreases |script|
  {
    var q, d := k.runProcs[0], k.DequeueRun();
    DequeuedFirst(k);
    RunFirstKeeps(k, script[0]);
    var n := d.Dispatch(q, script[0]);
    if q == p {
      DispatchBuries(d, p, script[0], f);
      StaysBuried(n, script[1..], f);
    } else {
      StillListed(d, q, script[0], p, f);
      PassBuries(n, script[1..], p, f);
    }
  }

  /**
   Over every pass: when a process ends, every descriptor it has is closed by the poll that follows and is
   free for others, unless another process names it first.
   */
  lemma {:induction false} EndedIsClosed(
      k: Kernel, script: seq<Execution>, results: seq<set<PollBit>>, p: nat, f: nat)
    requires k.Inv() && k.freshFds == [] && Ends(k, script, p) && Unnamed(script, f)
    requires p < |k.procs| && f in k.procs[p].fds
    requires var n := k.RunAll(script).k; |results| == |n.PollArray(n.dirtyFds)|
    ensures var n := k.RunAll(script).k.Poll(results);
      && k.SameShape(n) && f < |k.fds|
      && n.fds[f].closed && !n.fds[f].inUse && !n.fds[f].freshQed
  {
    PassBuries(k, script, p, f);
    RunAllDispatches(k, script);
    var n := k.RunAll(script).k;
    PollKeeps(n, results);
    assert n.FdOk(f);
    if AsksClose(n.fds[f]) {
      PollCloses(n, results, f);
    } else {
      ClosedStays(n, results, f);
    }
    assert n.Poll(results).FdOk(f);
  }

  /** Polling opens nothing. */
  lemma {:induction false} ClosedStays(k: Kernel, results: seq<set<PollBit>>, f: nat)
    requires k.Inv() && |results| == |k.PollArray(k.dirtyFds)|
    requires f < |k.fds| && k.fds[f].dirtyQed && !k.fds[f].inUse && k.fds[f].closed && !AsksClose(k.fds[f])
    ensures k.Poll(results).fds[f].closed
  {
    assert f in k.dirtyFds;
    PrepareAllLeaves(k, k.dirtyFds, f);
    PollReady(k);
    PollArrayIs(k, k.dirtyFds, f);
    ProcessAllReports(k.PrepareAll(k.dirtyFds), k.PollArray(k.dirtyFds), results);
  }

  lemma {:induction false} PrepareAllLeaves(k: Kernel, walk: seq<nat>, f: nat)
    requires f < |k.fds| && k.fds[f].closed
    ensures k.PrepareAll(walk).fds[f].closed
    decreases |walk|
  {
    if walk != [] {
      if walk[0] < |k.fds| {
        CleanIs(k, walk[0]);
      }
      PrepareAllLeaves(k.Prepare(walk[0]), walk[1..], f);
    }
  }

  // ---- the start of a process ----

  /** A process that is started is live and queued to run; one that lives already is left alone. */
  lemma {:induction false} SpawnStarts(k: Kernel, q: nat)
    requires q < |k.procs|
    ensures var n := k.Spawn(q);
      if k.procs[q].live then n == k else n.procs[q].live && n.procs[q].localRun && n.procs[q].runQed
    ensures forall p: nat | p < |k.procs| && p != q :: k.Spawn(q).procs[p] == k.procs[p]
  {
  }

  /** All that a process starts are, whatever the order. */
  lemma {:induction false} SpawnAllStarts(k: Kernel, qs: seq<nat>, q: nat)
    requires q < |k.procs|
    ensures var n := k.SpawnAll(qs);
      if k.procs[q].live || q !in qs then n.procs[q] == k.procs[q]
      else n.procs[q].live && n.procs[q].localRun && n.procs[q].runQed
    decreases |qs|
  {
    if qs != [] {
      if qs[0] < |k.procs| {
        SpawnStarts(k, qs[0]);
      }
      SpawnAllStarts(k.Spawn(qs[0]), qs[1..], q);
    }
  }

  /** So the pass in which it is started dispatches it. */
  lemma {:induction false} StartedIsDispatched(k: Kernel, p: nat, ex: Execution, script: seq<Execution>, q: nat)
    requires k.FdSide() && k.ProcSide(p) && k.freshFds == [] && p < |k.procs| && k.procs[p].live
    requires q < |k.procs| && q != p && !k.procs[q].live && q in ex.spawn
    ensures var n := k.Dispatch(p, ex);
      && n.procs[q].live && q in n.runProcs
      && (n.RunAll(script).complete ==> q in n.RunAll(script).dispatched)
  {
    EnterKeeps(k, p, ex);
    var m := k.Left(p, ex.regs);
    SpawnAllKeeps(m, p, ex.spawn);
    SpawnAllStarts(m, ex.spawn, q);
    DispatchStarted(k, p, ex, q);
    DispatchKeeps(k, p, ex);
    RunAllDispatches(k.Dispatch(p, ex), script);
  }

  /** The rest of the dispatch leaves it started. */
  lemma {:induction false} DispatchStarted(k: Kernel, p: nat, ex: Execution, q: nat)
    requires k.FdSide() && k.ProcSide(p) && k.freshFds == [] && p < |k.procs| && k.procs[p].live
    requires q < |k.procs| && q != p && k.Left(p, ex.regs).SpawnAll(ex.spawn).procs[q].live
    requires k.Left(p, ex.regs).SpawnAll(ex.spawn).procs[q].runQed
    ensures k.Dispatch(p, ex).procs[q].live && q in k.Dispatch(p, ex).runProcs
  {
    var b := BeforePrepoll(k, p, ex);
    EnterKeeps(k, p, ex);
    SpawnAllKeeps(k.Left(p, ex.regs), p, ex.spawn);
    PrepollKeeps(b, p);
    var e := b.Prepoll(p);
    ProcSideOfFds(b, e, p);
    ExecutedKeeps(k, p, ex);
    FlushKeeps(e, p);
    FlushPlaces(e, p);
    var n := e.Flush(p);
    if n.IsZombie(p) {
      FreeKeeps(n, p);
    }
  }
}
