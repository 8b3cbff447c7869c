/**
 Whole passes of the kernel loop: what a dispatch settles, where a complete pass leaves every process,
 and how an event reported by the poller reaches the process that owns the descriptor.
 */
module KernelRun {
  import opened SList
  import opened Process
  import opened Kernel
  import opened KernelInv

  // ---- dispatch ----

  /** Dispatching frees the process exactly when its execution left no socket blocked. */
  lemma {:induction false} DispatchKeeps(k: Kernel, p: nat, ex: Execution)
    requires k.FdSide() && k.ProcSide(p) && k.freshFds == [] && p < |k.procs| && k.procs[p].live
    ensures k.Dispatch(p, ex).Inv() && Elsewhere(k, k.Dispatch(p, ex), p)
    ensures k.Dispatch(p, ex).procs[p].regs == ex.regs
    ensures k.Dispatch(p, ex).procs[p].live <==> ex.regs != []
    ensures p !in k.runProcs && ex.spawn == [] ==> k.Dispatch(p, ex).runProcs == k.runProcs
  {
    ExecutedKeeps(k, p, ex);
    var e := k.Executed(p, ex);
    FlushPlaces(e, p);
    FlushKeeps(e, p);
    var n := e.Flush(p);
    WithoutMembers(e.runProcs, p);
    ElsewhereTwice(k, e, n, p);
    if n.IsZombie(p) {
      FreeKeeps(n, p);
      ElsewhereTwice(k, n, n.Free(p), p);
    } else {
      assert n.Settled(p);
    }
  }

  /** Every descriptor that is fresh wakes the live process it is allocated to. */
  lemma {:induction false} WakeFreshWakes(k: Kernel)
    requires k.Inv()
    ensures var n := k.WakeFresh();
      && n.Inv() && n.freshFds == []
      && (forall f: nat | f < |k.fds| ::
            n.fds[f] == k.fds[f].(freshQed := false)
            && (k.fds[f].freshQed ==> k.fds[f].procId in n.runProcs && k.procs[k.fds[f].procId].live))
      && (forall p: nat | p in k.runProcs :: p in n.runProcs)
      && forall p: nat | p < |k.procs| :: n.procs[p] == k.procs[p].(runQed := n.procs[p].runQed)
    decreases |k.freshFds|
  {
    if k.freshFds != [] {
      var f := k.freshFds[0];
      assert f in k.freshFds && k.FdOk(f);
      WakeOneKeeps(k);
      var n := k.DequeueFresh().EnqueueRun(k.fds[f].procId);
      assert n.freshFds == k.freshFds[1..];
      assert k.fds[f].procId in n.runProcs;
      WakeFreshWakes(n);
      assert forall p: nat | p in k.runProcs :: p in n.runProcs;
    } else {
      assert forall f: nat | f < |k.fds| :: k.fds[f].freshQed ==> f in k.freshFds;
    }
  }

  lemma {:induction false} WakeOneKeeps(k: Kernel)
    requires k.Inv() && k.freshFds != [] && k.freshFds[0] < |k.fds|
    requires k.fds[k.freshFds[0]].procId < |k.procs| && k.procs[k.fds[k.freshFds[0]].procId].live
    ensures var n := k.DequeueFresh().EnqueueRun(k.fds[k.freshFds[0]].procId);
      && n.Inv() && n.procs[k.fds[k.freshFds[0]].procId].runQed
      && (forall p: nat | p in k.runProcs :: p in n.runProcs)
      && n.fds == k.fds[k.freshFds[0] := k.fds[k.freshFds[0]].(freshQed := false)]
      && n.freshFds == k.freshFds[1..]
      && forall p: nat | p < |k.procs| :: n.procs[p] == k.procs[p].(runQed := n.procs[p].runQed)
  {
    var f, p := k.freshFds[0], k.fds[k.freshFds[0]].procId;
    var d := k.DequeueFresh();
    DequeueFreshKeeps(k);
    ProcSideOfFds(k, d, |k.procs|);
    RunQueueSteps(d, p);
    var n := d.EnqueueRun(p);
    FdSideOfProcs(d, n);
    forall q: nat | q < |k.procs|
      ensures n.Settled(q)
    {
      assert d.Settled(q);
    }
  }

  lemma {:induction false} DequeueFreshKeeps(k: Kernel)
    requires k.FdSide() && k.freshFds != []
    ensures k.DequeueFresh().FdSide()
  {
    var n := k.DequeueFresh();
    DequeueFreshListOk(k);
    OwnedUpTo(k, n);
    forall f: nat | f < |k.fds|
      ensures n.FdOk(f)
    {
      assert k.FdOk(f);
    }
  }

  // ---- a pass over the run list ----

  /** The first process of the run list is taken off to be dispatched. */
  lemma {:induction false} DequeuedFirst(k: Kernel)
    requires k.Inv() && k.freshFds == [] && k.runProcs != []
    ensures var p, d := k.runProcs[0], k.DequeueRun();
      && p < |k.procs| && d.procs[p].live && d.FdSide() && d.ProcSide(p) && k.SameReports(d) && d.freshFds == []
      && d.runProcs == k.runProcs[1..] && p !in d.runProcs
      && (forall q: nat | q in k.runProcs && q != p :: q in d.runProcs)
      && forall q: nat | q < |k.procs| :: d.procs[q] == k.procs[q].(runQed := d.procs[q].runQed)
  {
    DequeueRunKeeps(k);
    FdSideOfProcs(k, k.DequeueRun());
    assert k.runProcs == [k.runProcs[0]] + k.runProcs[1..];
  }

  /** The first process of the run list is dispatched. */
  lemma {:induction false} RunFirstKeeps(k: Kernel, ex: Execution)
    requires k.Inv() && k.freshFds == [] && k.runProcs != []
    ensures var p, n := k.runProcs[0], k.DequeueRun().Dispatch(k.runProcs[0], ex);
      && n.Inv() && k.SameReports(n)
      && (forall q: nat | q in k.runProcs && q != p :: q in n.runProcs)
      && (ex.spawn == [] ==> n.runProcs == k.runProcs[1..])
      && p !in k.runProcs[1..] && p < |k.procs|
      && n.procs[p].regs == ex.regs
      && forall q: nat | q < |k.procs| && q != p :: n.procs[q].regs == k.procs[q].regs
  {
    DequeuedFirst(k);
    DispatchKeeps(k.DequeueRun(), k.runProcs[0], ex);
  }

  /** The pass after its first dispatch. */
  lemma {:induction false} RunFirst(k: Kernel, script: seq<Execution>) returns (n: Kernel)
    requires k.Inv() && k.freshFds == [] && k.runProcs != [] && script != []
    ensures k.RunAll(script) == n.RunAll(script[1..]).(dispatched := [k.runProcs[0]] + n.RunAll(script[1..]).dispatched)
    ensures n.Inv() && k.SameReports(n)
    ensures forall q: nat | q in k.runProcs && q != k.runProcs[0] :: q in n.runProcs
    ensures script[0].spawn == [] ==> n.runProcs == k.runProcs[1..]
    ensures k.runProcs[0] !in k.runProcs[1..] && k.runProcs[0] < |k.procs|
    ensures n.procs[k.runProcs[0]].regs == script[0].regs
    ensures forall q: nat | q < |k.procs| && q != k.runProcs[0] :: n.procs[q].regs == k.procs[q].regs
  {
    RunFirstKeeps(k, script[0]);
    n := k.DequeueRun().Dispatch(k.runProcs[0], script[0]);
  }

  /** Every process on the run list is dispatched, and reports stay in place until it reads them. */
  lemma {:induction false} RunAllDispatches(k: Kernel, script: seq<Execution>)
    requires k.Inv() && k.freshFds == []
    ensures var pass := k.RunAll(script);
      && pass.k.Inv() && k.SameReports(pass.k)
      && (pass.complete ==> pass.k.runProcs == [])
      && (pass.complete ==> forall p: nat | p in k.runProcs :: p in pass.dispatched)
    decreases |script|
  {
    if k.runProcs != [] && script != [] {
      var n := RunFirst(k, script);
      RunAllDispatches(n, script[1..]);
    }
  }

  /**
   When no execution starts a process, the run list is the measure of the pass: it completes exactly
   when the script covers the list, and each process is dispatched once, in list order.
   */
  lemma {:induction false} RunListMeasuresPass(k: Kernel, script: seq<Execution>)
    requires k.Inv() && k.freshFds == []
    requires forall i: nat | i < |script| :: script[i].spawn == []
    ensures var pass := k.RunAll(script);
      && (pass.complete <==> |k.runProcs| <= |script|)
      && (pass.complete ==> pass.dispatched == k.runProcs)
    decreases |script|
  {
    if k.runProcs != [] && script != [] {
      var n := RunFirst(k, script);
      RunListMeasuresPass(n, script[1..]);
    }
  }

  lemma {:induction false} OthersKeepSockets(k: Kernel, script: seq<Execution>, p: nat)
    requires k.Inv() && k.freshFds == [] && p < |k.procs| && p !in k.runProcs
    requires forall i: nat | i < |script| :: script[i].spawn == []
    ensures k.SameShape(k.RunAll(script).k) && k.RunAll(script).k.procs[p].regs == k.procs[p].regs
    decreases |script|
  {
    if k.runProcs != [] && script != [] {
      var n := RunFirst(k, script);
      OthersKeepSockets(n, script[1..], p);
    }
  }

  /** After the first dispatch nothing moves the sockets that it left blocked. */
  lemma {:induction false} FirstDecidesSockets(k: Kernel, script: seq<Execution>)
    requires k.Inv() && k.freshFds == [] && k.runProcs != [] && script != []
    requires forall j: nat | j < |script| :: script[j].spawn == []
    ensures k.SameShape(k.RunAll(script).k) && k.runProcs[0] < |k.procs|
    ensures k.RunAll(script).k.procs[k.runProcs[0]].regs == script[0].regs
  {
    var n := RunFirst(k, script);
    OthersKeepSockets(n, script[1..], k.runProcs[0]);
  }

  /** The rest of a pass that starts no process. */
  lemma {:induction false} RunRest(k: Kernel, script: seq<Execution>) returns (n: Kernel)
    requires k.Inv() && k.freshFds == [] && k.runProcs != [] && script != [] && script[0].spawn == []
    ensures n.Inv() && n.freshFds == [] && n.runProcs == k.runProcs[1..] && k.SameShape(n)
    ensures k.RunAll(script).k == n.RunAll(script[1..]).k
  {
    n := RunFirst(k, script);
  }

  lemma {:induction false} ExecutionDecidesSockets(k: Kernel, script: seq<Execution>, i: nat)
    requires k.Inv() && k.freshFds == []
    requires forall j: nat | j < |script| :: script[j].spawn == []
    requires i < |k.runProcs| <= |script|
    ensures k.SameShape(k.RunAll(script).k) && k.runProcs[i] < |k.procs|
    ensures k.RunAll(script).k.procs[k.runProcs[i]].regs == script[i].regs
    decreases |script|
  {
    if i == 0 {
      FirstDecidesSockets(k, script);
    } else {
      var n := RunRest(k, script);
      assert k.runProcs[i] == n.runProcs[i - 1] && script[i] == script[1..][i - 1];
      ExecutionDecidesSockets(n, script[1..], i - 1);
    }
  }

  /** In such a pass a process lives on exactly when its own execution left a socket blocked. */
  lemma {:induction false} ExecutionDecidesLife(k: Kernel, script: seq<Execution>, i: nat)
    requires k.Inv() && k.freshFds == []
    requires forall j: nat | j < |script| :: script[j].spawn == []
    requires i < |k.runProcs| <= |script|
    ensures var n := k.RunAll(script).k;
      && k.SameShape(n) && k.runProcs[i] < |k.procs|
      && (n.procs[k.runProcs[i]].live <==> script[i].regs != [])
  {
    ExecutionDecidesSockets(k, script, i);
    RunListMeasuresPass(k, script);
    RunAllDispatches(k, script);
    PassSettles(k.RunAll(script).k);
  }

  /** With the run list empty, the live processes are the blocked ones: those with a blocked socket. */
  lemma {:induction false} PassSettles(k: Kernel)
    requires k.Inv() && k.runProcs == []
    ensures forall p: nat | p < |k.procs| ::
      (k.procs[p].live <==> p in k.blockedProcs) && (p in k.blockedProcs <==> k.procs[p].regs != [])
    ensures k.Pending() <==> exists p: nat :: p < |k.procs| && k.procs[p].regs != []
  {
    forall p: nat | p < |k.procs|
      ensures k.procs[p].live <==> p in k.blockedProcs
      ensures p in k.blockedProcs <==> k.procs[p].regs != []
    {
      assert k.Settled(p) && p !in k.runProcs;
    }
    if k.blockedProcs != [] {
      assert k.blockedProcs[0] in k.blockedProcs;
    }
  }

  // ---- the poll driver ----

  /** Polling moves nothing between processes. */
  ghost predicate SameHolders(k: Kernel, n: Kernel) {
    && k.SameShape(n)
    && n.procs == k.procs && n.runProcs == k.runProcs && n.blockedProcs == k.blockedProcs
    && forall f: nat | f < |k.fds| ::
      && n.fds[f].inUse == k.fds[f].inUse && n.fds[f].procId == k.fds[f].procId
      && n.fds[f].zombie == k.fds[f].zombie
      && (k.fds[f].freshQed && !k.fds[f].zombie ==> n.fds[f].freshQed)
  }

  /** A dirty descriptor that is polled: it is in use, its close is not requested, and it asks for events. */
  predicate Asks(k: Kernel, f: nat) {
    && f < |k.fds|
    && !k.fds[f].closed && !k.fds[f].zombie && !(k.fds[f].pre.rxClosed && k.fds[f].pre.txClosed)
    && k.fds[f].pre.events != {}
  }

  lemma {:induction false} DropDirtyKeeps(k: Kernel, f: nat)
    requires k.FdSide() && f < |k.fds|
    ensures var n := k.DropDirty(f);
      && n.FdSide() && f !in n.dirtyFds
      && n == k.(dirtyFds := n.dirtyFds, fds := k.fds[f := k.fds[f].(dirtyQed := false)])
  {
    DirtyQueueSteps(k, f);
    var n := k.DropDirty(f);
    OwnedUpTo(k, n);
    forall g: nat | g < |k.fds|
      ensures n.FdOk(g)
    {
      assert k.FdOk(g);
    }
  }

  lemma {:induction false} DropFreshKeeps(k: Kernel, f: nat)
    requires k.FdSide() && f < |k.fds|
    ensures var n := k.DropFresh(f);
      && n.FdSide() && n == k.(freshFds := n.freshFds, fds := k.fds[f := k.fds[f].(freshQed := false)])
  {
    FreshQueueSteps(k, f);
    var n := k.DropFresh(f);
    OwnedUpTo(k, n);
    forall g: nat | g < |k.fds|
      ensures n.FdOk(g)
    {
      assert k.FdOk(g);
    }
  }

  lemma {:induction false} EnqueueFreshKeeps(k: Kernel, f: nat)
    requires k.FdSide() && f < |k.fds| && k.fds[f].inUse
    ensures var n := k.EnqueueFresh(f);
      && n.FdSide() && n == k.(freshFds := n.freshFds, fds := k.fds[f := k.fds[f].(freshQed := true)])
  {
    FreshQueueSteps(k, f);
    var n := k.EnqueueFresh(f);
    OwnedUpTo(k, n);
    forall g: nat | g < |k.fds|
      ensures n.FdOk(g)
    {
      assert k.FdOk(g);
    }
  }

  lemma {:induction false} MarkClosedKeeps(k: Kernel, f: nat)
    requires k.FdSide() && f < |k.fds|
    ensures k.MarkClosed(f).FdSide()
  {
    var n := k.MarkClosed(f);
    OwnedUpTo(k, n);
    forall g: nat | g < |k.fds|
      ensures n.FdOk(g)
    {
      assert k.FdOk(g);
    }
  }

  lemma {:induction false} CleanKeeps(k: Kernel, f: nat)
    requires k.FdSide() && f in k.dirtyFds && f < |k.fds|
    ensures k.Clean(f).FdSide()
    ensures var n := k.Clean(f);
      n == k.(fds := k.fds[f := n.fds[f]], dirtyFds := n.dirtyFds, freshFds := n.freshFds)
    ensures var x := k.Clean(f).fds[f];
      x == k.fds[f].(dirtyQed := x.dirtyQed, freshQed := x.freshQed, closed := x.closed, post := x.post, ret := x.ret)
    ensures k.fds[f].freshQed && !k.fds[f].zombie ==> k.Clean(f).fds[f].freshQed
    ensures k.Clean(f).Polls(f) <==> Asks(k, f)
  {
    assert k.FdOk(f);
    DropDirtyKeeps(k, f);
    DropFreshKeeps(k.DropDirty(f), f);
    var d := k.DropZombie(f);
    if d.Closes(f) {
      MarkClosedKeeps(d, f);
      DropDirtyKeeps(d.MarkClosed(f), f);
      var l := d.MarkClosed(f).DropDirty(f);
      if !l.fds[f].zombie {
        EnqueueFreshKeeps(l, f);
      }
    }
  }

  lemma {:induction false} PrepareKeeps(k: Kernel, f: nat)
    requires k.FdSide() && f in k.dirtyFds && f < |k.fds|
    ensures k.Prepare(f).FdSide() && SameHolders(k, k.Prepare(f))
    ensures forall g: nat | g < |k.fds| && g != f :: k.Prepare(f).fds[g] == k.fds[g]
    ensures k.Prepare(f).fds[f].pre == k.fds[f].pre
    ensures Asks(k, f) ==> k.fds[f].inUse && !k.fds[f].zombie && k.Prepare(f).fds[f].post == k.fds[f].pre
  {
    assert k.FdOk(f);
    CleanKeeps(k, f);
    FdSideUpTo(k.Clean(f), k.Prepare(f));
  }

  lemma {:induction false} PrepareAllKeeps(k: Kernel, walk: seq<nat>)
    requires k.FdSide() && Distinct(walk)
    requires forall g: nat | g in walk :: g < |k.fds| && k.fds[g].dirtyQed
    ensures k.PrepareAll(walk).FdSide() && SameHolders(k, k.PrepareAll(walk))
    ensures forall g: nat | g < |k.fds| && g !in walk :: k.PrepareAll(walk).fds[g] == k.fds[g]
    decreases |walk|
  {
    if walk != [] {
      assert walk[0] in walk && walk[0] in k.dirtyFds;
      PrepareKeeps(k, walk[0]);
      PrepareAllKeeps(k.Prepare(walk[0]), walk[1..]);
    }
  }

  lemma {:induction false} PrepareFirst(k: Kernel, walk: seq<nat>)
    requires k.FdSide() && Distinct(walk) && walk != []
    requires forall g: nat | g in walk :: g < |k.fds| && k.fds[g].dirtyQed
    ensures k.Prepare(walk[0]).FdSide()
    ensures forall g: nat | g in walk[1..] ::
      g != walk[0] && g < |k.fds| && k.Prepare(walk[0]).fds[g] == k.fds[g] && k.fds[g].dirtyQed
  {
    assert walk[0] in walk && walk[0] in k.dirtyFds;
    PrepareKeeps(k, walk[0]);
    assert forall g: nat | g in walk[1..] :: g in walk;
  }

  /** A descriptor is polled exactly if it is dirty and asks for events; it is then in use, and no zombie. */
  lemma {:induction false} PollArrayIs(k: Kernel, walk: seq<nat>, g: nat)
    requires k.FdSide() && Distinct(walk)
    requires forall f: nat | f in walk :: f < |k.fds| && k.fds[f].dirtyQed
    ensures g in k.PollArray(walk) <==> g in walk && Asks(k, g)
    ensures g in k.PollArray(walk) ==>
      k.fds[g].inUse && !k.fds[g].zombie && k.PrepareAll(walk).fds[g].post == k.fds[g].pre
    decreases |walk|
  {
    if walk != [] {
      PrepareFirst(k, walk);
      var n := k.Prepare(walk[0]);
      assert walk[0] in walk && walk[0] in k.dirtyFds;
      PrepareKeeps(k, walk[0]);
      CleanKeeps(k, walk[0]);
      PrepareAllKeeps(n, walk[1..]);
      PollArrayIs(n, walk[1..], g);
      assert g in walk <==> g == walk[0] || g in walk[1..];
    }
  }

  lemma {:induction false} PollArrayDistinct(k: Kernel, walk: seq<nat>)
    requires k.FdSide() && Distinct(walk)
    requires forall f: nat | f in walk :: f < |k.fds| && k.fds[f].dirtyQed
    ensures Distinct(k.PollArray(walk))
    decreases |walk|
  {
    if walk != [] {
      PrepareFirst(k, walk);
      var n := k.Prepare(walk[0]);
      PollArrayDistinct(n, walk[1..]);
      PollArrayIs(n, walk[1..], walk[0]);
      DistinctCons(walk[0], n.PollArray(walk[1..]));
      assert [] + n.PollArray(walk[1..]) == n.PollArray(walk[1..]);
    }
  }

  lemma {:induction false} DropReturnedKeeps(k: Kernel, f: nat)
    requires k.FdSide() && f < |k.fds|
    ensures k.DropReturned(f).FdSide()
    ensures var n := k.DropReturned(f);
      && n == k.(dirtyFds := n.dirtyFds, fds := k.fds[f := n.fds[f]])
      && n.fds[f] == k.fds[f].(pre := n.fds[f].pre, dirtyQed := n.fds[f].dirtyQed)
  {
    if k.fds[f].pre.events * k.fds[f].ret.revents == k.fds[f].pre.events {
      var drop := k.fds[f].ret.revents * k.fds[f].ret.events;
      var rest := (k.fds[f].pre.events - drop) + (drop - k.fds[f].pre.events);
      var m := k.SetFd(f, k.fds[f].(pre := k.fds[f].pre.(events := rest)));
      FdSideUpTo(k, m);
      DropDirtyKeeps(m, f);
    }
  }

  /** A polled descriptor with reported events becomes fresh and carries the report. */
  lemma {:induction false} ProcessFdReports(k: Kernel, f: nat, revents: set<PollBit>)
    requires k.FdSide() && f < |k.fds| && k.fds[f].inUse
    ensures var n := k.ProcessFd(f, revents);
      && n.FdSide() && SameHolders(k, n)
      && n.fds[f].ret.revents == revents
      && (revents != {} ==> n.fds[f].freshQed)
      && forall g: nat | g < |k.fds| && g != f :: n.fds[g] == k.fds[g]
  {
    var m := k.TakeReport(f, revents);
    FdSideUpTo(k, m);
    EnqueueFreshKeeps(m, f);
    DropReturnedKeeps(if revents != {} then m.EnqueueFresh(f) else m, f);
  }

  lemma {:induction false} ProcessAllReports(k: Kernel, polled: seq<nat>, results: seq<set<PollBit>>)
    requires k.FdSide() && Distinct(polled) && |results| == |polled|
    requires forall f: nat | f in polled :: f < |k.fds| && k.fds[f].inUse
    ensures var n := k.ProcessAll(polled, results);
      && n.FdSide() && SameHolders(k, n)
      && (forall g: nat | g < |k.fds| && g !in polled :: n.fds[g] == k.fds[g])
      && forall i: nat | i < |polled| && polled[i] < |k.fds| ::
        n.fds[polled[i]].ret.revents == results[i] && (results[i] != {} ==> n.fds[polled[i]].freshQed)
    decreases |polled|
  {
    if polled != [] {
      assert polled[0] in polled;
      assert polled == [polled[0]] + polled[1..];
      ProcessFdReports(k, polled[0], results[0]);
      assert forall g: nat | g in polled[1..] :: g in polled && g != polled[0];
      ProcessAllReports(k.ProcessFd(polled[0], results[0]), polled[1..], results[1..]);
      var n := k.ProcessAll(polled, results);
      forall i: nat | i < |polled| && polled[i] < |k.fds|
        ensures n.fds[polled[i]].ret.revents == results[i] && (results[i] != {} ==> n.fds[polled[i]].freshQed)
      {
        assert i > 0 ==> polled[i] == polled[1..][i - 1] && results[i] == results[1..][i - 1];
      }
    }
  }

  lemma {:induction false} PollReady(k: Kernel)
    requires k.Inv()
    ensures var n := k.PrepareAll(k.dirtyFds);
      && n.FdSide() && SameHolders(k, n)
      && Distinct(k.PollArray(k.dirtyFds))
      && forall f: nat | f in k.PollArray(k.dirtyFds) :: f < |k.fds| && n.fds[f].inUse
  {
    PrepareAllKeeps(k, k.dirtyFds);
    PollArrayDistinct(k, k.dirtyFds);
    forall f: nat | f in k.PollArray(k.dirtyFds)
      ensures f < |k.fds| && k.fds[f].inUse
    {
      PollArrayIs(k, k.dirtyFds, f);
    }
  }

  lemma {:induction false} PollKeeps(k: Kernel, results: seq<set<PollBit>>)
    requires k.Inv() && |results| == |k.PollArray(k.dirtyFds)|
    ensures k.Poll(results).Inv() && SameHolders(k, k.Poll(results))
  {
    PollReady(k);
    var m := k.PrepareAll(k.dirtyFds);
    ProcessAllReports(m, k.PollArray(k.dirtyFds), results);
    ProcSideOfFds(k, k.Poll(results), |k.procs|);
  }

  /** Whatever the poller hands over as fresh is no zombie, and its owner is live. */
  lemma {:induction false} FreshIsLive(k: Kernel, f: nat)
    requires k.Inv() && f in k.freshFds
    ensures f < |k.fds| && !k.fds[f].zombie
    ensures k.fds[f].procId < |k.procs| && k.procs[k.fds[f].procId].live && f in k.procs[k.fds[f].procId].fds
  {
    assert k.FdOk(f) && k.Held(f);
  }

  /** No descriptor is on the lists of two processes. */
  lemma {:induction false} OneOwner(k: Kernel, f: nat, p: nat, q: nat)
    requires k.Inv() && p < |k.procs| && q < |k.procs|
    requires f in k.procs[p].fds && f in k.procs[q].fds
    ensures p == q
  {
    assert k.ListOk(p) && k.ListOk(q);
  }

  // ---- the loop ----

  /**
   Every event the system reports reaches its process: the owner of the descriptor is dispatched in the
   pass that follows, and finds the report in the table.
   */
  lemma {:induction false} EventReachesProcess(k: Kernel, results: seq<set<PollBit>>, script: seq<Execution>, i: nat)
    requires k.Inv() && k.freshFds == [] && k.Pending()
    requires |results| == |k.PollArray(k.dirtyFds)| && i < |results| && results[i] != {}
    ensures var f, pass := k.PollArray(k.dirtyFds)[i], k.Poll(results).Postpoll(script);
      && f < |k.fds| && k.SameShape(pass.k)
      && pass.k.fds[f].ret.revents == results[i]
      && k.fds[f].procId < |k.procs| && k.procs[k.fds[f].procId].live
      && (pass.complete ==> k.fds[f].procId in pass.dispatched)
  {
    var polled := k.PollArray(k.dirtyFds);
    var f := polled[i];
    assert f in polled;
    PollReady(k);
    var m, n := k.PrepareAll(k.dirtyFds), k.Poll(results);
    ProcessAllReports(m, polled, results);
    PollKeeps(k, results);
    WakeFreshWakes(n);
    RunAllDispatches(n.WakeFresh(), script);
  }

  /** The poller's results and the executions of one round of `vk_kern_loop`. */
  datatype Round = Round(results: seq<set<PollBit>>, script: seq<Execution>)

  /** The loop has returned, or it goes on, or the script of its last pass was too short. */
  datatype LoopEnd = Exited | Waiting | Cut

  datatype LoopState = LoopState(k: Kernel, end: LoopEnd)

  /** The loop of `vk_kern_loop`, one round after the other while processes are pending. */
  function Loop(k: Kernel, rounds: seq<Round>): LoopState
    decreases |rounds|
  {
    if rounds == [] then LoopState(k, Waiting)
    else
      var pass := k.Poll(rounds[0].results).Postpoll(rounds[0].script);
      if !pass.complete then LoopState(pass.k, Cut)
      else if !pass.k.Pending() then LoopState(pass.k, Exited)
      else Loop(pass.k, rounds[1..])
  }

  /** The system reports on every entry of the poll array, each time it is called. */
  ghost predicate Answered(k: Kernel, rounds: seq<Round>)
    decreases |rounds|
  {
    rounds != [] ==>
      && |rounds[0].results| == |k.PollArray(k.dirtyFds)|
      && Answered(k.Poll(rounds[0].results).Postpoll(rounds[0].script).k, rounds[1..])
  }

  lemma {:induction false} PostpollKeeps(k: Kernel, script: seq<Execution>)
    requires k.Inv()
    ensures var pass := k.Postpoll(script);
      && pass.k.Inv() && pass.k.freshFds == []
      && (pass.complete ==> pass.k.runProcs == [])
  {
    WakeFreshWakes(k);
    RunAllDispatches(k.WakeFresh(), script);
  }

  /** One round of the loop leaves nothing to run, and processes pending exactly if a socket is blocked. */
  lemma {:induction false} RoundSettles(k: Kernel, round: Round)
    requires k.Inv() && |round.results| == |k.PollArray(k.dirtyFds)|
    ensures var pass := k.Poll(round.results).Postpoll(round.script);
      && pass.k.Inv() && pass.k.freshFds == []
      && (pass.complete ==>
            && pass.k.runProcs == []
            && (pass.k.Pending() <==> exists p: nat :: p < |pass.k.procs| && pass.k.procs[p].regs != []))
  {
    PollKeeps(k, round.results);
    PostpollKeeps(k.Poll(round.results), round.script);
    var pass := k.Poll(round.results).Postpoll(round.script);
    if pass.complete {
      PassSettles(pass.k);
    }
  }

  /** Over every run: the loop exits exactly when no process has a blocked socket. */
  lemma {:induction false} LoopExits(k: Kernel, rounds: seq<Round>)
    requires k.Inv() && k.freshFds == [] && Answered(k, rounds)
    ensures var l := Loop(k, rounds);
      && l.k.Inv() && l.k.freshFds == []
      && (l.end == Exited ==> forall p: nat | p < |l.k.procs| :: l.k.procs[p].regs == [])
      && (l.end == Waiting && rounds != [] ==> exists p: nat :: p < |l.k.procs| && l.k.procs[p].regs != [])
    decreases |rounds|
  {
    if rounds != [] {
      RoundSettles(k, rounds[0]);
      LoopExits(k.Poll(rounds[0].results).Postpoll(rounds[0].script).k, rounds[1..]);
    }
  }

  /** A kernel as it is allocated, before any process exists. */
  function Booted(procCount: nat, fdCount: nat): Kernel {
    Kernel(seq(procCount, p => Proc(false, false, false, [], false, [])), [], [],
           seq(fdCount, f => Fd(false, 0, false, false, false, false, ZERO, ZERO, ZERO)), [], [])
  }

  const ZERO: Future := Future(0, {}, {}, false, false)

  /** With no process pending and nothing to run, none is live and no descriptor is allocated. */
  lemma {:induction false} NothingLeft(k: Kernel)
    requires k.Inv() && !k.Pending()
    ensures forall p: nat | p < |k.procs| :: !k.procs[p].live
    ensures forall f: nat | f < |k.fds| :: !k.fds[f].inUse
  {
    PassSettles(k);
    forall f: nat | f < |k.fds|
      ensures !k.fds[f].inUse
    {
      assert k.FdOk(f);
    }
  }

  /**
   From boot on, whatever processes start, whatever the system reports and whatever the executions do:
   lists agree with flags, every descriptor has one live owner, what is fresh is no zombie, and once
   the loop has returned no process is live and no descriptor is allocated.
   */
  lemma {:induction false} LoopIsSafe(
    procCount: nat, fdCount: nat, spawn: seq<nat>, first: seq<Execution>, rounds: seq<Round>)
    requires Answered(Booted(procCount, fdCount).SpawnAll(spawn).Postpoll(first).k, rounds)
    ensures var l := Loop(Booted(procCount, fdCount).SpawnAll(spawn).Postpoll(first).k, rounds);
      && l.k.Inv()
      && (l.end == Exited ==>
            && (forall p: nat | p < |l.k.procs| :: !l.k.procs[p].live)
            && (forall f: nat | f < |l.k.fds| :: !l.k.fds[f].inUse))
  {
    var b := Booted(procCount, fdCount);
    SpawnAllKeeps(b, |b.procs|, spawn);
    PostpollKeeps(b.SpawnAll(spawn), first);
    var s := b.SpawnAll(spawn).Postpoll(first).k;
    LoopExits(s, rounds);
    ExitedIdle(s, rounds);
    if Loop(s, rounds).end == Exited {
      NothingLeft(Loop(s, rounds).k);
    }
  }

  lemma {:induction false} ExitedIdle(k: Kernel, rounds: seq<Round>)
    ensures Loop(k, rounds).end == Exited ==> !Loop(k, rounds).k.Pending()
    decreases |rounds|
  {
    if rounds != [] {
      ExitedIdle(k.Poll(rounds[0].results).Postpoll(rounds[0].script).k, rounds[1..]);
    }
  }
}
