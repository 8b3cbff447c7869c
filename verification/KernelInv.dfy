/**
 What every step of the kernel keeps: each list agrees with its flags, a descriptor is on at most one
 process's list, and what is fresh belongs to a live process.
 */
module KernelInv {
  import opened SList
  import opened Process
  import opened Kernel

  // ---- process lists ----

  lemma {:induction false} RunQueueSteps(k: Kernel, p: nat)
    requires k.RunListOk() && p < |k.procs|
    ensures k.EnqueueRun(p).RunListOk() && k.DropRun(p).RunListOk()
    ensures p in k.EnqueueRun(p).runProcs && p !in k.DropRun(p).runProcs
  {
    DistinctCons'(k.runProcs, p);
    WithoutMembers(k.runProcs, p);
  }

  lemma {:induction false} DistinctCons'(xs: seq<nat>, x: nat)
    requires Distinct(xs)
    ensures x !in xs ==> Distinct([x] + xs)
  {
    if x !in xs {
      DistinctCons(x, xs);
    }
  }

  lemma {:induction false} BlockedQueueSteps(k: Kernel, p: nat)
    requires k.BlockedListOk() && p < |k.procs|
    ensures k.EnqueueBlocked(p).BlockedListOk() && k.DropBlocked(p).BlockedListOk()
  {
    DistinctCons'(k.blockedProcs, p);
    WithoutMembers(k.blockedProcs, p);
  }

  lemma {:induction false} DequeueRunListOk(k: Kernel)
    requires k.RunListOk() && k.runProcs != []
    ensures k.runProcs[0] < |k.procs| && k.DequeueRun().RunListOk()
  {
    assert k.runProcs[0] in k.runProcs;
    var n := k.DequeueRun();
    forall p: nat
      ensures p in n.runProcs <==> p < |k.procs| && n.procs[p].runQed
    {
      assert k.runProcs == [k.runProcs[0]] + n.runProcs;
      assert p in k.runProcs <==> p == k.runProcs[0] || p in n.runProcs;
    }
  }

  lemma {:induction false} DequeueFreshListOk(k: Kernel)
    requires k.FreshListOk() && k.freshFds != []
    ensures k.freshFds[0] < |k.fds| && k.DequeueFresh().FreshListOk()
  {
    assert k.freshFds[0] in k.freshFds;
    var n := k.DequeueFresh();
    forall f: nat
      ensures f in n.freshFds <==> f < |k.fds| && n.fds[f].freshQed
    {
      assert k.freshFds == [k.freshFds[0]] + n.freshFds;
      assert f in k.freshFds <==> f == k.freshFds[0] || f in n.freshFds;
    }
  }

  lemma {:induction false} DequeueRunKeeps(k: Kernel)
    requires k.ProcSide(|k.procs|) && k.runProcs != []
    ensures k.runProcs[0] < |k.procs|
    ensures k.DequeueRun().ProcSide(k.runProcs[0])
    ensures k.procs[k.runProcs[0]].live
  {
    DequeueRunListOk(k);
    assert k.runProcs[0] in k.runProcs;
    assert k.Settled(k.runProcs[0]);
    var n := k.DequeueRun();
    forall p: nat | p < |k.procs| && p != k.runProcs[0]
      ensures n.Settled(p)
    {
      assert k.Settled(p);
    }
  }

  lemma {:induction false} FlushRunPlaces(k: Kernel, p: nat)
    requires k.RunListOk() && p < |k.procs|
    ensures var n := k.FlushRun(p);
      && n.RunListOk() && (p in n.runProcs <==> k.procs[p].localRun)
      && n == k.(procs := k.procs[p := k.procs[p].(runQed := k.procs[p].localRun)], runProcs := n.runProcs)
  {
    RunQueueSteps(k, p);
  }

  lemma {:induction false} FlushBlockedPlaces(k: Kernel, p: nat)
    requires k.BlockedListOk() && p < |k.procs|
    ensures var n := k.FlushBlocked(p);
      && n.BlockedListOk() && (p in n.blockedProcs <==> k.procs[p].regs != [])
      && n == k.(procs := k.procs[p := k.procs[p].(blockedQed := k.procs[p].regs != [])],
                 blockedProcs := n.blockedProcs)
  {
    BlockedQueueSteps(k, p);
  }

  /** `p` lands on each list exactly when its local queue is nonempty. */
  lemma {:induction false} FlushPlaces(k: Kernel, p: nat)
    requires k.RunListOk() && k.BlockedListOk() && p < |k.procs|
    ensures var n := k.Flush(p);
      && n.RunListOk() && n.BlockedListOk()
      && (p in n.runProcs <==> k.procs[p].localRun)
      && (p in n.blockedProcs <==> k.procs[p].regs != [])
      && n == k.(procs := k.procs[p := k.procs[p].(runQed := k.procs[p].localRun, blockedQed := k.procs[p].regs != [])],
                 runProcs := n.runProcs, blockedProcs := n.blockedProcs)
  {
    FlushRunPlaces(k, p);
    FlushBlockedPlaces(k.FlushRun(p), p);
  }

  /** No other process moves on either list. */
  lemma {:induction false} FlushLeavesOthers(k: Kernel, p: nat, q: nat)
    requires k.RunListOk() && k.BlockedListOk() && p < |k.procs| && q != p
    ensures q in k.Flush(p).runProcs <==> q in k.runProcs
    ensures q in k.Flush(p).blockedProcs <==> q in k.blockedProcs
  {
    FlushPlaces(k, p);
  }

  // ---- descriptor lists ----

  lemma {:induction false} DirtyQueueSteps(k: Kernel, f: nat)
    requires k.DirtyListOk() && f < |k.fds|
    ensures k.EnqueueDirty(f).DirtyListOk() && k.DropDirty(f).DirtyListOk()
  {
    DistinctCons'(k.dirtyFds, f);
    WithoutMembers(k.dirtyFds, f);
  }

  lemma {:induction false} FreshQueueSteps(k: Kernel, f: nat)
    requires k.FreshListOk() && f < |k.fds|
    ensures k.EnqueueFresh(f).FreshListOk() && k.DropFresh(f).FreshListOk()
  {
    DistinctCons'(k.freshFds, f);
    WithoutMembers(k.freshFds, f);
  }

  /** The descriptor lists of processes depend on who holds each descriptor and on nothing else. */
  lemma {:induction false} OwnedUpTo(k: Kernel, n: Kernel)
    requires k.OwnedOk() && k.SameShape(n)
    requires forall p: nat | p < |k.procs| :: n.procs[p].fds == k.procs[p].fds
    requires forall f: nat | f < |k.fds| :: n.fds[f].inUse == k.fds[f].inUse && n.fds[f].procId == k.fds[f].procId
    ensures n.OwnedOk()
  {
    forall q: nat | q < |k.procs|
      ensures n.ListOk(q)
    {
      assert k.ListOk(q);
    }
    forall g: nat | g < |k.fds|
      ensures n.Held(g)
    {
      assert k.Held(g);
    }
  }

  lemma {:induction false} AllocateOwned(k: Kernel, p: nat, f: nat)
    requires k.OwnedOk() && p < |k.procs| && f < |k.fds| && !k.fds[f].inUse
    ensures k.AllocateFd(p, f).OwnedOk()
  {
    assert k.ListOk(p);
    DistinctCons(f, k.procs[p].fds);
    var n := k.AllocateFd(p, f);
    forall q: nat | q < |k.procs|
      ensures n.ListOk(q)
    {
      assert k.ListOk(q);
    }
    forall g: nat | g < |k.fds|
      ensures n.Held(g)
    {
      assert k.Held(g);
    }
  }

  lemma {:induction false} DeallocateOwned(k: Kernel, p: nat, f: nat)
    requires k.OwnedOk() && p < |k.procs| && f in k.procs[p].fds
    ensures k.DeallocateFd(p, f).OwnedOk()
  {
    assert k.ListOk(p);
    WithoutMembers(k.procs[p].fds, f);
    var n := k.DeallocateFd(p, f);
    forall q: nat | q < |k.procs|
      ensures n.ListOk(q)
    {
      assert k.ListOk(q);
    }
    forall g: nat | g < |k.fds|
      ensures n.Held(g)
    {
      assert k.Held(g);
    }
  }

  lemma {:induction false} SameTwice(k: Kernel, m: Kernel, n: Kernel)
    requires k.SameProcs(m) && k.SameReports(m) && m.SameProcs(n) && m.SameReports(n)
    ensures k.SameProcs(n) && k.SameReports(n)
  {
    forall p: nat | p < |k.procs|
      ensures n.procs[p] == k.procs[p].(fds := n.procs[p].fds)
    {
      assert m.procs[p] == k.procs[p].(fds := m.procs[p].fds);
    }
  }

  lemma {:induction false} AllocateFdKeeps(k: Kernel, p: nat, f: nat)
    requires k.FdSide() && p < |k.procs| && k.procs[p].live
    ensures k.AllocateFd(p, f).FdSide()
    ensures k.SameProcs(k.AllocateFd(p, f)) && k.SameReports(k.AllocateFd(p, f))
    ensures f < |k.fds| ==> k.AllocateFd(p, f).fds[f].inUse
  {
    if f < |k.fds| && !k.fds[f].inUse {
      AllocateOwned(k, p, f);
      var n := k.AllocateFd(p, f);
      forall g: nat | g < |k.fds|
        ensures n.FdOk(g)
      {
        assert k.FdOk(g);
      }
    }
  }

  lemma {:induction false} DeallocateFdKeeps(k: Kernel, p: nat, f: nat)
    requires k.FdSide() && p < |k.procs| && f in k.procs[p].fds
    requires f < |k.fds| && k.fds[f].closed && !k.fds[f].freshQed
    ensures k.DeallocateFd(p, f).FdSide()
    ensures k.SameProcs(k.DeallocateFd(p, f)) && k.SameReports(k.DeallocateFd(p, f))
  {
    DeallocateOwned(k, p, f);
    var n := k.DeallocateFd(p, f);
    forall g: nat | g < |k.fds|
      ensures n.FdOk(g)
    {
      assert k.FdOk(g);
    }
  }

  lemma {:induction false} PrepollFdKeeps(k: Kernel, p: nat, ask: Future)
    requires k.FdSide() && p < |k.procs| && k.procs[p].live
    ensures k.PrepollFd(p, ask).FdSide()
    ensures k.SameProcs(k.PrepollFd(p, ask)) && k.SameReports(k.PrepollFd(p, ask))
  {
    if 0 <= ask.fd < |k.fds| {
      var f := ask.fd;
      AllocateFdKeeps(k, p, f);
      var m := k.AllocateFd(p, f);
      var n := m.SetFd(f, m.fds[f].(pre := IDLE.(fd := f, events := ask.events)));
      FdSideUpTo(m, n);
      EnqueueDirtyKeeps(n, f);
      SameTwice(k, m, n);
      SameTwice(k, n, n.EnqueueDirty(f));
    }
  }

  /** The polling state of a descriptor matters to none of its lists. */
  lemma {:induction false} FdSideUpTo(k: Kernel, n: Kernel)
    requires k.FdSide() && k.SameShape(n)
    requires n.procs == k.procs && n.dirtyFds == k.dirtyFds && n.freshFds == k.freshFds
    requires forall g: nat | g < |k.fds| ::
      n.fds[g] == k.fds[g].(pre := n.fds[g].pre, post := n.fds[g].post, ret := n.fds[g].ret)
    ensures n.FdSide()
  {
    OwnedUpTo(k, n);
    forall g: nat | g < |k.fds|
      ensures n.FdOk(g)
    {
      assert k.FdOk(g);
    }
  }

  lemma {:induction false} EnqueueDirtyKeeps(k: Kernel, f: nat)
    requires k.FdSide() && f < |k.fds| && k.fds[f].inUse
    ensures k.EnqueueDirty(f).FdSide()
    ensures k.SameProcs(k.EnqueueDirty(f)) && k.SameReports(k.EnqueueDirty(f))
  {
    DirtyQueueSteps(k, f);
    var n := k.EnqueueDirty(f);
    OwnedUpTo(k, n);
    forall g: nat | g < |k.fds|
      ensures n.FdOk(g)
    {
      assert k.FdOk(g);
    }
  }

  /** One closed descriptor of the walk: dirty, and off the list. */
  lemma {:induction false} ReleaseOneKeeps(k: Kernel, p: nat, f: nat)
    requires k.FdSide() && p < |k.procs| && k.freshFds == []
    requires f in k.procs[p].fds && f < |k.fds| && k.fds[f].closed
    ensures var n := k.EnqueueDirty(f).DeallocateFd(p, f);
      && n.FdSide() && k.SameProcs(n) && k.SameReports(n)
      && n.procs[p].fds == Without(k.procs[p].fds, f)
      && n.fds == k.fds[f := k.fds[f].(dirtyQed := true, inUse := false)]
  {
    assert k.ListOk(p) && f !in k.freshFds;
    EnqueueDirtyKeeps(k, f);
    var m := k.EnqueueDirty(f);
    DeallocateFdKeeps(m, p, f);
    SameTwice(k, m, m.DeallocateFd(p, f));
  }

  lemma {:induction false} ReleaseClosedKeeps(k: Kernel, p: nat, walk: seq<nat>)
    requires k.FdSide() && p < |k.procs| && k.freshFds == []
    requires Distinct(walk) && forall f :: f in walk ==> f in k.procs[p].fds
    ensures k.ReleaseClosed(p, walk).FdSide()
    ensures k.SameProcs(k.ReleaseClosed(p, walk)) && k.SameReports(k.ReleaseClosed(p, walk))
    decreases |walk|
  {
    if walk != [] {
      var f := walk[0];
      assert f in walk && f in k.procs[p].fds && k.ListOk(p);
      if k.fds[f].closed {
        ReleaseOneKeeps(k, p, f);
        WithoutMembers(k.procs[p].fds, f);
        ReleaseClosedKeeps(k.EnqueueDirty(f).DeallocateFd(p, f), p, walk[1..]);
      } else {
        ReleaseClosedKeeps(k, p, walk[1..]);
      }
    }
  }

  lemma {:induction false} PrepollSocketKeeps(k: Kernel, p: nat, reg: Reg)
    requires k.FdSide() && p < |k.procs| && k.procs[p].live
    ensures k.PrepollSocket(p, reg).FdSide()
    ensures k.SameProcs(k.PrepollSocket(p, reg)) && k.SameReports(k.PrepollSocket(p, reg))
  {
    PrepollFdKeeps(k, p, reg.rx);
    PrepollFdKeeps(k, p, reg.tx);
    PrepollFdKeeps(k.PrepollFd(p, reg.rx), p, reg.tx);
    SameTwice(k, k.PrepollFd(p, reg.rx), k.PrepollFd(p, reg.rx).PrepollFd(p, reg.tx));
  }

  lemma {:induction false} RegisterKeeps(k: Kernel, p: nat, regs: seq<Reg>)
    requires k.FdSide() && p < |k.procs| && k.procs[p].live
    ensures k.Register(p, regs).FdSide()
    ensures k.SameProcs(k.Register(p, regs)) && k.SameReports(k.Register(p, regs))
    decreases |regs|
  {
    if regs != [] {
      PrepollSocketKeeps(k, p, regs[0]);
      RegisterKeeps(k.PrepollSocket(p, regs[0]), p, regs[1..]);
    }
  }

  lemma {:induction false} PrepollKeeps(k: Kernel, p: nat)
    requires k.FdSide() && p < |k.procs| && k.procs[p].live && k.freshFds == []
    ensures k.Prepoll(p).FdSide()
    ensures k.SameProcs(k.Prepoll(p)) && k.SameReports(k.Prepoll(p))
  {
    assert k.ListOk(p);
    ReleaseClosedKeeps(k, p, k.procs[p].fds);
    RegisterKeeps(k.ReleaseClosed(p, k.procs[p].fds), p, k.procs[p].regs);
  }

  /** A descriptor that is marked a zombie stays with its owner, and becomes dirty. */
  lemma {:induction false} MarkedOwned(k: Kernel, f: nat) returns (n: Kernel)
    requires k.FdSide() && f < |k.fds|
    ensures var pre := k.fds[f].pre.(rxClosed := true, txClosed := true);
      n == k.SetFd(f, k.fds[f].(pre := pre, zombie := true)).EnqueueDirty(f)
    ensures n.DirtyListOk() && n.OwnedOk() && n.procs == k.procs && n.freshFds == k.freshFds
    ensures n.fds == k.fds[f := n.fds[f]] && n.fds[f].dirtyQed && n.fds[f].zombie
    ensures n.fds[f] == k.fds[f].(pre := n.fds[f].pre, dirtyQed := true, zombie := true)
  {
    var m := k.SetFd(f, k.fds[f].(pre := k.fds[f].pre.(rxClosed := true, txClosed := true), zombie := true));
    n := m.EnqueueDirty(f);
    DirtyQueueSteps(m, f);
    OwnedUpTo(k, n);
  }

  lemma {:induction false} BuryKeeps(k: Kernel, p: nat, f: nat)
    requires k.FdSide() && p < |k.procs| && k.freshFds == [] && f in k.procs[p].fds
    ensures k.Bury(p, f).FdSide()
    ensures k.SameProcs(k.Bury(p, f)) && k.SameReports(k.Bury(p, f))
    ensures k.Bury(p, f).procs[p].fds == Without(k.procs[p].fds, f)
  {
    assert k.ListOk(p);
    var m := MarkedOwned(k, f);
    DeallocateOwned(m, p, f);
    assert f !in k.freshFds;
    var n := m.DeallocateFd(p, f);
    forall g: nat | g < |k.fds|
      ensures n.FdOk(g)
    {
      assert k.FdOk(g);
    }
  }

  lemma {:induction false} BuryAllKeeps(k: Kernel, p: nat, walk: seq<nat>)
    requires k.FdSide() && p < |k.procs| && k.freshFds == []
    requires walk == k.procs[p].fds
    ensures k.BuryAll(p, walk).FdSide()
    ensures k.SameProcs(k.BuryAll(p, walk)) && k.SameReports(k.BuryAll(p, walk))
    ensures k.BuryAll(p, walk).procs[p].fds == []
    decreases |walk|
  {
    assert k.ListOk(p);
    if walk != [] {
      assert walk[0] in walk;
      BuryKeeps(k, p, walk[0]);
      BuryAllKeeps(k.Bury(p, walk[0]), p, walk[1..]);
    }
  }

  // ---- dispatch ----

  /** Nothing about descriptors changes when processes start, stop or change lists. */
  lemma {:induction false} FdSideOfProcs(k: Kernel, n: Kernel)
    requires k.FdSide() && k.SameShape(n)
    requires n.fds == k.fds && n.dirtyFds == k.dirtyFds && n.freshFds == k.freshFds
    requires forall p: nat | p < |k.procs| ::
      && n.procs[p].fds == k.procs[p].fds
      && (k.procs[p].live ==> n.procs[p].live || n.procs[p].fds == [])
    ensures n.FdSide()
  {
    OwnedUpTo(k, n);
    forall f: nat | f < |k.fds|
      ensures n.FdOk(f)
    {
      assert k.FdOk(f) && k.Held(f);
    }
  }

  /** How the world outside process `p` may change while `p` is dispatched. */
  ghost predicate Elsewhere(k: Kernel, n: Kernel, p: nat) {
    && k.SameReports(n)
    && (forall q: nat | q in k.runProcs && q != p :: q in n.runProcs)
    && (forall q: nat | q < |k.procs| && q != p ::
          n.procs[q].regs == k.procs[q].regs && (k.procs[q].live ==> n.procs[q].live))
  }

  lemma {:induction false} ElsewhereTwice(k: Kernel, m: Kernel, n: Kernel, p: nat)
    requires Elsewhere(k, m, p) && Elsewhere(m, n, p)
    ensures Elsewhere(k, n, p)
  {
  }

  lemma {:induction false} SpawnKeeps(k: Kernel, p: nat, q: nat)
    requires k.FdSide() && k.ProcSide(p) && (p < |k.procs| ==> k.procs[p].live)
    ensures k.Spawn(q).FdSide() && k.Spawn(q).ProcSide(p)
    ensures (p < |k.procs| ==> k.Spawn(q).procs[p] == k.procs[p]) && Elsewhere(k, k.Spawn(q), p)
  {
    if q < |k.procs| && !k.procs[q].live {
      assert k.Settled(q);
      var m := k.SetProc(q, k.procs[q].(live := true, localRun := true));
      FlushPlaces(m, q);
      var n := k.Spawn(q);
      FdSideOfProcs(k, n);
      forall r: nat | r < |k.procs| && r != p
        ensures n.Settled(r)
      {
        assert k.Settled(r);
      }
      forall r: nat | r in k.runProcs && r != p
        ensures r in n.runProcs
      {
        if r != q {
          FlushLeavesOthers(m, q, r);
        }
      }
    }
  }

  lemma {:induction false} SpawnAllKeeps(k: Kernel, p: nat, qs: seq<nat>)
    requires k.FdSide() && k.ProcSide(p) && (p < |k.procs| ==> k.procs[p].live)
    ensures k.SpawnAll(qs).FdSide() && k.SpawnAll(qs).ProcSide(p)
    ensures (p < |k.procs| ==> k.SpawnAll(qs).procs[p] == k.procs[p]) && Elsewhere(k, k.SpawnAll(qs), p)
    decreases |qs|
  {
    if qs != [] {
      var m := k.Spawn(qs[0]);
      SpawnKeeps(k, p, qs[0]);
      SpawnAllKeeps(m, p, qs[1..]);
      ElsewhereTwice(k, m, m.SpawnAll(qs[1..]), p);
    }
  }

  /** The state of the process lists is unmoved by what happens to descriptors. */
  lemma {:induction false} ProcSideOfFds(k: Kernel, n: Kernel, p: nat)
    requires k.ProcSide(p) && k.SameProcs(n)
    ensures n.ProcSide(p)
  {
    forall q: nat | q < |k.procs| && q != p
      ensures n.Settled(q)
    {
      assert k.Settled(q);
    }
  }

  lemma {:induction false} EnterKeeps(k: Kernel, p: nat, ex: Execution)
    requires k.FdSide() && k.ProcSide(p) && p < |k.procs|
    ensures var m := k.Left(p, ex.regs);
      m.FdSide() && m.ProcSide(p)
  {
    var m := k.Left(p, ex.regs);
    FdSideOfProcs(k, m);
    forall q: nat | q < |k.procs| && q != p
      ensures m.Settled(q)
    {
      assert k.Settled(q);
    }
  }

  lemma {:induction false} ExecutedKeeps(k: Kernel, p: nat, ex: Execution)
    requires k.FdSide() && k.ProcSide(p) && k.freshFds == [] && p < |k.procs| && k.procs[p].live
    ensures var n := k.Executed(p, ex);
      && n.FdSide() && n.ProcSide(p) && Elsewhere(k, n, p)
      && n.procs[p] == k.procs[p].(localRun := false, regs := ex.regs, fds := n.procs[p].fds)
      && (ex.spawn == [] ==> n.runProcs == k.runProcs)
  {
    EnterKeeps(k, p, ex);
    var m := k.Left(p, ex.regs);
    SpawnAllKeeps(m, p, ex.spawn);
    var s := m.SpawnAll(ex.spawn);
    PrepollKeeps(s, p);
    ProcSideOfFds(s, s.Prepoll(p), p);
  }

  lemma {:induction false} FlushKeeps(k: Kernel, p: nat)
    requires k.FdSide() && k.ProcSide(p) && p < |k.procs| && k.procs[p].live && !k.procs[p].localRun
    ensures k.Flush(p).FdSide() && k.Flush(p).ProcSide(p) && Elsewhere(k, k.Flush(p), p)
  {
    FlushPlaces(k, p);
    var n := k.Flush(p);
    FdSideOfProcs(k, n);
    forall q: nat | q < |k.procs| && q != p
      ensures n.Settled(q)
    {
      assert k.Settled(q);
    }
    forall q: nat | q in k.runProcs && q != p
      ensures q in n.runProcs
    {
      FlushLeavesOthers(k, p, q);
    }
  }

  /** A freed process leaves every list, and no descriptor remains allocated to it. */
  lemma {:induction false} FreeKeeps(k: Kernel, p: nat)
    requires k.FdSide() && k.ProcSide(p) && k.freshFds == [] && p < |k.procs|
    requires k.procs[p].live && k.IsZombie(p) && !k.procs[p].localRun && k.procs[p].regs == []
    ensures k.Free(p).Inv() && Elsewhere(k, k.Free(p), p) && k.Free(p).runProcs == k.runProcs
    ensures !k.Free(p).procs[p].live && k.Free(p).procs[p].fds == [] && k.Free(p).procs[p].regs == []
  {
    BuryAllKeeps(k, p, k.procs[p].fds);
    var m := k.BuryAll(p, k.procs[p].fds);
    ProcSideOfFds(k, m, p);
    var n := k.Free(p);
    FdSideOfProcs(m, n);
    forall q: nat | q < |k.procs|
      ensures n.Settled(q)
    {
      assert q != p ==> m.Settled(q);
    }
  }
}
