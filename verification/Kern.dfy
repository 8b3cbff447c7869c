/**
 The imperative side of `vk_kern.c`, `vk_fd_table.c` and `vk_proc.c`. The four lists are linked lists,
 walked by their links while elements are taken out of them; every method is proved against the
 functions of `Kernel`, which know the lists as sequences.
 */
module Kern {
  import opened Machine
  import opened SList
  import opened Process
  import opened Kernel
  import opened KernelInv
  import opened KernelRun

  class Kern {
    var procs: seq<Proc>
    const runProcs: LinkedList<nat>
    const blockedProcs: LinkedList<nat>
    var fds: seq<Fd>
    const dirtyFds: LinkedList<nat>
    const freshFds: LinkedList<nat>

    ghost function Value(): Kernel
      reads this, runProcs, blockedProcs, dirtyFds, freshFds
    {
      Kernel(procs, runProcs.elems, blockedProcs.elems, fds, dirtyFds.elems, freshFds.elems)
    }

    /** Four sound lists that share no head. */
    ghost predicate Apart()
      reads this, runProcs, blockedProcs, dirtyFds, freshFds
    {
      && runProcs.Valid() && blockedProcs.Valid() && dirtyFds.Valid() && freshFds.Valid()
      && runProcs != blockedProcs && runProcs != dirtyFds && runProcs != freshFds
      && blockedProcs != dirtyFds && blockedProcs != freshFds && dirtyFds != freshFds
    }

    /** The lists of processes agree with their flags. */
    ghost predicate ProcLists()
      reads this, runProcs, blockedProcs, dirtyFds, freshFds
    {
      Apart() && Value().RunListOk() && Value().BlockedListOk()
    }

    /** The lists of descriptors agree with their flags. */
    ghost predicate FdLists()
      reads this, runProcs, blockedProcs, dirtyFds, freshFds
    {
      Apart() && Value().DirtyListOk() && Value().FreshListOk()
    }

    ghost predicate Valid()
      reads this, runProcs, blockedProcs, dirtyFds, freshFds
    {
      Apart() && Value().Inv()
    }

    /** The state that `vk_kern_alloc` leaves. */
    constructor (procCount: nat, fdCount: nat)
      ensures Value() == Booted(procCount, fdCount) && Valid()
    {
      procs := seq(procCount, p => Proc(false, false, false, [], false, []));
      runProcs := new LinkedList();
      blockedProcs := new LinkedList();
      fds := seq(fdCount, f => Fd(false, 0, false, false, false, false, ZERO, ZERO, ZERO));
      dirtyFds := new LinkedList();
      freshFds := new LinkedList();
    }

    // ---- process lists ----

    method EnqueueRun(p: nat)
      requires p < |procs| && ProcLists()
      modifies `procs, runProcs
      ensures ProcLists() && Value() == old(Value()).EnqueueRun(p)
    {
      RunQueueSteps(Value(), p);
      if !procs[p].runQed {
        procs := procs[p := procs[p].(runQed := true)];
        runProcs.InsertHead(p);
      }
    }

    method EnqueueBlocked(p: nat)
      requires p < |procs| && ProcLists()
      modifies `procs, blockedProcs
      ensures ProcLists() && Value() == old(Value()).EnqueueBlocked(p)
    {
      BlockedQueueSteps(Value(), p);
      if !procs[p].blockedQed {
        procs := procs[p := procs[p].(blockedQed := true)];
        blockedProcs.InsertHead(p);
      }
    }

    method DropRun(p: nat)
      requires p < |procs| && ProcLists()
      modifies `procs, runProcs
      ensures ProcLists() && Value() == old(Value()).DropRun(p)
    {
      RunQueueSteps(Value(), p);
      if procs[p].runQed {
        procs := procs[p := procs[p].(runQed := false)];
        runProcs.Remove(p);
      }
    }

    method DropBlocked(p: nat)
      requires p < |procs| && ProcLists()
      modifies `procs, blockedProcs
      ensures ProcLists() && Value() == old(Value()).DropBlocked(p)
    {
      BlockedQueueSteps(Value(), p);
      if procs[p].blockedQed {
        procs := procs[p := procs[p].(blockedQed := false)];
        blockedProcs.Remove(p);
      }
    }

    /** `vk_kern_dequeue_run` */
    method DequeueRun() returns (p: Option<nat>)
      requires ProcLists()
      modifies `procs, runProcs
      ensures ProcLists()
      ensures p.None? ==> old(runProcs.elems) == [] && Value() == old(Value())
      ensures p.Some? ==>
                && old(runProcs.elems) != [] && p.value == old(runProcs.elems)[0]
                && Value() == old(Value()).DequeueRun()
    {
      if runProcs.IsEmpty() {
        return None;
      }
      DequeueRunListOk(Value());
      var head := runProcs.RemoveHead();
      procs := procs[head := procs[head].(runQed := false)];
      p := Some(head);
    }

    /** `vk_kern_flush_proc_queues` */
    method FlushProcQueues(p: nat)
      requires p < |procs| && ProcLists()
      modifies `procs, runProcs, blockedProcs
      ensures ProcLists() && Value() == old(Value()).Flush(p)
    {
      if procs[p].localRun {
        EnqueueRun(p);
      } else {
        DropRun(p);
      }
      if procs[p].regs != [] {
        EnqueueBlocked(p);
      } else {
        DropBlocked(p);
      }
    }

    /** `vk_kern_pending` */
    method IsPending() returns (pending: bool)
      requires Apart()
      ensures pending == Value().Pending()
    {
      pending := !(runProcs.IsEmpty() && blockedProcs.IsEmpty());
    }

    // ---- descriptor lists ----

    method EnqueueDirty(f: nat)
      requires f < |fds| && FdLists()
      modifies `fds, dirtyFds
      ensures FdLists() && Value() == old(Value()).EnqueueDirty(f)
    {
      DirtyQueueSteps(Value(), f);
      if !fds[f].dirtyQed {
        fds := fds[f := fds[f].(dirtyQed := true)];
        dirtyFds.InsertHead(f);
      }
    }

    method EnqueueFresh(f: nat)
      requires f < |fds| && FdLists()
      modifies `fds, freshFds
      ensures FdLists() && Value() == old(Value()).EnqueueFresh(f)
    {
      FreshQueueSteps(Value(), f);
      if !fds[f].freshQed {
        fds := fds[f := fds[f].(freshQed := true)];
        freshFds.InsertHead(f);
      }
    }

    /** A walk that stands at the descriptor can still go on from its link. */
    method DropDirty(f: nat)
      requires f < |fds| && FdLists()
      modifies `fds, dirtyFds
      ensures FdLists() && Value() == old(Value()).DropDirty(f)
      ensures forall rest :: old(dirtyFds.Cursor(Some(f), rest)) ==> dirtyFds.Cursor(Some(f), rest)
    {
      DirtyQueueSteps(Value(), f);
      if fds[f].dirtyQed {
        fds := fds[f := fds[f].(dirtyQed := false)];
        dirtyFds.Remove(f);
      }
    }

    method DropFresh(f: nat)
      requires f < |fds| && FdLists()
      modifies `fds, freshFds
      ensures FdLists() && Value() == old(Value()).DropFresh(f)
    {
      FreshQueueSteps(Value(), f);
      if fds[f].freshQed {
        fds := fds[f := fds[f].(freshQed := false)];
        freshFds.Remove(f);
      }
    }

    /** `vk_fd_table_dequeue_fresh` */
    method DequeueFresh() returns (f: Option<nat>)
      requires FdLists()
      modifies `fds, freshFds
      ensures FdLists()
      ensures f.None? ==> old(freshFds.elems) == [] && Value() == old(Value())
      ensures f.Some? ==>
                && old(freshFds.elems) != [] && f.value == old(freshFds.elems)[0] && f.value < |fds|
                && Value() == old(Value()).DequeueFresh()
    {
      if freshFds.IsEmpty() {
        return None;
      }
      DequeueFreshListOk(Value());
      var head := freshFds.RemoveHead();
      fds := fds[head := fds[head].(freshQed := false)];
      f := Some(head);
    }

    // ---- allocation and registration ----

    /** `vk_proc_allocate_fd`; it fails on a descriptor that another process holds. */
    method AllocateFd(p: nat, f: nat) returns (ok: bool)
      requires p < |procs| && f < |fds| && FdLists()
      modifies `fds, `procs
      ensures FdLists() && Value() == old(Value()).AllocateFd(p, f)
      ensures ok <==> fds[f].inUse && fds[f].procId == p
    {
      if !fds[f].inUse {
        fds := fds[f := fds[f].(procId := p, inUse := true, closed := false, zombie := false)];
        procs := procs[p := procs[p].(fds := [f] + procs[p].fds)];
      } else if fds[f].procId != p {
        return false;
      }
      ok := true;
    }

    /** `vk_proc_deallocate_fd` */
    method DeallocateFd(p: nat, f: nat)
      requires p < |procs| && f < |fds| && FdLists()
      modifies `fds, `procs
      ensures FdLists() && Value() == old(Value()).DeallocateFd(p, f)
    {
      if fds[f].inUse {
        fds := fds[f := fds[f].(inUse := false)];
        procs := procs[p := procs[p].(fds := Without(procs[p].fds, f))];
      }
    }

    /** `vk_fd_table_prepoll_blocked_fd` */
    method PrepollFd(p: nat, ask: Future)
      requires p < |procs| && FdLists()
      modifies `fds, `procs, dirtyFds
      ensures FdLists() && Value() == old(Value()).PrepollFd(p, ask)
    {
      if ask.fd < 0 || ask.fd >= |fds| {
        return;
      }
      var f: nat := ask.fd;
      if !fds[f].inUse {
        var ok := AllocateFd(p, f);
      }
      fds := fds[f := fds[f].(pre := IDLE.(fd := f, events := ask.events))];
      var pre := fds[f].pre;
      if pre.events != {} || (pre.rxClosed && pre.txClosed) {
        EnqueueDirty(f);
      }
    }

    /** `vk_fd_table_prepoll_blocked_socket` */
    method PrepollSocket(p: nat, reg: Reg)
      requires p < |procs| && FdLists()
      modifies `fds, `procs, dirtyFds
      ensures FdLists() && Value() == old(Value()).PrepollSocket(p, reg)
    {
      if reg.rx.fd != -1 {
        PrepollFd(p, reg.rx);
      }
      if reg.tx.fd != -1 && reg.tx.fd != reg.rx.fd {
        PrepollFd(p, reg.tx);
      }
    }

    /** `vk_proc_prepoll`: release what is closed, then register what is blocked. */
    method Prepoll(p: nat)
      requires p < |procs| && Value().ListOk(p) && FdLists()
      modifies `fds, `procs, dirtyFds
      ensures FdLists() && Value() == old(Value()).Prepoll(p)
    {
      ghost var start := Value();
      ReleaseClosed(p);
      ghost var released := Value();
      var regs := procs[p].regs;
      ReleaseClosedRegs(start, p, start.procs[p].fds);
      while regs != []
        invariant p < |procs| && FdLists()
        invariant Value().Register(p, regs) == released.Register(p, start.procs[p].regs)
        decreases |regs|
      {
        PrepollSocket(p, regs[0]);
        regs := regs[1..];
      }
    }

    method ReleaseClosed(p: nat)
      requires p < |procs| && Value().ListOk(p) && FdLists()
      modifies `fds, `procs, dirtyFds
      ensures FdLists() && Value() == old(Value()).ReleaseClosed(p, old(procs)[p].fds)
      ensures |procs| == old(|procs|)
    {
      ghost var start := Value();
      var cursor := procs[p].fds;
      while cursor != []
        invariant p < |procs| == |start.procs| && |fds| == |start.fds| && FdLists()
        invariant forall f :: f in cursor ==> f in start.procs[p].fds
        invariant Value().ReleaseClosed(p, cursor) == start.ReleaseClosed(p, start.procs[p].fds)
        decreases |cursor|
      {
        var f := cursor[0];
        assert f in cursor;
        if fds[f].closed {
          EnqueueDirty(f);
        }
        cursor := cursor[1..];
        if fds[f].closed {
          DeallocateFd(p, f);
        }
      }
    }

    /** `vk_fd_table_prepoll_zombie` */
    method PrepollZombie(p: nat)
      requires p < |procs| && Value().ListOk(p) && FdLists()
      modifies `fds, `procs, dirtyFds
      ensures FdLists() && Value() == old(Value()).BuryAll(p, old(procs)[p].fds)
      ensures |procs| == old(|procs|)
    {
      ghost var start := Value();
      var cursor := procs[p].fds;
      while cursor != []
        invariant p < |procs| == |start.procs| && |fds| == |start.fds| && FdLists()
        invariant forall f :: f in cursor ==> f in start.procs[p].fds
        invariant Value().BuryAll(p, cursor) == start.BuryAll(p, start.procs[p].fds)
        decreases |cursor|
      {
        var f := cursor[0];
        assert f in cursor;
        cursor := cursor[1..];
        BuryFd(p, f);
      }
    }

    method BuryFd(p: nat, f: nat)
      requires p < |procs| && f < |fds| && FdLists()
      modifies `fds, `procs, dirtyFds
      ensures FdLists() && Value() == old(Value()).Bury(p, f)
    {
      MarkZombie(f);
      EnqueueDirty(f);
      DeallocateFd(p, f);
    }

    method MarkZombie(f: nat)
      requires f < |fds| && FdLists()
      modifies `fds
      ensures FdLists()
      ensures fds == old(fds)[f := old(fds)[f].(pre := old(fds)[f].pre.(rxClosed := true, txClosed := true),
                                              zombie := true)]
    {
      fds := fds[f := fds[f].(pre := fds[f].pre.(rxClosed := true, txClosed := true))];
      fds := fds[f := fds[f].(zombie := true)];
    }

    // ---- the poll driver ----

    /** The half of `vk_fd_table_clean_fd` that closes. */
    method CloseFd(f: nat)
      requires f < |fds| && FdLists()
      modifies `fds, dirtyFds, freshFds
      ensures FdLists()
      ensures var k := old(Value());
              Value() == if k.Closes(f) then
                           (var l := k.MarkClosed(f).DropDirty(f); if !l.fds[f].zombie then l.EnqueueFresh(f) else l)
                         else k
      ensures forall rest :: old(dirtyFds.Cursor(Some(f), rest)) ==> dirtyFds.Cursor(Some(f), rest)
    {
      if !fds[f].closed && (fds[f].zombie || (fds[f].pre.rxClosed && fds[f].pre.txClosed)) {
        fds := fds[f := fds[f].(closed := true,
                                post := fds[f].post.(rxClosed := true, txClosed := true),
                                ret := fds[f].ret.(rxClosed := true, txClosed := true))];
        DropDirty(f);
        if !fds[f].zombie {
          EnqueueFresh(f);
        }
      }
    }

    /** `vk_fd_table_clean_fd`; a walk of the dirty list that stands at the descriptor can still go on. */
    method CleanFd(f: nat)
      requires f < |fds| && FdLists()
      modifies `fds, dirtyFds, freshFds
      ensures FdLists() && Value() == old(Value()).Clean(f)
      ensures forall rest :: old(dirtyFds.Cursor(Some(f), rest)) ==> dirtyFds.Cursor(Some(f), rest)
    {
      if fds[f].zombie {
        DropDirty(f);
        DropFresh(f);
      }
      CloseFd(f);
    }

    /** `vk_fd_table_process_fd`, after `revents` was stored in the polled event. */
    method ProcessFd(f: nat, revents: set<PollBit>)
      requires f < |fds| && FdLists()
      modifies `fds, dirtyFds, freshFds
      ensures FdLists() && Value() == old(Value()).ProcessFd(f, revents)
    {
      TakeReport(f, revents);
      if fds[f].ret.revents != {} {
        EnqueueFresh(f);
      }
      DropReturned(f);
    }

    method TakeReport(f: nat, revents: set<PollBit>)
      requires f < |fds| && FdLists()
      modifies `fds
      ensures FdLists() && Value() == old(Value()).TakeReport(f, revents)
    {
      ghost var start := Value();
      var post := fds[f].post.(revents := revents);
      if Hup in revents {
        post := post.(rxClosed := true);
      }
      if RdHup in revents {
        post := post.(txClosed := true);
      }
      if Fault in revents {
        post := post.(rxClosed := true);
      }
      fds := fds[f := fds[f].(post := post, ret := post)];
      assert Value() == start.TakeReport(f, revents);
    }

    method DropReturned(f: nat)
      requires f < |fds| && FdLists()
      modifies `fds, dirtyFds
      ensures FdLists() && Value() == old(Value()).DropReturned(f)
    {
      var x := fds[f];
      if x.pre.events * x.ret.revents == x.pre.events {
        var drop := x.ret.revents * x.ret.events;
        fds := fds[f := x.(pre := x.pre.(events := (x.pre.events - drop) + (drop - x.pre.events)))];
        if fds[f].pre.events == {} {
          DropDirty(f);
        }
      }
    }

    /**
     The first loop of `vk_fd_table_poll`: clean, and build the poll array. It goes on from the link of a
     descriptor that it may just have taken off the list.
     */
    method BuildPollArray() returns (pollFds: seq<nat>)
      requires FdLists()
      modifies `fds, dirtyFds, freshFds
      ensures FdLists()
      ensures Value() == old(Value()).PrepareAll(old(Value()).dirtyFds)
      ensures pollFds == old(Value()).PollArray(old(Value()).dirtyFds)
    {
      ghost var start := Value();
      dirtyFds.Start();
      var cursor := dirtyFds.first;
      ghost var rest: seq<nat> := dirtyFds.elems;
      pollFds := [];
      while cursor.Some?
        invariant FdLists() && |fds| == |start.fds| && dirtyFds.Cursor(cursor, rest)
        invariant forall f: nat :: f in rest ==> f < |fds|
        invariant Value().PrepareAll(rest) == start.PrepareAll(start.dirtyFds)
        invariant pollFds + Value().PollArray(rest) == start.PollArray(start.dirtyFds)
        decreases |rest|
      {
        var f := cursor.value;
        dirtyFds.Advance(f, rest);
        assert f in rest && forall g: nat :: g in rest[1..] ==> g in rest;
        PollArrayStep(Value(), rest, pollFds);
        var polls := PrepareFd(f);
        if polls {
          pollFds := pollFds + [f];
        }
        dirtyFds.Advance(f, rest);
        cursor := dirtyFds.next[f];
        rest := rest[1..];
      }
    }

    method PrepareFd(f: nat) returns (polls: bool)
      requires f < |fds| && FdLists()
      modifies `fds, dirtyFds, freshFds
      ensures FdLists() && Value() == old(Value()).Prepare(f) && polls == old(Value()).Clean(f).Polls(f)
      ensures forall rest :: old(dirtyFds.Cursor(Some(f), rest)) ==> dirtyFds.Cursor(Some(f), rest)
    {
      CleanFd(f);
      polls := !fds[f].closed && fds[f].pre.events != {};
      if polls {
        fds := fds[f := fds[f].(post := fds[f].pre)];
      }
    }

    /** `vk_fd_table_poll`; `results` is what the system reports, entry by entry. */
    method Poll(results: seq<set<PollBit>>)
      requires Valid() && |results| == |Value().PollArray(dirtyFds.elems)|
      modifies `fds, dirtyFds, freshFds
      ensures Valid() && Value() == old(Value()).Poll(results)
    {
      PollReady(Value());
      PollKeeps(Value(), results);
      var pollFds := BuildPollArray();
      var pending := IsPending();
      if pending {
        ProcessResults(pollFds, results);
      }
    }

    /** The second loop of `vk_fd_table_poll`. */
    method ProcessResults(pollFds: seq<nat>, results: seq<set<PollBit>>)
      requires |results| == |pollFds| && (forall f: nat :: f in pollFds ==> f < |fds|) && FdLists()
      modifies `fds, dirtyFds, freshFds
      ensures FdLists() && Value() == old(Value()).ProcessAll(pollFds, results)
    {
      ghost var start := Value();
      for i := 0 to |pollFds|
        invariant |fds| == |start.fds| && FdLists()
        invariant Value().ProcessAll(pollFds[i..], results[i..]) == start.ProcessAll(pollFds, results)
      {
        assert pollFds[i] in pollFds;
        assert pollFds[i..][1..] == pollFds[i + 1..] && results[i..][1..] == results[i + 1..];
        ProcessFd(pollFds[i], results[i]);
      }
    }

    // ---- dispatch ----

    /** A process is allocated and given its first coroutine. */
    method SpawnProc(p: nat)
      requires ProcLists()
      modifies `procs, runProcs, blockedProcs
      ensures ProcLists() && Value() == old(Value()).Spawn(p)
    {
      if p < |procs| && !procs[p].live {
        procs := procs[p := procs[p].(live := true, localRun := true)];
        FlushProcQueues(p);
      }
    }

    /** The state in which process `p` executes: it may have left its lists. */
    ghost predicate Executing(p: nat)
      reads this, runProcs, blockedProcs, dirtyFds, freshFds
    {
      && Apart() && p < |procs| && procs[p].live
      && Value().FdSide() && Value().ProcSide(p) && freshFds.elems == []
    }

    /** `vk_proc_execute`: what the coroutines did is `ex`. */
    method ExecuteProc(p: nat, ex: Execution)
      requires Executing(p)
      modifies this, runProcs, blockedProcs, dirtyFds, freshFds
      ensures Apart() && Value() == old(Value()).Executed(p, ex)
    {
      procs := procs[p := procs[p].(localRun := false, regs := ex.regs)];
      ghost var entered := Value();
      var spawn := ex.spawn;
      EnterKeeps(old(Value()), p, ex);
      while spawn != []
        invariant |procs| == |entered.procs| && Executing(p)
        invariant Value().SpawnAll(spawn) == entered.SpawnAll(ex.spawn)
        decreases |spawn|
      {
        SpawnKeeps(Value(), p, spawn[0]);
        SpawnProc(spawn[0]);
        spawn := spawn[1..];
      }
      assert Value().ListOk(p);
      Prepoll(p);
    }

    /** `vk_kern_dispatch_proc` */
    method DispatchProc(p: nat, ex: Execution)
      requires Executing(p)
      modifies this, runProcs, blockedProcs, dirtyFds, freshFds
      ensures Valid() && freshFds.elems == [] && Value() == old(Value()).Dispatch(p, ex)
    {
      ghost var start := Value();
      DispatchKeeps(start, p, ex);
      ExecutedKeeps(start, p, ex);
      ExecuteProc(p, ex);
      FlushPlaces(Value(), p);
      FlushKeeps(Value(), p);
      FlushProcQueues(p);
      if !procs[p].runQed && !procs[p].blockedQed {
        assert Value().ListOk(p);
        PrepollZombie(p);
        procs := procs[p := procs[p].(live := false)];
      }
    }

    /** One turn of the second loop of `vk_kern_postpoll`. */
    method DispatchFirst(ex: Execution)
      requires Valid() && freshFds.elems == [] && runProcs.elems != []
      modifies this, runProcs, blockedProcs, dirtyFds, freshFds
      ensures Valid() && freshFds.elems == []
      ensures Value() == old(Value()).DequeueRun().Dispatch(old(Value()).runProcs[0], ex)
    {
      ghost var before := Value();
      var next := DequeueRun();
      DequeueRunKeeps(before);
      FdSideOfProcs(before, Value());
      DispatchProc(next.value, ex);
    }

    /** The first loop of `vk_kern_postpoll`. */
    method WakeFresh()
      requires Valid()
      modifies this, runProcs, freshFds
      ensures Valid() && freshFds.elems == [] && Value() == old(Value()).WakeFresh()
    {
      ghost var start := Value();
      WakeFreshWakes(start);
      while true
        invariant Valid() && Value().WakeFresh() == start.WakeFresh()
        decreases |freshFds.elems|
      {
        ghost var before := Value();
        var next := DequeueFresh();
        if next.None? {
          return;
        }
        assert before.freshFds[0] in before.freshFds;
        FreshIsLive(before, before.freshFds[0]);
        WakeOneKeeps(before);
        EnqueueRun(fds[next.value].procId);
      }
    }

    /**
     `vk_kern_postpoll`: wake the owners of fresh descriptors and dispatch until nothing is left to
     run. Where the script of executions ends the pass is suspended.
     */
    method Postpoll(script: seq<Execution>) returns (complete: bool)
      requires Valid()
      modifies this, runProcs, blockedProcs, dirtyFds, freshFds
      ensures Valid() && freshFds.elems == []
      ensures var pass := old(Value()).Postpoll(script); Value() == pass.k && complete == pass.complete
      ensures complete ==> runProcs.elems == []
    {
      WakeFresh();
      ghost var start := Value();
      var rest := script;
      while true
        invariant Valid() && freshFds.elems == []
        invariant start.RunAll(script).k == Value().RunAll(rest).k
        invariant start.RunAll(script).complete == Value().RunAll(rest).complete
        decreases |rest|
      {
        if rest == [] {
          return runProcs.IsEmpty();
        }
        if runProcs.IsEmpty() {
          return true;
        }
        DispatchFirst(rest[0]);
        rest := rest[1..];
      }
    }

    /** `vk_kern_loop`; where the rounds or a script end the run is suspended. */
    method RunLoop(first: seq<Execution>, rounds: seq<Round>) returns (end: LoopEnd)
      requires Valid() && Value().Postpoll(first).complete
      requires Answered(Value().Postpoll(first).k, rounds)
      modifies this, runProcs, blockedProcs, dirtyFds, freshFds
      ensures Valid()
      ensures var l := Loop(old(Value()).Postpoll(first).k, rounds); Value() == l.k && end == l.end
    {
      var complete := Postpoll(first);
      ghost var start := Value();
      var rest := rounds;
      while rest != []
        invariant Valid() && freshFds.elems == [] && Answered(Value(), rest)
        invariant Loop(start, rounds) == Loop(Value(), rest)
        decreases |rest|
      {
        Poll(rest[0].results);
        complete := Postpoll(rest[0].script);
        if !complete {
          return Cut;
        }
        var pending := IsPending();
        if !pending {
          return Exited;
        }
        rest := rest[1..];
      }
      end := Waiting;
    }
  }

  /** One more turn of the loop that builds the poll array. */
  lemma {:induction false} PollArrayStep(k: Kernel, walk: seq<nat>, polled: seq<nat>)
    requires walk != []
    ensures polled + k.PollArray(walk) ==
            (if k.Clean(walk[0]).Polls(walk[0]) then polled + [walk[0]] else polled)
            + k.Prepare(walk[0]).PollArray(walk[1..])
  {
    var tail := k.Prepare(walk[0]).PollArray(walk[1..]);
    assert polled + ([walk[0]] + tail) == polled + [walk[0]] + tail;
    assert [] + tail == tail;
  }

  /** The walk over closed descriptors does not disturb the blocked sockets. */
  lemma {:induction false} ReleaseClosedRegs(k: Kernel, p: nat, walk: seq<nat>)
    requires p < |k.procs|
    ensures k.ReleaseClosed(p, walk).procs[p].regs == k.procs[p].regs
    decreases |walk|
  {
    if walk != [] {
      if walk[0] < |k.fds| && k.fds[walk[0]].closed {
        ReleaseClosedRegs(k.EnqueueDirty(walk[0]).DeallocateFd(p, walk[0]), p, walk[1..]);
      } else {
        ReleaseClosedRegs(k, p, walk[1..]);
      }
    }
  }
}
