/**
 The state of the kernel and the meaning of its operations: the run and blocked lists of processes,
 the descriptor table with its dirty and fresh lists, and one pass of the poll loop. Records are
 addressed by index. The class `Kern` is proved against these functions.
 */
module Kernel {
  import opened SList
  import opened Process

  /** `struct vk_fd` */
  datatype Fd = Fd(
    inUse: bool,
    procId: nat,
    closed: bool,
    zombie: bool,
    dirtyQed: bool,
    freshQed: bool,
    pre: Future,
    post: Future,
    ret: Future)

  /** What a socket on a local blocked queue asks of the poller, in each direction. */
  datatype Reg = Reg(rx: Future, tx: Future)

  /** `struct vk_proc`, with the part of its local state that the kernel reads. */
  datatype Proc = Proc(
    live: bool,
    runQed: bool,
    blockedQed: bool,
    fds: seq<nat>,
    localRun: bool,
    regs: seq<Reg>)

  datatype Kernel = Kernel(
    procs: seq<Proc>,
    runProcs: seq<nat>,
    blockedProcs: seq<nat>,
    fds: seq<Fd>,
    dirtyFds: seq<nat>,
    freshFds: seq<nat>)
  {
    predicate SameShape(k: Kernel) {
      |k.procs| == |procs| && |k.fds| == |fds|
    }

    function SetProc(p: nat, x: Proc): (k: Kernel)
      ensures SameShape(k)
    {
      if p < |procs| then this.(procs := procs[p := x]) else this
    }

    function SetFd(f: nat, x: Fd): (k: Kernel)
      ensures SameShape(k)
    {
      if f < |fds| then this.(fds := fds[f := x]) else this
    }

    // ---- process lists ----

    /** `vk_kern_enqueue_run` */
    function EnqueueRun(p: nat): (k: Kernel)
      ensures SameShape(k)
    {
      if p < |procs| && !procs[p].runQed then
        SetProc(p, procs[p].(runQed := true)).(runProcs := [p] + runProcs)
      else this
    }

    function EnqueueBlocked(p: nat): (k: Kernel)
      ensures SameShape(k)
    {
      if p < |procs| && !procs[p].blockedQed then
        SetProc(p, procs[p].(blockedQed := true)).(blockedProcs := [p] + blockedProcs)
      else this
    }

    function DropRun(p: nat): (k: Kernel)
      ensures SameShape(k)
    {
      if p < |procs| && procs[p].runQed then
        SetProc(p, procs[p].(runQed := false)).(runProcs := Without(runProcs, p))
      else this
    }

    function DropBlocked(p: nat): (k: Kernel)
      ensures SameShape(k)
    {
      if p < |procs| && procs[p].blockedQed then
        SetProc(p, procs[p].(blockedQed := false)).(blockedProcs := Without(blockedProcs, p))
      else this
    }

    /** `vk_kern_dequeue_run` */
    function DequeueRun(): (k: Kernel)
      requires runProcs != []
      ensures SameShape(k)
    {
      var p := runProcs[0];
      var k := this.(runProcs := runProcs[1..]);
      if p < |procs| then k.SetProc(p, procs[p].(runQed := false)) else k
    }

    function FlushRun(p: nat): (k: Kernel)
      ensures SameShape(k)
    {
      if p < |procs| && procs[p].localRun then EnqueueRun(p) else DropRun(p)
    }

    function FlushBlocked(p: nat): (k: Kernel)
      ensures SameShape(k)
    {
      if p < |procs| && procs[p].regs != [] then EnqueueBlocked(p) else DropBlocked(p)
    }

    /** `vk_kern_flush_proc_queues` */
    function Flush(p: nat): (k: Kernel)
      ensures SameShape(k)
    {
      FlushRun(p).FlushBlocked(p)
    }

    // ---- descriptor lists ----

    function EnqueueDirty(f: nat): (k: Kernel)
      ensures SameShape(k)
    {
      if f < |fds| && !fds[f].dirtyQed then
        SetFd(f, fds[f].(dirtyQed := true)).(dirtyFds := [f] + dirtyFds)
      else this
    }

    function EnqueueFresh(f: nat): (k: Kernel)
      ensures SameShape(k)
    {
      if f < |fds| && !fds[f].freshQed then
        SetFd(f, fds[f].(freshQed := true)).(freshFds := [f] + freshFds)
      else this
    }

    function DropDirty(f: nat): (k: Kernel)
      ensures SameShape(k)
    {
      if f < |fds| && fds[f].dirtyQed then
        SetFd(f, fds[f].(dirtyQed := false)).(dirtyFds := Without(dirtyFds, f))
      else this
    }

    function DropFresh(f: nat): (k: Kernel)
      ensures SameShape(k)
    {
      if f < |fds| && fds[f].freshQed then
        SetFd(f, fds[f].(freshQed := false)).(freshFds := Without(freshFds, f))
      else this
    }

    /** `vk_fd_table_dequeue_fresh` */
    function DequeueFresh(): (k: Kernel)
      requires freshFds != []
      ensures SameShape(k)
    {
      var f := freshFds[0];
      var k := this.(freshFds := freshFds[1..]);
      if f < |fds| then k.SetFd(f, fds[f].(freshQed := false)) else k
    }

    // ---- allocation ----

    /** `vk_proc_allocate_fd` on a descriptor that nobody has allocated. */
    function AllocateFd(p: nat, f: nat): (k: Kernel)
      ensures SameShape(k)
    {
      if p < |procs| && f < |fds| && !fds[f].inUse then
        SetFd(f, fds[f].(procId := p, inUse := true, closed := false, zombie := false))
        .SetProc(p, procs[p].(fds := [f] + procs[p].fds))
      else this
    }

    /** `vk_proc_deallocate_fd` */
    function DeallocateFd(p: nat, f: nat): (k: Kernel)
      ensures SameShape(k)
    {
      if p < |procs| && f < |fds| && fds[f].inUse then
        SetFd(f, fds[f].(inUse := false)).SetProc(p, procs[p].(fds := Without(procs[p].fds, f)))
      else this
    }

    // ---- registration ----

    /** `vk_fd_table_prepoll_blocked_fd` */
    function PrepollFd(p: nat, ask: Future): (k: Kernel)
      ensures SameShape(k)
    {
      if 0 <= ask.fd < |fds| then
        var k := AllocateFd(p, ask.fd);
        var l := k.SetFd(ask.fd, k.fds[ask.fd].(pre := IDLE.(fd := ask.fd, events := ask.events)));
        if ask.events != {} then l.EnqueueDirty(ask.fd) else l
      else this
    }

    /** `vk_fd_table_prepoll_blocked_socket`: one descriptor used both ways registers its read side only. */
    function PrepollSocket(p: nat, reg: Reg): (k: Kernel)
      ensures SameShape(k)
    {
      var k := if reg.rx.fd != -1 then PrepollFd(p, reg.rx) else this;
      if reg.tx.fd != -1 && reg.tx.fd != reg.rx.fd then k.PrepollFd(p, reg.tx) else k
    }

    /** The first walk of `vk_proc_prepoll`, over the descriptors `walk`. */
    function ReleaseClosed(p: nat, walk: seq<nat>): (k: Kernel)
      ensures SameShape(k)
      decreases |walk|
    {
      if walk == [] then this
      else if walk[0] < |fds| && fds[walk[0]].closed then
        EnqueueDirty(walk[0]).DeallocateFd(p, walk[0]).ReleaseClosed(p, walk[1..])
      else ReleaseClosed(p, walk[1..])
    }

    /** The second walk, over the blocked sockets. */
    function Register(p: nat, regs: seq<Reg>): (k: Kernel)
      ensures SameShape(k)
      decreases |regs|
    {
      if regs == [] then this else PrepollSocket(p, regs[0]).Register(p, regs[1..])
    }

    /** `vk_proc_prepoll` */
    function Prepoll(p: nat): (k: Kernel)
      ensures SameShape(k)
    {
      if p < |procs| then ReleaseClosed(p, procs[p].fds).Register(p, procs[p].regs) else this
    }

    /** One descriptor of `vk_fd_table_prepoll_zombie`. */
    function Bury(p: nat, f: nat): (k: Kernel)
      ensures SameShape(k)
    {
      if f < |fds| then
        SetFd(f, fds[f].(pre := fds[f].pre.(rxClosed := true, txClosed := true), zombie := true))
        .EnqueueDirty(f).DeallocateFd(p, f)
      else this
    }

    /** `vk_fd_table_prepoll_zombie`, over the descriptors `walk`. */
    function BuryAll(p: nat, walk: seq<nat>): (k: Kernel)
      ensures SameShape(k)
      decreases |walk|
    {
      if walk == [] then this else Bury(p, walk[0]).BuryAll(p, walk[1..])
    }

    // ---- the poll driver ----

    function DropZombie(f: nat): (k: Kernel)
      ensures SameShape(k)
    {
      if f < |fds| && fds[f].zombie then DropDirty(f).DropFresh(f) else this
    }

    function MarkClosed(f: nat): (k: Kernel)
      ensures SameShape(k)
    {
      if f < |fds| then
        SetFd(f, fds[f].(closed := true,
                         post := fds[f].post.(rxClosed := true, txClosed := true),
                         ret := fds[f].ret.(rxClosed := true, txClosed := true)))
      else this
    }

    /** A close is asked for and not yet done. */
    predicate Closes(f: nat) {
      f < |fds| && !fds[f].closed && (fds[f].zombie || (fds[f].pre.rxClosed && fds[f].pre.txClosed))
    }

    /** `vk_fd_table_clean_fd` */
    function Clean(f: nat): (k: Kernel)
      ensures SameShape(k)
    {
      var k := DropZombie(f);
      if k.Closes(f) then
        var l := k.MarkClosed(f).DropDirty(f);
        if !l.fds[f].zombie then l.EnqueueFresh(f) else l
      else k
    }

    /** The descriptor goes into the poll array. */
    predicate Polls(f: nat) {
      f < |fds| && !fds[f].closed && fds[f].pre.events != {}
    }

    /** One turn of the first loop of `vk_fd_table_poll`. */
    function Prepare(f: nat): (k: Kernel)
      ensures SameShape(k)
    {
      var k := Clean(f);
      if k.Polls(f) then k.SetFd(f, k.fds[f].(post := k.fds[f].pre)) else k
    }

    /** That loop, over the dirty descriptors `walk`. */
    function PrepareAll(walk: seq<nat>): (k: Kernel)
      ensures SameShape(k)
      decreases |walk|
    {
      if walk == [] then this else Prepare(walk[0]).PrepareAll(walk[1..])
    }

    /** What it puts into the poll array. */
    function PollArray(walk: seq<nat>): seq<nat>
      decreases |walk|
    {
      if walk == [] then []
      else (if Clean(walk[0]).Polls(walk[0]) then [walk[0]] else []) + Prepare(walk[0]).PollArray(walk[1..])
    }

    /** The polled state of `f`, when the system reported `revents` for it. */
    function TakeReport(f: nat, revents: set<PollBit>): (k: Kernel)
      ensures SameShape(k)
    {
      if f < |fds| then
        var post := fds[f].post.(revents := revents,
                                 rxClosed := fds[f].post.rxClosed || Hup in revents || Fault in revents,
                                 txClosed := fds[f].post.txClosed || RdHup in revents);
        SetFd(f, fds[f].(post := post, ret := post))
      else this
    }

    /** Stop asking for what was returned, when everything asked for was. */
    function DropReturned(f: nat): (k: Kernel)
      ensures SameShape(k)
    {
      if f < |fds| && fds[f].pre.events * fds[f].ret.revents == fds[f].pre.events then
        var drop := fds[f].ret.revents * fds[f].ret.events;
        var rest := (fds[f].pre.events - drop) + (drop - fds[f].pre.events);
        var k := SetFd(f, fds[f].(pre := fds[f].pre.(events := rest)));
        if rest == {} then k.DropDirty(f) else k
      else this
    }

    /** `vk_fd_table_process_fd` */
    function ProcessFd(f: nat, revents: set<PollBit>): (k: Kernel)
      ensures SameShape(k)
    {
      var k := TakeReport(f, revents);
      var l := if revents != {} then k.EnqueueFresh(f) else k;
      l.DropReturned(f)
    }

    /** The second loop of `vk_fd_table_poll`. */
    function ProcessAll(polled: seq<nat>, results: seq<set<PollBit>>): (k: Kernel)
      ensures SameShape(k)
      decreases |polled|
    {
      if polled == [] || results == [] then this
      else ProcessFd(polled[0], results[0]).ProcessAll(polled[1..], results[1..])
    }

    /** `vk_kern_pending` */
    predicate Pending() {
      runProcs != [] || blockedProcs != []
    }

    /** `vk_fd_table_poll`, given what the system reports for each entry of the poll array. */
    function Poll(results: seq<set<PollBit>>): (k: Kernel)
      ensures SameShape(k)
    {
      var k := PrepareAll(dirtyFds);
      if k.Pending() then k.ProcessAll(PollArray(dirtyFds), results) else k
    }

    // ---- dispatch ----

    /** A process that did not exist starts with one coroutine to run. */
    function Spawn(p: nat): (k: Kernel)
      ensures SameShape(k)
    {
      if p < |procs| && !procs[p].live then
        SetProc(p, procs[p].(live := true, localRun := true)).Flush(p)
      else this
    }

    function SpawnAll(ps: seq<nat>): (k: Kernel)
      ensures SameShape(k)
      decreases |ps|
    {
      if ps == [] then this else Spawn(ps[0]).SpawnAll(ps[1..])
    }

    /** `vk_proc_is_zombie` */
    predicate IsZombie(p: nat) {
      p < |procs| && !procs[p].runQed && !procs[p].blockedQed
    }

    /** Release what a zombie still holds, and the process itself. */
    function Free(p: nat): (k: Kernel)
      ensures SameShape(k)
    {
      if p < |procs| then
        var k := BuryAll(p, procs[p].fds);
        k.SetProc(p, k.procs[p].(live := false))
      else this
    }

    /** Process `p` has run: it has no coroutine to run, and the sockets `regs` are blocked. */
    function Left(p: nat, regs: seq<Reg>): (k: Kernel)
      ensures SameShape(k)
    {
      if p < |procs| then SetProc(p, procs[p].(localRun := false, regs := regs)) else this
    }

    /** An error-free execution leaves no coroutine to run, some blocked sockets, and new processes. */
    function Executed(p: nat, ex: Execution): (k: Kernel)
      ensures SameShape(k)
    {
      if p < |procs| then Left(p, ex.regs).SpawnAll(ex.spawn).Prepoll(p) else this
    }

    /** `vk_kern_dispatch_proc` */
    function Dispatch(p: nat, ex: Execution): (k: Kernel)
      ensures SameShape(k)
    {
      var k := Executed(p, ex).Flush(p);
      if k.IsZombie(p) then k.Free(p) else k
    }

    /** The first loop of `vk_kern_postpoll`: wake the owner of every fresh descriptor. */
    function WakeFresh(): (k: Kernel)
      ensures SameShape(k)
      decreases |freshFds|
    {
      if freshFds == [] then this
      else
        var f := freshFds[0];
        if f < |fds| then DequeueFresh().EnqueueRun(fds[f].procId).WakeFresh() else DequeueFresh().WakeFresh()
    }

    /** The second loop: dispatch until the run list is empty, or suspend where the script ends. */
    function RunAll(script: seq<Execution>): Pass
      decreases |script|
    {
      if runProcs == [] then Pass(this, true, [])
      else if script == [] then Pass(this, false, [])
      else
        var p := runProcs[0];
        var rest := DequeueRun().Dispatch(p, script[0]).RunAll(script[1..]);
        rest.(dispatched := [p] + rest.dispatched)
    }

    /** `vk_kern_postpoll` */
    function Postpoll(script: seq<Execution>): Pass {
      WakeFresh().RunAll(script)
    }

    // ---- what holds between steps ----

    ghost predicate RunListOk() {
      Distinct(runProcs) && forall p: nat :: p in runProcs <==> p < |procs| && procs[p].runQed
    }

    ghost predicate BlockedListOk() {
      Distinct(blockedProcs) && forall p: nat :: p in blockedProcs <==> p < |procs| && procs[p].blockedQed
    }

    ghost predicate DirtyListOk() {
      Distinct(dirtyFds) && forall f: nat :: f in dirtyFds <==> f < |fds| && fds[f].dirtyQed
    }

    ghost predicate FreshListOk() {
      Distinct(freshFds) && forall f: nat :: f in freshFds <==> f < |fds| && fds[f].freshQed
    }

    /** A descriptor is on the list of the process it is allocated to, and on no other. */
    ghost predicate OwnedOk() {
      && (forall p: nat | p < |procs| :: ListOk(p))
      && (forall f: nat | f < |fds| :: Held(f))
    }

    ghost predicate ListOk(p: nat)
      requires p < |procs|
    {
      && Distinct(procs[p].fds)
      && forall f: nat :: f in procs[p].fds ==> f < |fds| && fds[f].inUse && fds[f].procId == p
    }

    ghost predicate Held(f: nat)
      requires f < |fds|
    {
      fds[f].inUse && fds[f].procId < |procs| ==> f in procs[fds[f].procId].fds
    }

    ghost predicate FdOk(f: nat)
      requires f < |fds|
    {
      var x := fds[f];
      && (x.inUse ==> x.procId < |procs| && procs[x.procId].live && !x.zombie)
      && (x.dirtyQed ==> x.inUse || x.zombie || x.closed)
      && (x.freshQed ==> x.inUse)
    }

    ghost predicate FdsOk() {
      forall f: nat | f < |fds| :: FdOk(f)
    }

    /** A live process is where its local queues say; nothing is left of a dead one. */
    ghost predicate Settled(p: nat)
      requires p < |procs|
    {
      var x := procs[p];
      if x.live then
        (x.runQed || x.blockedQed) && (x.localRun ==> x.runQed) && (x.blockedQed <==> x.regs != [])
      else !x.runQed && !x.blockedQed && !x.localRun && x.regs == []
    }

    /** All processes are settled, save `active` while it executes. */
    ghost predicate SettledBut(active: nat) {
      forall p: nat | p < |procs| && p != active :: Settled(p)
    }

    ghost predicate FdSide() {
      DirtyListOk() && FreshListOk() && OwnedOk() && FdsOk()
    }

    ghost predicate ProcSide(active: nat) {
      RunListOk() && BlockedListOk() && SettledBut(active)
    }

    ghost predicate Inv() {
      FdSide() && ProcSide(|procs|)
    }

    /** `k` differs only in descriptors and in the descriptor lists of processes. */
    ghost predicate SameProcs(k: Kernel) {
      && SameShape(k)
      && k.runProcs == runProcs && k.blockedProcs == blockedProcs
      && forall p: nat | p < |procs| :: k.procs[p] == procs[p].(fds := k.procs[p].fds)
    }

    /** What the poller last reported is still there, and no descriptor has become fresh. */
    ghost predicate SameReports(k: Kernel) {
      && SameShape(k)
      && k.freshFds == freshFds
      && forall f: nat | f < |fds| :: k.fds[f].ret == fds[f].ret && k.fds[f].freshQed == fds[f].freshQed
    }
  }

  /** The outcome of `vk_proc_execute`: the sockets left blocked and the processes it started. */
  datatype Execution = Execution(regs: seq<Reg>, spawn: seq<nat>)

  /** A pass over the run list: complete or suspended, and which processes it dispatched. */
  datatype Pass = Pass(k: Kernel, complete: bool, dispatched: seq<nat>)
}
