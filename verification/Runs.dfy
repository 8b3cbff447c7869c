/**
 Whole runs of the two levels from boot: they are runs of the kernel whose executions are those of the
 processes, every event of every run reaches its coroutine, and what a dispatch leaves blocked is polled.
 */
module Runs {
  import opened Process
  import opened Kernel
  import opened KernelInv
  import opened KernelRun
  import opened Registration
  import opened Watch
  import Retries
  import opened Wakeup
  import opened System

  // ---- what a dispatch registers ----

  /** A dispatch that leaves a socket blocked leaves the descriptors as its registration does. */
  lemma {:induction false} DispatchFds(k: Kernel, p: nat, ex: Execution)
    requires k.FdSide() && k.ProcSide(p) && k.freshFds == [] && p < |k.procs| && k.procs[p].live
    requires ex.regs != []
    ensures var b, n := k.Left(p, ex.regs).SpawnAll(ex.spawn), k.Dispatch(p, ex);
      && b.FdSide() && b.fds == k.fds && b.freshFds == [] && k.SameShape(b)
      && b.procs[p].live && b.procs[p].regs == ex.regs
      && n.fds == b.Prepoll(p).fds && n.dirtyFds == b.Prepoll(p).dirtyFds && n.procs[p].live
  {
    EnterKeeps(k, p, ex);
    var m := k.Left(p, ex.regs);
    SpawnAllKeeps(m, p, ex.spawn);
    SpawnAllFds(m, ex.spawn);
    ExecutedKeeps(k, p, ex);
    FlushPlaces(k.Executed(p, ex), p);
  }

  /** A descriptor that was registered anew is polled exactly if that was for any event. */
  lemma {:induction false} NewlyPolled(k: Kernel, f: nat, ask: set<PollBit>)
    requires k.FdSide() && f < |k.fds| && k.fds[f].inUse && !k.fds[f].closed
    requires k.fds[f].pre == IDLE.(fd := f, events := ask) && (ask != {} ==> k.fds[f].dirtyQed)
    ensures f in k.PollArray(k.dirtyFds) <==> ask != {}
  {
    assert k.FdOk(f);
    PollArrayIs(k, k.dirtyFds, f);
  }

  /** What a dispatch leaves registered of descriptor `f`, which its `last` socket is the last one to name. */
  lemma {:induction false} DispatchPolls(k: Kernel, p: nat, ex: Execution, f: nat, last: nat)
    requires k.FdSide() && k.ProcSide(p) && k.freshFds == [] && p < |k.procs| && k.procs[p].live
    requires f < |k.fds| && (k.fds[f].inUse ==> k.fds[f].procId == p)
    requires last < |ex.regs| && Names(ex.regs[last], f)
    requires forall i :: last < i < |ex.regs| ==> !Names(ex.regs[i], f)
    ensures Registered(k.Dispatch(p, ex), p, f, AskedOf(ex.regs[last], f))
  {
    DispatchFds(k, p, ex);
    var b := k.Left(p, ex.regs).SpawnAll(ex.spawn);
    LastAskIs(ex.regs, f, last);
    PrepollRegisters(b, p, f);
    DispatchKeeps(k, p, ex);
    NewlyPolled(k.Dispatch(p, ex), f, AskedOf(ex.regs[last], f));
  }

  /** The live process `p` holds `f`, which is registered for `ask`, and polled if that is anything. */
  ghost predicate Registered(k: Kernel, p: nat, f: nat, ask: set<PollBit>) {
    && p < |k.procs| && f < |k.fds|
    && k.procs[p].live && k.fds[f].inUse && k.fds[f].procId == p && k.fds[f].pre.events == ask
    && (f in k.PollArray(k.dirtyFds) <==> ask != {})
  }

  /** The socket at place `last` of a blocked queue is the last one that names `f`. */
  ghost predicate LastNaming(p: Local, last: nat, f: nat) {
    && last < |p.blockedQ| && Names(RequestOf(p, p.blockedQ[last]), f)
    && forall i :: last < i < |p.blockedQ| ==> !Names(RequestOf(p, p.blockedQ[i]), f)
  }

  /**
   What the coroutines of a process leave blocked is polled: of all sockets that name a descriptor the
   last of the queue decides. The descriptor is polled if and only if that socket asks for something,
   and a socket has all it waits for registered if and only if the last one asks for it.
   */
  lemma {:induction false} BlockedSocketsPolled(s: System, p: nat, script: Script, f: nat, j: nat, last: nat)
    requires s.Dispatching(p) && s.Succeeds(p, script) && forall b :: b in script.births ==> Viable(b)
    requires f < |s.k.fds| && (s.k.fds[f].inUse ==> s.k.fds[f].procId == p)
    requires var q := s.Ran(p, script).p;
      LastNaming(q, last, f) && j <= last && Names(RequestOf(q, q.blockedQ[j]), f)
    ensures var q, n := s.Ran(p, script).p, s.Dispatch(p, script);
      var wait, ask := WaitOf(RequestOf(q, q.blockedQ[j]), f), AskedOf(RequestOf(q, q.blockedQ[last]), f);
      && n.Inv() && Registered(n.k, p, f, ask) && n.k.procs[p].regs == Requests(q)
      && (wait <= n.k.fds[f].pre.events <==> wait <= ask)
  {
    DispatchKeepsTies(s, p, script);
    var ex := s.ExecutionOf(p, script);
    DispatchKeeps(s.k, p, ex);
    DispatchPolls(s.k, p, ex, f, last);
  }

  predicate Uses(x: Socket, f: nat) {
    x.rxPre.fd == f || x.txPre.fd == f
  }

  /** The socket at place `last` of the blocked queue is the last one that uses `f`. */
  ghost predicate LastUser(p: Local, last: nat, f: nat) {
    && last < |p.blockedQ| && p.blockedQ[last] < |p.sockets| && Uses(p.sockets[p.blockedQ[last]], f)
    && forall i :: last < i < |p.blockedQ| && p.blockedQ[i] < |p.sockets| ==> !Uses(p.sockets[p.blockedQ[i]], f)
  }

  /** What socket `x` waits to do on `f`: a descriptor used both ways is waited for to be read only. */
  predicate StuckOn(x: Socket, f: nat) {
    if x.rxPipe.Fd() == f then x.rxPipe.OsFd? && x.rx.rxBlocked else x.txPipe.OsFd? && x.tx.txBlocked
  }

  /**
   In terms of the rings: the descriptor is polled exactly if the ring of that socket is blocked, for reading
   if the socket reads it and for writing otherwise, provided its futures are as its last handler left them.
   */
  lemma {:induction false} BlockedRingPolled(s: System, p: nat, script: Script, f: nat, last: nat)
    requires s.Dispatching(p) && s.Succeeds(p, script) && forall b :: b in script.births ==> Viable(b)
    requires f < |s.k.fds| && (s.k.fds[f].inUse ==> s.k.fds[f].procId == p)
    requires var q := s.Ran(p, script).p; LastUser(q, last, f) && Retries.Asked(q.sockets[q.blockedQ[last]])
    ensures var q, n := s.Ran(p, script).p, s.Dispatch(p, script).k;
      var x := q.sockets[q.blockedQ[last]];
      && s.k.SameShape(n)
      && (f in n.PollArray(n.dirtyFds) <==> StuckOn(x, f))
      && n.fds[f].pre.events == (if StuckOn(x, f) then {if x.rxPipe.Fd() == f then In else Out} else {})
  {
    var q := s.Ran(p, script).p;
    RanIsSound(s, p, script);
    UsersName(q, last, f);
    DispatchKeepsTies(s, p, script);
    BlockedSocketsPolled(s, p, script, f, last, last);
  }

  lemma {:induction false} RanIsSound(s: System, p: nat, script: Script)
    requires s.Dispatching(p) && s.Succeeds(p, script)
    ensures s.Ran(p, script).p.Inv()
  {
    assert s.Tied(p);
    Scheduler.NoLostWakeup(s.locals[p], Table(s.k), script.ios);
    ExecutionLeaves(s.Postpolled(p, script.ios).p, script.turns);
  }

  lemma {:induction false} UsersName(q: Local, last: nat, f: nat)
    requires q.Inv() && LastUser(q, last, f)
    ensures LastNaming(q, last, f)
    ensures var x := q.sockets[q.blockedQ[last]];
      AskedOf(RequestOf(q, q.blockedQ[last]), f) == if x.rxPre.fd == f then x.rxPre.events else x.txPre.events
  {
    forall i | last < i < |q.blockedQ|
      ensures !Names(RequestOf(q, q.blockedQ[i]), f)
    {
      assert q.blockedQ[i] in q.blockedQ;
    }
  }

  // ---- the kernel's view ----

  /** What the dispatches of a pass are to the kernel. */
  function Executions(s: System, scripts: seq<Script>): seq<Execution>
    decreases |scripts|
  {
    if s.k.runProcs == [] || scripts == [] || s.k.runProcs[0] >= |s.locals| then []
    else
      var p, d := s.k.runProcs[0], System(s.k.DequeueRun(), s.locals);
      [d.ExecutionOf(p, scripts[0])] + Executions(d.Dispatch(p, scripts[0]), scripts[1..])
  }


  function Dispatched(trace: seq<Entry>): (r: seq<nat>)
    ensures |r| == |trace|
  {
    if trace == [] then [] else [trace[0].pid] + Dispatched(trace[1..])
  }

  /** A pass in which nothing fails is the kernel's pass over those executions, process by process. */
  lemma {:induction false} PassRefines(s: System, scripts: seq<Script>)
    requires s.Inv() && s.k.freshFds == [] && AllViable(scripts)
    requires RunAll(s, scripts).end != Broken
    ensures var sweep := RunAll(s, scripts);
      s.k.RunAll(Executions(s, scripts)) == Pass(sweep.s.k, sweep.end == Complete, Dispatched(sweep.trace))
    decreases |scripts|
  {
    if s.k.runProcs != [] && scripts != [] {
      DequeueDispatches(s);
      var p, d := s.k.runProcs[0], System(s.k.DequeueRun(), s.locals);
      var n := d.Dispatch(p, scripts[0]);
      FirstViable(scripts);
      DispatchKeepsTies(d, p, scripts[0]);
      PassRefines(n, scripts[1..]);
      FirstExecution(s, scripts);
    }
  }

  lemma {:induction false} FirstExecution(s: System, scripts: seq<Script>)
    requires s.k.runProcs != [] && scripts != [] && s.k.runProcs[0] < |s.locals|
    requires RunAll(s, scripts).end != Broken
    ensures var p, d := s.k.runProcs[0], System(s.k.DequeueRun(), s.locals);
      var n, exs := d.Dispatch(p, scripts[0]), Executions(s, scripts);
      && exs != [] && n.k == s.k.DequeueRun().Dispatch(p, exs[0])
      && exs[1..] == Executions(n, scripts[1..])
      && RunAll(s, scripts).s == RunAll(n, scripts[1..]).s && RunAll(s, scripts).end == RunAll(n, scripts[1..]).end
      && Dispatched(RunAll(s, scripts).trace) == [p] + Dispatched(RunAll(n, scripts[1..]).trace)
  {
    var p, d := s.k.runProcs[0], System(s.k.DequeueRun(), s.locals);
    assert RunAll(s, scripts).trace[1..] == RunAll(d.Dispatch(p, scripts[0]), scripts[1..]).trace;
  }

  // ---- the loop ----

  /** The poller's results and what happens in the dispatches of one round of `vk_kern_loop`. */
  datatype Turn = Turn(results: seq<set<PollBit>>, scripts: seq<Script>)

  /** The loop has returned, or goes on; its last pass did not come to its end; or a process failed. */
  datatype RunEnd = Returned | Pending | Short | Failed

  datatype Course = Course(s: System, end: RunEnd)

  /** `vk_kern_loop` */
  function Loop(s: System, turns: seq<Turn>): Course
    decreases |turns|
  {
    if turns == [] then Course(s, Pending)
    else
      var sweep := Postpoll(Poll(s, turns[0].results), turns[0].scripts);
      if sweep.end == Broken then Course(sweep.s, Failed)
      else if sweep.end == Suspended then Course(sweep.s, Short)
      else if !sweep.s.k.Pending() then Course(sweep.s, Returned)
      else Loop(sweep.s, turns[1..])
  }

  /** The system reports on every entry of the poll array, and processes are set up as they should be. */
  ghost predicate Played(s: System, turns: seq<Turn>)
    decreases |turns|
  {
    turns != [] ==>
      && |turns[0].results| == |s.k.PollArray(s.k.dirtyFds)| && AllViable(turns[0].scripts)
      && Played(Postpoll(Poll(s, turns[0].results), turns[0].scripts).s, turns[1..])
  }

  /** What the rounds are to the kernel. */
  function Rounds(s: System, turns: seq<Turn>): seq<Round>
    decreases |turns|
  {
    if turns == [] then []
    else
      var n := Poll(s, turns[0].results);
      [Round(turns[0].results, Executions(System(n.k.WakeFresh(), n.locals), turns[0].scripts))]
      + Rounds(Postpoll(n, turns[0].scripts).s, turns[1..])
  }

  /** One round keeps the two levels tied, and is a round of the kernel. */
  lemma {:induction false} TurnTies(s: System, turn: Turn)
    requires s.Inv() && |turn.results| == |s.k.PollArray(s.k.dirtyFds)| && AllViable(turn.scripts)
    ensures var n := Poll(s, turn.results);
      var sweep, pass := Postpoll(n, turn.scripts),
        n.k.Postpoll(Executions(System(n.k.WakeFresh(), n.locals), turn.scripts));
      sweep.end != Broken ==>
        && sweep.s.Inv() && sweep.s.k.freshFds == []
        && pass == Pass(sweep.s.k, sweep.end == Complete, Dispatched(sweep.trace))
  {
    PollTies(s, turn.results);
    var n := Poll(s, turn.results);
    WakeTies(n);
    var w := System(n.k.WakeFresh(), n.locals);
    RunAllTies(w, turn.scripts);
    if RunAll(w, turn.scripts).end != Broken {
      PassRefines(w, turn.scripts);
    }
  }

  function KernelEnd(end: RunEnd): LoopEnd
    requires end != Failed
  {
    match end
    case Returned => Exited
    case Pending => Waiting
    case Short => Cut
  }

  /** Every run of the two levels in which nothing fails is a run of the kernel alone. */
  lemma {:induction false} LoopRefines(s: System, turns: seq<Turn>)
    requires s.Inv() && s.k.freshFds == [] && Played(s, turns)
    ensures var run := Loop(s, turns);
      run.end != Failed ==>
        && run.s.Inv() && run.s.k.freshFds == []
        && KernelRun.Loop(s.k, Rounds(s, turns)) == LoopState(run.s.k, KernelEnd(run.end))
    decreases |turns|
  {
    if turns != [] {
      TurnTies(s, turns[0]);
      var sweep := Postpoll(Poll(s, turns[0].results), turns[0].scripts);
      if sweep.end == Complete {
        LoopRefines(sweep.s, turns[1..]);
      }
      var rounds := Rounds(s, turns);
      assert rounds[1..] == Rounds(sweep.s, turns[1..]);
    }
  }

  // ---- from boot ----

  const NOTHING: Local := Local(false, false, [], [], [], [])

  /** Before any process exists. */
  function Boot(procCount: nat, fdCount: nat): System {
    System(Booted(procCount, fdCount), seq(procCount, p => NOTHING))
  }

  /** The first processes have been created. */
  function Start(procCount: nat, fdCount: nat, births: seq<Birth>): System {
    var b := Boot(procCount, fdCount);
    System(b.k.SpawnAll(Pids(b.k, births)), Born(b.k, b.locals, births))
  }

  lemma {:induction false} StartTied(procCount: nat, fdCount: nat, births: seq<Birth>)
    requires forall b :: b in births ==> Viable(b)
    ensures Start(procCount, fdCount, births).Inv() && Start(procCount, fdCount, births).k.freshFds == []
  {
    var b := Boot(procCount, fdCount);
    forall p: nat | p < procCount
      ensures b.Tied(p)
    {
      assert Requests(NOTHING) == [];
    }
    SpawnAllKeeps(b.k, procCount, Pids(b.k, births));
    BornTied(b.k, b.locals, births, procCount);
  }

  /** `vk_kern_postpoll` on the first processes, then the loop. */
  function FromBoot(procCount: nat, fdCount: nat, births: seq<Birth>, first: seq<Script>, turns: seq<Turn>): Course {
    var sweep := Postpoll(Start(procCount, fdCount, births), first);
    if sweep.end != Complete then Course(sweep.s, if sweep.end == Broken then Failed else Short)
    else Loop(sweep.s, turns)
  }

  /** The run is one in which processes are set up as they should be and the system answers each poll. */
  ghost predicate Plays(procCount: nat, fdCount: nat, births: seq<Birth>, first: seq<Script>, turns: seq<Turn>) {
    && (forall b :: b in births ==> Viable(b)) && AllViable(first)
    && Played(Postpoll(Start(procCount, fdCount, births), first).s, turns)
  }

  /**
   Over every run from boot the two levels agree; and when the loop has returned, no process lives, no
   descriptor is allocated and no socket is blocked.
   */
  lemma {:induction false} RunsAreTied(
    procCount: nat, fdCount: nat, births: seq<Birth>, first: seq<Script>, turns: seq<Turn>)
    requires Plays(procCount, fdCount, births, first, turns)
    ensures var run := FromBoot(procCount, fdCount, births, first, turns);
      && (run.end != Failed ==> run.s.Inv() && run.s.k.freshFds == [])
      && (run.end == Returned ==>
            && (forall p: nat | p < |run.s.k.procs| :: !run.s.k.procs[p].live && run.s.locals[p].blockedQ == [])
            && (forall f: nat | f < |run.s.k.fds| :: !run.s.k.fds[f].inUse))
  {
    var s := Start(procCount, fdCount, births);
    StartTied(procCount, fdCount, births);
    WakeTies(s);
    RunAllTies(System(s.k.WakeFresh(), s.locals), first);
    var sweep := Postpoll(s, first);
    if sweep.end == Complete {
      LoopRefines(sweep.s, turns);
      var run := Loop(sweep.s, turns);
      if run.end == Returned {
        ExitedIdle(sweep.s.k, Rounds(sweep.s, turns));
        NothingLeft(run.s.k);
        DeadUnblocked(run.s);
      }
    }
  }

  lemma {:induction false} DeadUnblocked(s: System)
    requires s.Inv() && forall p: nat | p < |s.k.procs| :: !s.k.procs[p].live
    ensures forall p: nat | p < |s.k.procs| :: s.locals[p].blockedQ == []
  {
    forall p: nat | p < |s.k.procs|
      ensures s.locals[p].blockedQ == []
    {
      assert s.k.Settled(p) && s.Tied(p);
      assert |Requests(s.locals[p])| == |s.locals[p].blockedQ|;
    }
  }

  /**
   No event is lost in any run: wherever a run from boot waits for the poller, every event that the
   poller then returns on a descriptor that a blocked socket waits on reaches the coroutine of the socket.
   */
  lemma {:induction false} EveryEventRunsCoroutine(
    procCount: nat, fdCount: nat, births: seq<Birth>, first: seq<Script>, turns: seq<Turn>,
    turn: Turn, i: nat, sock: nat)
    requires Plays(procCount, fdCount, births, first, turns) && AllViable(turn.scripts)
    requires var run := FromBoot(procCount, fdCount, births, first, turns);
      && run.end == Pending && run.s.k.Pending()
      && |turn.results| == |run.s.k.PollArray(run.s.k.dirtyFds)|
    requires i < |turn.results| && turn.results[i] != {}
    ensures ReachesCoroutine(FromBoot(procCount, fdCount, births, first, turns).s, turn.results, turn.scripts, i, sock)
  {
    RunsAreTied(procCount, fdCount, births, first, turns);
    EventRunsCoroutine(FromBoot(procCount, fdCount, births, first, turns).s, turn.results, turn.scripts, i, sock);
  }

  // ---- what stays registered ----

  /** In no round does a process other than `p` leave a socket blocked on `f`. */
  predicate OnlyNames(s: System, turns: seq<Turn>, p: nat, f: nat)
    decreases |turns|
  {
    turns == [] ||
    var n := Poll(s, turns[0].results);
    var w := System(n.k.WakeFresh(), n.locals);
    && OnlyNamedBy(w.k, Executions(w, turns[0].scripts), p, f)
    && OnlyNames(Postpoll(n, turns[0].scripts).s, turns[1..], p, f)
  }

  lemma {:induction false} TurnWatched(s: System, turn: Turn, p: nat, f: nat)
    requires s.Inv() && s.k.freshFds == [] && Watched(s.k, p, f)
    requires |turn.results| == |s.k.PollArray(s.k.dirtyFds)| && AllViable(turn.scripts)
    requires OnlyNames(s, [turn], p, f)
    ensures var sweep := Postpoll(Poll(s, turn.results), turn.scripts);
      sweep.end != Broken ==> Watched(sweep.s.k, p, f) && (sweep.end == Complete ==> sweep.s.k.runProcs == [])
  {
    var n := Poll(s, turn.results);
    var w := System(n.k.WakeFresh(), n.locals);
    TurnTies(s, turn);
    PollTies(s, turn.results);
    WakeTies(n);
    RunAllTies(w, turn.scripts);
    PollWatched(s.k, turn.results, p, f);
    PostpollWatched(n.k, Executions(w, turn.scripts), p, f);
  }

  lemma {:induction false} RunWatched(s: System, turns: seq<Turn>, p: nat, f: nat)
    requires s.Inv() && s.k.freshFds == [] && s.k.runProcs == [] && Played(s, turns)
    requires Watched(s.k, p, f) && OnlyNames(s, turns, p, f)
    ensures var run := Loop(s, turns);
      run.end == Pending ==> run.s.Inv() && run.s.k.freshFds == [] && run.s.k.runProcs == [] && Watched(run.s.k, p, f)
    decreases |turns|
  {
    if turns != [] {
      assert OnlyNames(s, [turns[0]], p, f);
      TurnTies(s, turns[0]);
      TurnWatched(s, turns[0], p, f);
      var sweep := Postpoll(Poll(s, turns[0].results), turns[0].scripts);
      if sweep.end == Complete {
        RunWatched(sweep.s, turns[1..], p, f);
      }
    }
  }

  lemma {:induction false} FirstWatched(
    procCount: nat, fdCount: nat, births: seq<Birth>, first: seq<Script>, p: nat, f: nat)
    requires (forall b :: b in births ==> Viable(b)) && AllViable(first) && p < procCount && f < fdCount
    requires var s := Start(procCount, fdCount, births);
      var w := System(s.k.WakeFresh(), s.locals);
      OnlyNamedBy(w.k, Executions(w, first), p, f)
    ensures var sweep := Postpoll(Start(procCount, fdCount, births), first);
      sweep.end == Complete ==>
        sweep.s.Inv() && sweep.s.k.freshFds == [] && sweep.s.k.runProcs == [] && Watched(sweep.s.k, p, f)
  {
    var b, s := Boot(procCount, fdCount), Start(procCount, fdCount, births);
    var w := System(s.k.WakeFresh(), s.locals);
    StartTied(procCount, fdCount, births);
    SpawnAllKeeps(b.k, |b.k.procs|, []);
    SpawnWatched(b.k, Pids(b.k, births), p, f);
    WakeTies(s);
    RunAllTies(w, first);
    if RunAll(w, first).end == Complete {
      PassRefines(w, first);
      PostpollWatched(s.k, Executions(w, first), p, f);
    }
  }

  /**
   Over every run from boot of both levels, for every process and every descriptor on which no other process
   leaves a socket blocked: wherever the loop waits, the last of the process's blocked sockets that name the
   descriptor is the one it is registered for, and it is polled exactly if that socket asks for something.
   */
  lemma {:induction false} BlockedStaysPolled(
    procCount: nat, fdCount: nat, births: seq<Birth>, first: seq<Script>, turns: seq<Turn>, p: nat, f: nat)
    requires Plays(procCount, fdCount, births, first, turns) && p < procCount && f < fdCount
    requires var s := Start(procCount, fdCount, births);
      var w := System(s.k.WakeFresh(), s.locals);
      OnlyNamedBy(w.k, Executions(w, first), p, f) && OnlyNames(Postpoll(s, first).s, turns, p, f)
    ensures var run := FromBoot(procCount, fdCount, births, first, turns);
      run.end == Pending ==>
        && p < |run.s.locals| && f < |run.s.k.fds|
        && var ask := LastAsk(Requests(run.s.locals[p]), f);
           ask.Some? ==>
             && HeldFor(run.s.k.fds[f], p, f, ask.value)
             && (f in run.s.k.PollArray(run.s.k.dirtyFds) <==> ask.value != {})
  {
    FirstWatched(procCount, fdCount, births, first, p, f);
    var sweep := Postpoll(Start(procCount, fdCount, births), first);
    if sweep.end == Complete {
      RunWatched(sweep.s, turns, p, f);
      var run := Loop(sweep.s, turns);
      if run.end == Pending {
        assert run.s.Tied(p);
        if LastAsk(Requests(run.s.locals[p]), f).Some? {
          WatchedIsPolled(run.s.k, p, f);
        }
      }
    }
  }
}
