/**
 The two levels of scheduling as one state: the kernel, and the local state of every process. A dispatch
 applies the poll results of the table to the process, runs its coroutines, and registers what they
 leave blocked.
 */
module System {
  import opened Machine
  import opened Process
  import Scheduler
  import opened Kernel
  import opened KernelInv
  import opened KernelRun
  import opened Wakeup

  /** A process that an execution starts, as it has set it up. */
  datatype Birth = Birth(pid: nat, local: Local)

  /** What happens in one dispatch: the system's answers to retries, the turns of coroutines, the births. */
  datatype Script = Script(ios: seq<Io>, turns: seq<Scheduler.Turn>, births: seq<Birth>)

  datatype System = System(k: Kernel, locals: seq<Local>) {
    /** What the kernel knows of a process is what its local state says. */
    ghost predicate Tied(p: nat)
      requires p < |locals| && p < |k.procs|
    {
      && locals[p].Inv()
      && k.procs[p].regs == Requests(locals[p])
      && k.procs[p].localRun == locals[p].run
    }

    ghost predicate AllTied() {
      |locals| == |k.procs| && forall p: nat | p < |locals| :: Tied(p)
    }

    ghost predicate Inv() {
      k.Inv() && AllTied()
    }

    /** The state in which process `p` has been taken off the run list. */
    ghost predicate Dispatching(p: nat) {
      && AllTied() && p < |k.procs| && k.procs[p].live
      && k.FdSide() && k.ProcSide(p) && k.freshFds == []
    }

    /** `vk_proc_postpoll` of process `p`. */
    function Postpolled(p: nat, ios: seq<Io>): Handled
      requires p < |locals|
    {
      Scheduler.Postpoll(locals[p], Table(k), ios)
    }

    /** `vk_proc_local_execute` after it. */
    function Ran(p: nat, script: Script): Scheduler.Outcome
      requires p < |locals|
    {
      Scheduler.Execute(Postpolled(p, script.ios).p, None, script.turns)
    }

    /** Neither the postpoll nor the execution of `p` fails. */
    predicate Succeeds(p: nat, script: Script)
      requires p < |locals|
    {
      Postpolled(p, script.ios).ok && Ran(p, script).verdict == Scheduler.Finished
    }

    /** What the dispatch of `p` is to the kernel. */
    function ExecutionOf(p: nat, script: Script): Execution
      requires p < |locals|
    {
      var regs := Requests(Ran(p, script).p);
      Execution(regs, Pids(k.Left(p, regs), script.births))
    }

    /** `vk_kern_dispatch_proc`, when nothing fails. */
    function Dispatch(p: nat, script: Script): (n: System)
      requires p < |locals|
    {
      var q, ex := Ran(p, script).p, ExecutionOf(p, script);
      System(k.Dispatch(p, ex), Born(k.Left(p, ex.regs), locals[p := q], script.births))
    }
  }

  /** A process that does not exist can be set up with coroutines to run and no socket blocked. */
  ghost predicate Viable(b: Birth) {
    b.local.Inv() && b.local.run && b.local.blockedQ == []
  }

  predicate Room(k: Kernel, b: Birth) {
    b.pid < |k.procs| && !k.procs[b.pid].live
  }

  /** The processes that are started: where a process lives already, none is. */
  function Pids(k: Kernel, births: seq<Birth>): seq<nat>
    decreases |births|
  {
    if births == [] then []
    else if Room(k, births[0]) then [births[0].pid] + Pids(k.Spawn(births[0].pid), births[1..])
    else Pids(k, births[1..])
  }

  function Born(k: Kernel, locals: seq<Local>, births: seq<Birth>): (r: seq<Local>)
    ensures |r| == |locals|
    decreases |births|
  {
    if births == [] then locals
    else if Room(k, births[0]) then
      var pid := births[0].pid;
      Born(k.Spawn(pid), if pid < |locals| then locals[pid := births[0].local] else locals, births[1..])
    else Born(k, locals, births[1..])
  }

  // ---- what ties the levels ----

  /** What local state shows of a process is the same in `k` and `n`. */
  ghost predicate SameLocals(k: Kernel, n: Kernel) {
    && k.SameShape(n)
    && forall p: nat | p < |k.procs| ::
         n.procs[p].regs == k.procs[p].regs && n.procs[p].localRun == k.procs[p].localRun
  }

  /** Registering, flushing and freeing change nothing of it. */
  lemma {:induction false} DispatchLocals(k: Kernel, p: nat, ex: Execution)
    requires k.FdSide() && k.ProcSide(p) && k.freshFds == [] && p < |k.procs| && k.procs[p].live
    ensures SameLocals(k.Left(p, ex.regs).SpawnAll(ex.spawn),
                       k.Dispatch(p, ex))
  {
    EnterKeeps(k, p, ex);
    var m := k.Left(p, ex.regs);
    SpawnAllKeeps(m, p, ex.spawn);
    var b := m.SpawnAll(ex.spawn);
    PrepollKeeps(b, p);
    ProcSideOfFds(b, b.Prepoll(p), p);
    var e := b.Prepoll(p);
    FlushPlaces(e, p);
    FlushKeeps(e, p);
    var n := e.Flush(p);
    if n.IsZombie(p) {
      BuryAllKeeps(n, p, n.procs[p].fds);
    }
  }

  /** One birth keeps every process tied. */
  lemma {:induction false} BirthTied(k: Kernel, locals: seq<Local>, b: Birth, p: nat)
    requires k.FdSide() && k.ProcSide(p) && (p < |k.procs| ==> k.procs[p].live)
    requires System(k, locals).AllTied() && Viable(b) && Room(k, b)
    ensures b.pid < |locals| && System(k.Spawn(b.pid), locals[b.pid := b.local]).AllTied()
    ensures forall q: nat | q < |k.procs| && k.procs[q].live :: k.Spawn(b.pid).procs[q].live
  {
    var m := k.SetProc(b.pid, k.procs[b.pid].(live := true, localRun := true));
    FlushPlaces(m, b.pid);
    assert k.Settled(b.pid);
    var n, l := k.Spawn(b.pid), locals[b.pid := b.local];
    forall q: nat | q < |l|
      ensures System(n, l).Tied(q)
    {
      assert System(k, locals).Tied(q);
    }
  }

  /** Births keep every process tied, and leave the local state of those that live alone. */
  lemma {:induction false} BornTied(k: Kernel, locals: seq<Local>, births: seq<Birth>, p: nat)
    requires k.FdSide() && k.ProcSide(p) && (p < |k.procs| ==> k.procs[p].live)
    requires System(k, locals).AllTied() && forall b :: b in births ==> Viable(b)
    ensures var n, l := k.SpawnAll(Pids(k, births)), Born(k, locals, births);
      && System(n, l).AllTied()
      && (forall q: nat | q < |k.procs| && k.procs[q].live :: l[q] == locals[q])
    decreases |births|
  {
    if births != [] {
      var b, rest := births[0], births[1..];
      assert b in births && forall c :: c in rest ==> c in births;
      if Room(k, b) {
        BirthTied(k, locals, b, p);
        SpawnKeeps(k, p, b.pid);
        BornTied(k.Spawn(b.pid), locals[b.pid := b.local], rest, p);
        PidsCons(k, births);
      } else {
        BornTied(k, locals, rest, p);
      }
    }
  }

  lemma {:induction false} PidsCons(k: Kernel, births: seq<Birth>)
    requires births != [] && Room(k, births[0])
    ensures k.SpawnAll(Pids(k, births)) ==
            k.Spawn(births[0].pid).SpawnAll(Pids(k.Spawn(births[0].pid), births[1..]))
  {
    var n := k.Spawn(births[0].pid);
    assert Pids(k, births)[1..] == Pids(n, births[1..]);
  }

  // ---- dispatch ----

  /** From `s` to `n` the process `p` was dispatched: what holds of the others. */
  ghost predicate Others(s: System, n: System, p: nat) {
    && |n.locals| == |s.locals| && Elsewhere(s.k, n.k, p)
    && forall q: nat | q < |s.locals| && q < |s.k.procs| && q != p && s.k.procs[q].live :: n.locals[q] == s.locals[q]
  }

  /** A dispatch that does not fail keeps the two levels tied, and touches no other process. */
  lemma {:induction false} DispatchKeepsTies(s: System, p: nat, script: Script)
    requires s.Dispatching(p) && s.Succeeds(p, script) && forall b :: b in script.births ==> Viable(b)
    ensures s.Dispatch(p, script).Inv() && s.Dispatch(p, script).k.freshFds == []
    ensures Others(s, s.Dispatch(p, script), p)
  {
    assert s.Tied(p);
    var q := s.Ran(p, script).p;
    Scheduler.NoLostWakeup(s.locals[p], Table(s.k), script.ios);
    ExecutionLeaves(s.Postpolled(p, script.ios).p, script.turns);
    var ex := s.ExecutionOf(p, script);
    LeftTied(s, p, q);
    EnterKeeps(s.k, p, ex);
    var m := s.k.Left(p, ex.regs);
    BornTied(m, s.locals[p := q], script.births, p);
    DispatchLocals(s.k, p, ex);
    DispatchKeeps(s.k, p, ex);
    TiedUpTo(m.SpawnAll(ex.spawn), s.Dispatch(p, script).k, s.Dispatch(p, script).locals);
  }

  lemma {:induction false} LeftTied(s: System, p: nat, q: Local)
    requires s.AllTied() && p < |s.k.procs| && q.Inv() && !q.run
    ensures System(s.k.Left(p, Requests(q)), s.locals[p := q]).AllTied()
  {
    var n := System(s.k.Left(p, Requests(q)), s.locals[p := q]);
    forall r: nat | r < |n.locals|
      ensures n.Tied(r)
    {
      assert s.Tied(r);
    }
  }

  lemma {:induction false} TiedUpTo(k: Kernel, n: Kernel, locals: seq<Local>)
    requires System(k, locals).AllTied() && SameLocals(k, n)
    ensures System(n, locals).AllTied()
  {
    forall r: nat | r < |locals|
      ensures System(n, locals).Tied(r)
    {
      assert System(k, locals).Tied(r);
    }
  }

  // ---- a pass ----

  /** One dispatch of a pass: the process, the state before it, and what happens in it. */
  datatype Entry = Entry(pid: nat, before: System, script: Script) {
    /** Neither its postpoll nor its execution fails. */
    predicate Finishes() {
      pid < |before.locals| && before.Succeeds(pid, script)
    }

    /** The coroutines that it calls. */
    function Calls(): seq<nat>
      requires pid < |before.locals|
    {
      Scheduler.Called(before.Postpolled(pid, script.ios).p, None, script.turns)
    }
  }

  /** Nothing is left to run, the script is at its end, or a process failed. */
  datatype SweepEnd = Complete | Suspended | Broken

  datatype Sweep = Sweep(s: System, end: SweepEnd, trace: seq<Entry>)

  /** The second loop of `vk_kern_postpoll`. */
  function RunAll(s: System, scripts: seq<Script>): Sweep
    decreases |scripts|
  {
    if s.k.runProcs == [] then Sweep(s, Complete, [])
    else if scripts == [] || s.k.runProcs[0] >= |s.locals| then Sweep(s, Suspended, [])
    else
      var p, d := s.k.runProcs[0], System(s.k.DequeueRun(), s.locals);
      var entry := Entry(p, d, scripts[0]);
      if !d.Succeeds(p, scripts[0]) then Sweep(d, Broken, [entry])
      else
        var rest := RunAll(d.Dispatch(p, scripts[0]), scripts[1..]);
        rest.(trace := [entry] + rest.trace)
  }

  /** `vk_kern_postpoll` */
  function Postpoll(s: System, scripts: seq<Script>): Sweep {
    RunAll(System(s.k.WakeFresh(), s.locals), scripts)
  }

  ghost predicate AllViable(scripts: seq<Script>) {
    forall i, b :: 0 <= i < |scripts| && b in scripts[i].births ==> Viable(b)
  }

  /** Taking a process off the run list to dispatch it. */
  lemma {:induction false} DequeueDispatches(s: System)
    requires s.Inv() && s.k.freshFds == [] && s.k.runProcs != []
    ensures var p, d := s.k.runProcs[0], System(s.k.DequeueRun(), s.locals);
      && p < |s.locals| && d.Dispatching(p) && Table(d.k) == Table(s.k) && s.k.SameReports(d.k)
      && (forall q: nat | q in s.k.runProcs && q != p :: q in d.k.runProcs)
      && (forall q: nat | q < |s.k.procs| :: d.k.procs[q].live == s.k.procs[q].live)
  {
    DequeueRunKeeps(s.k);
    var d := s.k.DequeueRun();
    FdSideOfProcs(s.k, d);
    TiedUpTo(s.k, d, s.locals);
    assert s.k.runProcs == [s.k.runProcs[0]] + d.runProcs;
  }

  lemma {:induction false} SameTable(k: Kernel, n: Kernel)
    requires k.SameReports(n)
    ensures Table(n) == Table(k)
  {
  }

  /** The first dispatch of process `p`, or the length of the trace. */
  function FirstOf(trace: seq<Entry>, p: nat): (j: nat)
    ensures j <= |trace|
    ensures j < |trace| ==> trace[j].pid == p
  {
    if trace == [] || trace[0].pid == p then 0 else 1 + FirstOf(trace[1..], p)
  }

  /** The process is dispatched with the local state and the table it has in `s`. */
  ghost predicate DispatchedAsIn(s: System, e: Entry, p: nat)
    requires p < |s.locals|
  {
    && e.pid == p && p < |e.before.locals|
    && e.before.locals[p] == s.locals[p] && Table(e.before.k) == Table(s.k)
  }

  /** A pass keeps the two levels tied, up to the dispatch that fails, if one does. */
  lemma {:induction false} RunAllTies(s: System, scripts: seq<Script>)
    requires s.Inv() && s.k.freshFds == [] && AllViable(scripts)
    ensures var sweep := RunAll(s, scripts);
      && (sweep.end != Broken ==> sweep.s.Inv() && sweep.s.k.freshFds == [])
      && (sweep.end == Complete ==> sweep.s.k.runProcs == [])
    decreases |scripts|
  {
    if s.k.runProcs != [] && scripts != [] {
      DequeueDispatches(s);
      var p, d := s.k.runProcs[0], System(s.k.DequeueRun(), s.locals);
      if d.Succeeds(p, scripts[0]) {
        FirstViable(scripts);
        DispatchKeepsTies(d, p, scripts[0]);
        RunAllTies(d.Dispatch(p, scripts[0]), scripts[1..]);
      }
    }
  }

  lemma {:induction false} FirstViable(scripts: seq<Script>)
    requires AllViable(scripts) && scripts != []
    ensures AllViable(scripts[1..]) && forall b :: b in scripts[0].births ==> Viable(b)
  {
    assert forall i :: 0 <= i < |scripts| - 1 ==> scripts[1..][i] == scripts[i + 1];
  }

  /** The state after the first dispatch of a pass, for a process `p` that it does not dispatch. */
  lemma {:induction false} RunFirst(s: System, scripts: seq<Script>, p: nat) returns (n: System)
    requires s.Inv() && s.k.freshFds == [] && AllViable(scripts) && s.k.runProcs != [] && scripts != []
    requires p < |s.locals| && s.k.procs[p].live && s.k.runProcs[0] != p && s.k.runProcs[0] < |s.locals|
    requires System(s.k.DequeueRun(), s.locals).Succeeds(s.k.runProcs[0], scripts[0])
    ensures n.Inv() && n.k.freshFds == [] && AllViable(scripts[1..]) && Table(n.k) == Table(s.k)
    ensures |n.locals| == |s.locals| && n.locals[p] == s.locals[p] && n.k.procs[p].live
    ensures p in s.k.runProcs ==> p in n.k.runProcs
    ensures var sweep, rest := RunAll(s, scripts), RunAll(n, scripts[1..]);
      sweep.end == rest.end && exists e: Entry :: e.pid != p && sweep.trace == [e] + rest.trace
  {
    DequeueDispatches(s);
    FirstViable(scripts);
    var r, d := s.k.runProcs[0], System(s.k.DequeueRun(), s.locals);
    DispatchKeepsTies(d, r, scripts[0]);
    n := d.Dispatch(r, scripts[0]);
    SameTable(d.k, n.k);
    var e := Entry(r, d, scripts[0]);
    assert RunAll(s, scripts).trace == [e] + RunAll(n, scripts[1..]).trace;
  }

  lemma {:induction false} FirstCons(e: Entry, rest: seq<Entry>, p: nat)
    requires e.pid != p
    ensures FirstOf([e] + rest, p) == 1 + FirstOf(rest, p)
  {
    assert ([e] + rest)[1..] == rest;
  }

  /** In a pass that starts at `s`, the process is first dispatched as it is in `s`, and surely if it is queued. */
  ghost predicate FirstAsIn(s: System, sweep: Sweep, p: nat)
    requires p < |s.locals|
  {
    var j := FirstOf(sweep.trace, p);
    && (j < |sweep.trace| ==> DispatchedAsIn(s, sweep.trace[j], p))
    && (sweep.end == Complete && p in s.k.runProcs ==> j < |sweep.trace| && sweep.trace[j].Finishes())
  }

  /**
   Until its own dispatch a live process keeps its local state and its reports, whatever is dispatched
   before it; and if it is on the run list a complete pass dispatches it without a failure.
   */
  lemma {:induction false} FirstDispatch(s: System, scripts: seq<Script>, p: nat)
    requires s.Inv() && s.k.freshFds == [] && AllViable(scripts)
    requires p < |s.locals| && s.k.procs[p].live
    ensures FirstAsIn(s, RunAll(s, scripts), p)
    decreases |scripts|
  {
    if s.k.runProcs != [] && scripts != [] {
      var r, d := s.k.runProcs[0], System(s.k.DequeueRun(), s.locals);
      if r == p {
        FirstIsOwn(s, scripts, p);
      } else if r < |s.locals| && d.Succeeds(r, scripts[0]) {
        var n := RunFirst(s, scripts, p);
        FirstDispatch(n, scripts[1..], p);
        LaterIsOwn(s, n, RunAll(s, scripts), RunAll(n, scripts[1..]), p);
      }
    }
  }

  lemma {:induction false} FirstIsOwn(s: System, scripts: seq<Script>, p: nat)
    requires s.Inv() && s.k.freshFds == [] && s.k.runProcs != [] && scripts != [] && s.k.runProcs[0] == p
    ensures p < |s.locals| && FirstAsIn(s, RunAll(s, scripts), p)
  {
    DequeueDispatches(s);
    var d := System(s.k.DequeueRun(), s.locals);
    var e := Entry(p, d, scripts[0]);
    assert RunAll(s, scripts).trace[0] == e;
  }

  lemma {:induction false} LaterIsOwn(s: System, n: System, sweep: Sweep, rest: Sweep, p: nat)
    requires p < |s.locals| && p < |n.locals| && n.locals[p] == s.locals[p] && Table(n.k) == Table(s.k)
    requires p in s.k.runProcs ==> p in n.k.runProcs
    requires sweep.end == rest.end && exists e: Entry :: e.pid != p && sweep.trace == [e] + rest.trace
    requires FirstAsIn(n, rest, p)
    ensures FirstAsIn(s, sweep, p)
  {
    var e: Entry :| e.pid != p && sweep.trace == [e] + rest.trace;
    FirstCons(e, rest.trace, p);
  }

  // ---- rounds ----

  /** `vk_fd_table_poll`: no process's own state is touched. */
  function Poll(s: System, results: seq<set<PollBit>>): System {
    System(s.k.Poll(results), s.locals)
  }

  lemma {:induction false} PollTies(s: System, results: seq<set<PollBit>>)
    requires s.Inv() && |results| == |s.k.PollArray(s.k.dirtyFds)|
    ensures Poll(s, results).Inv()
  {
    PollKeeps(s.k, results);
    TiedUpTo(s.k, s.k.Poll(results), s.locals);
  }

  lemma {:induction false} WakeTies(s: System)
    requires s.Inv()
    ensures System(s.k.WakeFresh(), s.locals).Inv() && s.k.WakeFresh().freshFds == []
  {
    WakeFreshWakes(s.k);
    TiedUpTo(s.k, s.k.WakeFresh(), s.locals);
  }

  /**
   In the pass that follows poll result `i`, when the owner of its descriptor is first dispatched, and
   before any of the owner's coroutines runs, the blocked socket `sock` has the report in each direction
   that waits on the descriptor, and its coroutine is on the run queue exactly once, ready to be called;
   it is called if the dispatch does not fail. A complete pass dispatches the owner, without a failure.
   */
  ghost predicate ReachesCoroutine(s: System, results: seq<set<PollBit>>, scripts: seq<Script>, i: nat, sock: nat) {
    i < |results| && i < |s.k.PollArray(s.k.dirtyFds)| &&
    var f := s.k.PollArray(s.k.dirtyFds)[i];
    f < |s.k.fds| && s.k.fds[f].procId < |s.locals| &&
    var p, sweep := s.k.fds[f].procId, Postpoll(Poll(s, results), scripts);
    var j := FirstOf(sweep.trace, p);
    sock in s.locals[p].blockedQ ==>
      && (sweep.end == Complete ==> j < |sweep.trace| && sweep.trace[j].Finishes())
      && (j < |sweep.trace| ==> WakesIn(s.locals[p], sweep.trace[j], p, sock, f, results[i]))
  }

  /**
   The dispatch `e` of `p` starts from local state `l`. Unless its postpoll fails it wakes the socket, and
   if it does not fail at all the socket's coroutine is called.
   */
  ghost predicate WakesIn(l: Local, e: Entry, p: nat, sock: nat, f: nat, revents: set<PollBit>) {
    var table := Table(e.before.k);
    && e.pid == p && p < |e.before.locals| && e.before.locals[p] == l && sock < |l.sockets|
    && (Scheduler.Postpoll(l, table, e.script.ios).ok ==>
          && Wakes(l, table, e.script.ios, sock, f) && Tries(l, table, e.script.ios, sock, f)
          && f < |table| && table[f].revents == revents)
    && (e.Finishes() ==> l.sockets[sock].owner in e.Calls())
  }

  lemma {:induction false} DispatchWakes(
    s: System, e: Entry, p: nat, sock: nat, f: nat, revents: set<PollBit>)
    requires p < |s.locals| && s.locals[p].Inv() && DispatchedAsIn(s, e, p)
    requires sock in s.locals[p].blockedQ && f < |Table(s.k)| && Table(s.k)[f].revents == revents
    ensures WakesIn(s.locals[p], e, p, sock, f, revents)
  {
    var l, table := s.locals[p], Table(s.k);
    if Scheduler.Postpoll(l, table, e.script.ios).ok {
      PostpollWakes(l, table, e.script.ios, sock, f);
      if e.Finishes() {
        WokenIsCalled(l, table, e.script.ios, e.script.turns, sock);
      }
    }
  }

  /** From an event to a coroutine, in any state that satisfies the invariant. */
  lemma {:induction false} EventRunsCoroutine(
    s: System, results: seq<set<PollBit>>, scripts: seq<Script>, i: nat, sock: nat)
    requires s.Inv() && s.k.freshFds == [] && s.k.Pending() && AllViable(scripts)
    requires |results| == |s.k.PollArray(s.k.dirtyFds)| && i < |results| && results[i] != {}
    ensures ReachesCoroutine(s, results, scripts, i, sock)
  {
    var polled := s.k.PollArray(s.k.dirtyFds);
    var f := polled[i];
    assert f in polled;
    PollReady(s.k);
    PollTies(s, results);
    var n := Poll(s, results);
    EventFresh(s.k, results, i);
    var p := s.k.fds[f].procId;
    WakeFreshWakes(n.k);
    WakeTies(n);
    var w := System(n.k.WakeFresh(), n.locals);
    FirstDispatch(w, scripts, p);
    var sweep := Postpoll(n, scripts);
    var j := FirstOf(sweep.trace, p);
    if sock in s.locals[p].blockedQ && j < |sweep.trace| {
      assert s.Tied(p);
      DispatchWakes(w, sweep.trace[j], p, sock, f, results[i]);
    }
  }

  /** What the poller hands over: the descriptor is fresh and carries the report, its owner lives. */
  lemma {:induction false} EventFresh(k: Kernel, results: seq<set<PollBit>>, i: nat)
    requires k.Inv() && k.Pending()
    requires |results| == |k.PollArray(k.dirtyFds)| && i < |results| && results[i] != {}
    ensures var f, n := k.PollArray(k.dirtyFds)[i], k.Poll(results);
      && f < |k.fds| && k.SameShape(n) && n.fds[f].freshQed && n.fds[f].ret.revents == results[i]
      && n.fds[f].procId == k.fds[f].procId < |k.procs| && k.procs[k.fds[f].procId].live && n.procs == k.procs
  {
    var polled := k.PollArray(k.dirtyFds);
    var f := polled[i];
    assert f in polled;
    PollReady(k);
    var m := k.PrepareAll(k.dirtyFds);
    ProcessAllReports(m, polled, results);
    assert k.FdOk(f);
  }
}
