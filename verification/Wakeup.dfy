/**
 From an event to a coroutine: the kernel's pass over processes and the scheduling inside a process,
 joined at the descriptor table and at the blocked sockets.
 */
module Wakeup {
  import opened Machine
  import opened SList
  import opened Process
  import Scheduler
  import opened Effects
  import opened Retries
  import opened Kernel

  /** The polled state that `vk_proc_postpoll` reads, descriptor by descriptor. */
  function Table(k: Kernel): (t: seq<Future>)
    ensures |t| == |k.fds|
  {
    seq(|k.fds|, f requires 0 <= f < |k.fds| => k.fds[f].ret)
  }

  /** What socket `s` asks of the poller. */
  function RequestOf(p: Local, s: nat): Reg {
    if s < |p.sockets| then Reg(p.sockets[s].rxPre, p.sockets[s].txPre) else Reg(IDLE, IDLE)
  }

  /** What the sockets on the local blocked queue ask, in its order: what the kernel calls `regs`. */
  function Requests(p: Local): (r: seq<Reg>)
    ensures |r| == |p.blockedQ|
  {
    seq(|p.blockedQ|, i requires 0 <= i < |p.blockedQ| => RequestOf(p, p.blockedQ[i]))
  }

  /**
   An execution that returns successfully leaves what the kernel assumes of one: nothing to run, and a
   blocked flag that tells whether anything is registered.
   */
  lemma {:induction false} ExecutionLeaves(p: Local, script: seq<Scheduler.Turn>)
    requires p.Inv() && Scheduler.Execute(p, None, script).verdict == Scheduler.Finished
    ensures var q := Scheduler.Execute(p, None, script).p;
      q.Inv() && !q.run && (q.blocked <==> Requests(q) != [])
  {
    Scheduler.ExecuteKeeps(p, None, script);
  }

  /** The poll results that are applied to a blocked socket are those of its descriptors. */
  lemma {:induction false} ApplyPollStores(p: Local, q: seq<nat>, table: seq<Future>, s: nat)
    requires p.Inv() && s < |p.sockets| && Distinct(q) && (forall r :: r in q ==> r < |p.sockets|)
    requires Scheduler.ApplyPoll(p, q, table).ok
    ensures var a := Scheduler.ApplyPoll(p, q, table).p;
      && (s !in q ==> a.sockets[s] == p.sockets[s])
      && (s in q && 0 <= p.sockets[s].rxPre.fd < |table| ==>
            a.sockets[s].rxRet.revents == table[p.sockets[s].rxPre.fd].revents)
      && (s in q && 0 <= p.sockets[s].txPre.fd < |table| ==>
            a.sockets[s].txRet.revents == table[p.sockets[s].txPre.fd].revents)
    decreases |q|
  {
    if q != [] {
      assert q[0] in q;
      assert forall r :: r in q[1..] ==> r in q;
      var x := p.sockets[q[0]];
      var rx, tx := Scheduler.Polled(x.rxPre, x.rxRet, table), Scheduler.Polled(x.txPre, x.txRet, table);
      assert rx.Some? && tx.Some?;
      var y := x.(rxRet := rx.value, txRet := tx.value);
      SetSocketKeeps(p, q[0], y);
      ApplyPollStores(p.SetSocket(q[0], y), q[1..], table, s);
      assert s in q <==> s == q[0] || s in q[1..];
    }
  }

  /** Nothing else of a socket changes by that. */
  lemma {:induction false} ApplyPollLeaves(p: Local, q: seq<nat>, table: seq<Future>, s: nat)
    requires p.Inv() && s < |p.sockets| && Distinct(q) && (forall r :: r in q ==> r < |p.sockets|)
    requires Scheduler.ApplyPoll(p, q, table).ok
    ensures var y := Scheduler.ApplyPoll(p, q, table).p.sockets[s];
      y == p.sockets[s].(rxRet := y.rxRet, txRet := y.txRet)
    decreases |q|
  {
    if q != [] {
      assert q[0] in q;
      assert forall r :: r in q[1..] ==> r in q;
      var x := p.sockets[q[0]];
      var rx, tx := Scheduler.Polled(x.rxPre, x.rxRet, table), Scheduler.Polled(x.txPre, x.txRet, table);
      assert rx.Some? && tx.Some?;
      var y := x.(rxRet := rx.value, txRet := tx.value);
      SetSocketKeeps(p, q[0], y);
      ApplyPollLeaves(p.SetSocket(q[0], y), q[1..], table, s);
    }
  }

  /**
   Applying poll results and retrying leaves the socket's coroutine queued once, with every report that
   concerns the socket stored in its futures before the retry, and the operation tried that was blocked.
   */
  lemma {:induction false} PostpollWakes(p: Local, table: seq<Future>, ios: seq<Io>, s: nat, f: nat)
    requires p.Inv() && s in p.blockedQ && s < |p.sockets| && f < |table|
    requires Scheduler.Postpoll(p, table, ios).ok
    ensures Wakes(p, table, ios, s, f) && Tries(p, table, ios, s, f)
  {
    Scheduler.NoLostWakeup(p, table, ios);
    assert Scheduler.ApplyPoll(p, p.blockedQ, table).ok;
    ApplyPollStores(p, p.blockedQ, table, s);
    PostpollTries(p, table, ios, s, f);
  }

  /** What `vk_proc_postpoll` does for a socket that waits on descriptor `f`. */
  ghost predicate Wakes(p: Local, table: seq<Future>, ios: seq<Io>, s: nat, f: nat) {
    var a, q := Scheduler.ApplyPoll(p, p.blockedQ, table), Scheduler.Postpoll(p, table, ios);
    && f < |table| && s < |p.sockets| && s < |a.p.sockets| && a.ok && q.ok
    && (p.sockets[s].rxPre.fd == f ==> a.p.sockets[s].rxRet.revents == table[f].revents)
    && (p.sockets[s].txPre.fd == f ==> a.p.sockets[s].txRet.revents == table[f].revents)
    && q.p.Inv() && q.p.blockedQ == []
    && p.Alive(p.sockets[s].owner) && Scheduler.Awake(q.p, p.sockets[s].owner) && Distinct(q.p.runQ)
  }

  /**
   The bytes it moves: a write that waited on `f` gives out what the system takes, once POLLOUT or POLLHUP is
   reported, and a read takes in what the system gives; the answer is the one at the socket's place in the
   walk. No other socket of the process is bound to that ring.
   */
  ghost predicate Tries(p: Local, table: seq<Future>, ios: seq<Io>, s: nat, f: nat) {
    s in p.blockedQ && s < |p.sockets| && f < |table| && s < |Scheduler.Postpoll(p, table, ios).p.sockets| &&
    var x, y := p.sockets[s], Scheduler.Postpoll(p, table, ios).p.sockets[s];
    var io := Scheduler.IoAt(ios, Place(p.blockedQ, s));
    && (x.txPipe.OsFd? && (x.op == OpWrite || x.op == OpFlush) && TxAlone(p, s)
        && x.txPre.fd == f && table[f].revents * {Out, Hup} != {} ==>
          WritesFrom(x.tx.(txBlocked := false), y.tx, io.write))
    && (x.rxPipe.OsFd? && !x.rxPipe.listens && x.op == OpRead && x.txPipe != VkRx(s) && RxAlone(p, s) ==>
          ReadsInto(x.rx, y.rx, io.read))
  }

  lemma {:induction false} PostpollTries(p: Local, table: seq<Future>, ios: seq<Io>, s: nat, f: nat)
    requires p.Inv() && s in p.blockedQ && s < |p.sockets| && f < |table|
    requires Scheduler.Postpoll(p, table, ios).ok
    ensures Tries(p, table, ios, s, f)
  {
    var a := Scheduler.ApplyPoll(p, p.blockedQ, table);
    Scheduler.ApplyPollKeeps(p, p.blockedQ, table);
    ApplyPollStores(p, p.blockedQ, table, s);
    ApplyPollLeaves(p, p.blockedQ, table, s);
    StaysAlone(p, a.p, s);
    WalkTries(a.p, a.p.blockedQ, ios, s);
  }

  /** If the execution after it finishes, it has called the socket's coroutine. */
  lemma {:induction false} WokenIsCalled(
    p: Local, table: seq<Future>, ios: seq<Io>, turns: seq<Scheduler.Turn>, s: nat)
    requires p.Inv() && s in p.blockedQ && s < |p.sockets| && Scheduler.Postpoll(p, table, ios).ok
    requires Scheduler.Execute(Scheduler.Postpoll(p, table, ios).p, None, turns).verdict == Scheduler.Finished
    ensures p.sockets[s].owner in Scheduler.Called(Scheduler.Postpoll(p, table, ios).p, None, turns)
  {
    Scheduler.NoLostWakeup(p, table, ios);
    Scheduler.AwakeIsCalled(Scheduler.Postpoll(p, table, ios).p, None, turns, p.sockets[s].owner);
  }
}
