/**
 What a process does between two polls: apply poll results and retry its blocked sockets
 (`vk_proc_postpoll`), then run coroutines until none is runnable (`vk_proc_local_execute`).
 Coroutine bodies are arbitrary sequences of the steps that the coroutine macros allow.
 */
module Scheduler {
  import opened Machine
  import opened Fifo
  import opened SList
  import opened Process

  /** The default answer of the system when a script of answers has run out. */
  function IoAt(ios: seq<Io>, i: nat): Io {
    if i < |ios| then ios[i] else Io(ReadFailed(EAGAIN), WriteFailed(EAGAIN), None)
  }

  // ---- wakeups over a virtual pipe ----

  /** The peer is awake and the acting coroutine is ready. */
  ghost predicate Woken(p: Local, q: Local, s: nat, peer: nat)
    requires s < |p.sockets| && peer < |p.sockets|
  {
    && (p.Alive(p.sockets[peer].owner) ==> p.sockets[peer].owner in q.runQ)
    && (p.Alive(p.sockets[s].owner) ==> q.Alive(p.sockets[s].owner) && q.threads[p.sockets[s].owner].status.IsReady())
  }

  lemma {:induction false} WriteReaderWakes(p: Local, s: nat, peer: nat)
    requires p.Inv() && s < |p.sockets| && peer < |p.sockets| && p.Alive(p.sockets[s].owner)
    requires p.sockets[peer].rx.effect
    ensures Woken(p, p.EnqueueWriteReader(s, peer).HandleBlock(s), s, peer)
  {
    var x := p.sockets[peer].(rx := p.sockets[peer].rx.(effect := false));
    var a := p.SetSocket(peer, x);
    SetSocketKeeps(p, peer, x);
    WakePeerKeeps(a, s, peer);
    HandleBlockKeeps(a.WakePeer(s, peer), s);
  }

  lemma {:induction false} ReadWriterWakes(p: Local, s: nat, peer: nat)
    requires p.Inv() && s < |p.sockets| && peer < |p.sockets| && p.Alive(p.sockets[s].owner)
    requires p.sockets[peer].tx.effect
    ensures Woken(p, p.EnqueueReadWriter(s, peer).HandleBlock(s), s, peer)
  {
    var x := p.sockets[peer].(tx := p.sockets[peer].tx.(effect := false));
    var a := p.SetSocket(peer, x);
    SetSocketKeeps(p, peer, x);
    WakePeerKeeps(a, s, peer);
    HandleBlockKeeps(a.WakePeer(s, peer), s);
  }

  /** Progress keeps who owns what and who is alive, so a wakeup seen from a later state is one from an earlier. */
  lemma {:induction false} WokenFrom(p: Local, a: Local, q: Local, s: nat, peer: nat)
    requires p.Inv() && Keeps(p, a) && s < |p.sockets| && peer < |p.sockets| && Woken(a, q, s, peer)
    ensures Woken(p, q, s, peer)
  {
    assert SamePlace(p.sockets[s], a.sockets[s]) && SamePlace(p.sockets[peer], a.sockets[peer]);
  }

  /**
   Whenever a write over a virtual pipe moves at least one byte, the reader's coroutine, unless it
   has ended, is on the run queue afterwards and the writer is ready.
   */
  lemma {:induction false} WriteWakesReader(p: Local, s: nat, peer: nat, io: Io)
    requires p.Inv() && s < |p.sockets| && p.Alive(p.sockets[s].owner)
    requires p.sockets[s].txPipe == VkRx(peer)
    requires SpliceCount(p.sockets[peer].rx, p.sockets[s].tx, -1) > 0
    ensures HandleWrite(p, s, io).ok && Woken(p, HandleWrite(p, s, io).p, s, peer)
  {
    var a := p.Spliced(peer, s);
    SplicedKeeps(p, peer, s);
    var b := a.EnqueueWrite(s);
    EnqueueWriteKeeps(a, s);
    KeepsTrans(p, a, b);
    WriteReaderWakes(b, s, peer);
    WokenFrom(p, b, HandleWrite(p, s, io).p, s, peer);
  }

  lemma {:induction false} EnqueueReadLeavesTx(p: Local, s: nat, peer: nat)
    requires peer < |p.sockets|
    ensures p.EnqueueRead(s).sockets[peer].tx == p.sockets[peer].tx
  {
  }

  /** The same for a read that takes bytes from the writer's ring. */
  lemma {:induction false} ReadWakesWriter(p: Local, s: nat, peer: nat, io: Io)
    requires p.Inv() && s < |p.sockets| && p.Alive(p.sockets[s].owner)
    requires p.sockets[s].rxPipe == VkTx(peer)
    requires SpliceCount(p.sockets[s].rx, p.sockets[peer].tx, -1) > 0
    ensures HandleRead(p, s, io).ok && Woken(p, HandleRead(p, s, io).p, s, peer)
  {
    var a := p.Spliced(s, peer);
    SplicedKeeps(p, s, peer);
    var b := a.EnqueueRead(s);
    EnqueueReadKeeps(a, s);
    KeepsTrans(p, a, b);
    EnqueueReadLeavesTx(a, s, peer);
    assert a.sockets[peer].tx.effect;
    ReadWriterWakes(b, s, peer);
    WokenFrom(p, b, HandleRead(p, s, io).p, s, peer);
  }

  /** Taking the EOF off the writer's ring wakes the writer, so that its hup can return. */
  lemma {:induction false} ReadHupWakesWriter(p: Local, s: nat, peer: nat)
    requires p.Inv() && s < |p.sockets| && peer < |p.sockets| && p.Alive(p.sockets[s].owner)
    requires p.sockets[s].rxPipe == VkTx(peer) && p.sockets[peer].tx.eof
    ensures HandleReadHup(p, s).ok && Woken(p, HandleReadHup(p, s).p, s, peer)
  {
    var a := ForwardedHup(p, s, peer);
    ForwardedHupKeeps(p, s, peer);
    var b := a.EnqueueRead(s);
    EnqueueReadKeeps(a, s);
    KeepsTrans(p, a, b);
    ReadWriterWakes(b, s, peer);
    WokenFrom(p, b, HandleReadHup(p, s).p, s, peer);
  }

  // ---- poll results ----

  /** The poller's answers clear the block of the direction they report. */
  function Unblock(x: Socket): Socket {
    x.(rx := if x.rxRet.revents * {In, RdHup, Fault} != {} then x.rx.(rxBlocked := false) else x.rx,
       tx := if x.txRet.revents * {Out, Hup} != {} then x.tx.(txBlocked := false) else x.tx)
  }

  /** `vk_proc_local_retry_socket`: retry the operation, drop the block, queue the coroutine. */
  function Retry(p: Local, s: nat, io: Io): (r: Handled)
    requires s < |p.sockets|
    ensures p.SameShape(r.p)
  {
    var r := Handler(p.SetSocket(s, Unblock(p.sockets[s])), s, io);
    if r.ok then Handled(r.p.DropBlocked(s).EnqueueRun(p.sockets[s].owner), true) else r
  }

  /** A coroutine is on the run queue, and ready to be called when it is taken off. */
  predicate Awake(p: Local, t: nat) {
    t in p.runQ && IsReady(p, t)
  }

  /** A retry takes exactly its own socket off the blocked queue and queues its coroutine. */
  lemma {:induction false} RetryKeeps(p: Local, s: nat, io: Io)
    requires p.Inv() && s in p.blockedQ
    ensures Keeps(p, Retry(p, s, io).p)
    ensures Retry(p, s, io).ok ==>
              && Retry(p, s, io).p.blockedQ == Without(p.blockedQ, s)
              && Awake(Retry(p, s, io).p, p.sockets[s].owner)
  {
    var owner := p.sockets[s].owner;
    var a := p.SetSocket(s, Unblock(p.sockets[s]));
    SetSocketKeeps(p, s, Unblock(p.sockets[s]));
    var r := Handler(a, s, io);
    HandlerKeeps(a, s, io);
    KeepsTrans(p, a, r.p);
    if r.ok {
      var b := r.p.DropBlocked(s);
      DropBlockedKeeps(r.p, s);
      KeepsTrans(p, r.p, b);
      EnqueueRunKeeps(b, owner);
      KeepsTrans(p, b, b.EnqueueRun(owner));
    }
  }

  /** Copy the table's poll event into a socket's future, unless the descriptor is out of range. */
  function Polled(pre: Future, ret: Future, table: seq<Future>): Option<Future> {
    if pre.fd == -1 then Some(ret)
    else if 0 <= pre.fd < |table| then
      Some(ret.(fd := table[pre.fd].fd, events := table[pre.fd].events, revents := table[pre.fd].revents))
    else None
  }

  /** The first walk of `vk_proc_postpoll`, over the sockets `q`. */
  function ApplyPoll(p: Local, q: seq<nat>, table: seq<Future>): (r: Handled)
    ensures p.SameShape(r.p)
    decreases |q|
  {
    if q == [] then Handled(p, true)
    else if q[0] >= |p.sockets| then Handled(p, false)
    else
      var x := p.sockets[q[0]];
      var rx := Polled(x.rxPre, x.rxRet, table);
      if rx.None? then Handled(p, false) else
      var y := x.(rxRet := rx.value);
      var tx := Polled(x.txPre, x.txRet, table);
      if tx.None? then Handled(p.SetSocket(q[0], y), false) else
      ApplyPoll(p.SetSocket(q[0], y.(txRet := tx.value)), q[1..], table)
  }

  /** The second walk, which removes each socket it visits from the list it is walking. */
  function RetryAll(p: Local, q: seq<nat>, ios: seq<Io>): (r: Handled)
    ensures p.SameShape(r.p)
    decreases |q|
  {
    if q == [] then Handled(p, true)
    else if q[0] >= |p.sockets| then Handled(p, false)
    else
      var r := Retry(p, q[0], IoAt(ios, 0));
      if !r.ok then r else RetryAll(r.p, q[1..], if ios == [] then [] else ios[1..])
  }

  /** `vk_proc_postpoll` */
  function Postpoll(p: Local, table: seq<Future>, ios: seq<Io>): (r: Handled)
    ensures p.SameShape(r.p)
  {
    var r := ApplyPoll(p, p.blockedQ, table);
    if r.ok then RetryAll(r.p, r.p.blockedQ, ios) else r
  }

  lemma {:induction false} ApplyPollKeeps(p: Local, q: seq<nat>, table: seq<Future>)
    requires p.Inv() && forall s :: s in q ==> s < |p.sockets|
    ensures var r := ApplyPoll(p, q, table).p;
            Keeps(p, r) && r.blockedQ == p.blockedQ && r.runQ == p.runQ && r.threads == p.threads
    decreases |q|
  {
    if q != [] {
      assert q[0] in q;
      var x := p.sockets[q[0]];
      var rx, tx := Polled(x.rxPre, x.rxRet, table), Polled(x.txPre, x.txRet, table);
      if rx.Some? {
        var y := x.(rxRet := rx.value);
        SetSocketKeeps(p, q[0], y);
        if tx.Some? {
          var z := y.(txRet := tx.value);
          SetSocketKeeps(p, q[0], z);
          assert forall s :: s in q[1..] ==> s in q;
          ApplyPollKeeps(p.SetSocket(q[0], z), q[1..], table);
          KeepsTrans(p, p.SetSocket(q[0], z), ApplyPoll(p, q, table).p);
        }
      }
    }
  }

  /**
   Retrying the whole blocked queue empties it and leaves the coroutine of every socket that was on
   it on the run queue.
   */
  lemma {:induction false} RetryAllKeeps(p: Local, q: seq<nat>, ios: seq<Io>)
    requires p.Inv() && q == p.blockedQ
    ensures Keeps(p, RetryAll(p, q, ios).p)
    ensures RetryAll(p, q, ios).ok ==>
              && RetryAll(p, q, ios).p.blockedQ == []
              && forall s :: s in q ==> Awake(RetryAll(p, q, ios).p, p.sockets[s].owner)
    decreases |q|
  {
    if q != [] {
      assert q[0] in q;
      var r := Retry(p, q[0], IoAt(ios, 0));
      RetryKeeps(p, q[0], IoAt(ios, 0));
      if r.ok {
        var rest := if ios == [] then [] else ios[1..];
        assert Without(q, q[0]) == q[1..];
        RetryAllKeeps(r.p, q[1..], rest);
        KeepsTrans(p, r.p, RetryAll(p, q, ios).p);
        forall s | s in q
          ensures RetryAll(p, q, ios).ok ==> Awake(RetryAll(p, q, ios).p, p.sockets[s].owner)
        {
          if s != q[0] {
            assert s in q[1..];
            assert SamePlace(p.sockets[s], r.p.sockets[s]);
          }
        }
      }
    }
  }

  /**
   No lost wakeup: when every retry succeeds, the blocked queue is empty before any coroutine runs,
   and every coroutine that owned a blocked socket is on the run queue exactly once, and ready.
   */
  lemma {:induction false} NoLostWakeup(p: Local, table: seq<Future>, ios: seq<Io>)
    requires p.Inv()
    ensures Keeps(p, Postpoll(p, table, ios).p)
    ensures Postpoll(p, table, ios).ok ==>
              && Postpoll(p, table, ios).p.blockedQ == []
              && Distinct(Postpoll(p, table, ios).p.runQ)
              && forall s :: s in p.blockedQ ==>
                   p.Alive(p.sockets[s].owner) && Awake(Postpoll(p, table, ios).p, p.sockets[s].owner)
  {
    var r := ApplyPoll(p, p.blockedQ, table);
    ApplyPollKeeps(p, p.blockedQ, table);
    if r.ok {
      RetryAllKeeps(r.p, r.p.blockedQ, ios);
      KeepsTrans(p, r.p, Postpoll(p, table, ios).p);
      assert forall s :: s in p.blockedQ ==> SamePlace(p.sockets[s], r.p.sockets[s]);
    }
  }

  // ---- retries succeed on well-formed pipes ----

  /** `vk_pipeline` binds reads to a tx ring and writes to an rx ring, never the other way round. */
  predicate Plumbed(p: Local) {
    forall s :: 0 <= s < |p.sockets| ==> !p.sockets[s].rxPipe.VkRx? && !p.sockets[s].txPipe.VkTx?
  }

  predicate InTable(x: Socket, table: seq<Future>) {
    (x.rxPre.fd == -1 || 0 <= x.rxPre.fd < |table|) && (x.txPre.fd == -1 || 0 <= x.txPre.fd < |table|)
  }

  lemma {:induction false} ReadFlushSucceeds(p: Local, s: nat, io: Io)
    requires p.Inv() && s < |p.sockets| && p.Alive(p.sockets[s].owner)
    ensures !p.sockets[s].rxPipe.VkRx? && !p.sockets[s].txPipe.VkTx? ==> HandleReadFlush(p, s, io).ok
  {
    HandleReadKeeps(p, s, io);
    assert SamePlace(p.sockets[s], HandleRead(p, s, io).p.sockets[s]);
  }

  lemma {:induction false} ForwardSucceeds(p: Local, s: nat, io: Io)
    requires p.Inv() && s < |p.sockets| && p.Alive(p.sockets[s].owner)
    ensures !p.sockets[s].rxPipe.VkRx? && !p.sockets[s].txPipe.VkTx? ==> HandleForward(p, s, io).ok
  {
    ForwardInKeeps(p, s, io);
    assert SamePlace(p.sockets[s], ForwardIn(p, s, io).p.sockets[s]);
  }

  lemma {:induction false} TransferSucceeds(p: Local, s: nat, io: Io)
    requires p.Inv() && s < |p.sockets| && p.Alive(p.sockets[s].owner) && Transfers(p.sockets[s].op)
    ensures !p.sockets[s].rxPipe.VkRx? && !p.sockets[s].txPipe.VkTx? ==> Handler(p, s, io).ok
  {
    if p.sockets[s].op == OpRead {
      ReadFlushSucceeds(p, s, io);
    } else if p.sockets[s].op == OpForward {
      ForwardSucceeds(p, s, io);
    }
  }

  lemma {:induction false} HandlerSucceeds(p: Local, s: nat, io: Io)
    requires p.Inv() && s < |p.sockets| && p.Alive(p.sockets[s].owner)
    ensures !p.sockets[s].rxPipe.VkRx? && !p.sockets[s].txPipe.VkTx? ==> Handler(p, s, io).ok
  {
    if Transfers(p.sockets[s].op) {
      TransferSucceeds(p, s, io);
    }
  }

  lemma {:induction false} RetrySucceeds(p: Local, s: nat, io: Io)
    requires p.Inv() && s in p.blockedQ && Plumbed(p)
    ensures Retry(p, s, io).ok
  {
    var a := p.SetSocket(s, Unblock(p.sockets[s]));
    SetSocketKeeps(p, s, Unblock(p.sockets[s]));
    HandlerSucceeds(a, s, io);
  }

  lemma {:induction false} StaysPlumbed(p: Local, q: Local)
    requires Plumbed(p) && Keeps(p, q)
    ensures Plumbed(q)
  {
    assert forall s :: 0 <= s < |p.sockets| ==> SamePlace(p.sockets[s], q.sockets[s]);
  }

  lemma {:induction false} RetryAllSucceeds(p: Local, q: seq<nat>, ios: seq<Io>)
    requires p.Inv() && q == p.blockedQ && Plumbed(p)
    ensures RetryAll(p, q, ios).ok
    decreases |q|
  {
    if q != [] {
      assert q[0] in q;
      RetrySucceeds(p, q[0], IoAt(ios, 0));
      RetryKeeps(p, q[0], IoAt(ios, 0));
      var r := Retry(p, q[0], IoAt(ios, 0)).p;
      StaysPlumbed(p, r);
      assert Without(q, q[0]) == q[1..];
      RetryAllSucceeds(r, q[1..], if ios == [] then [] else ios[1..]);
    }
  }

  lemma {:induction false} ApplyPollSucceedsIff(p: Local, q: seq<nat>, table: seq<Future>)
    requires (forall s :: s in q ==> s < |p.sockets|) && Distinct(q)
    ensures ApplyPoll(p, q, table).ok <==> forall s :: s in q ==> InTable(p.sockets[s], table)
    decreases |q|
  {
    if q != [] {
      assert q[0] in q;
      var x := p.sockets[q[0]];
      var rx, tx := Polled(x.rxPre, x.rxRet, table), Polled(x.txPre, x.txRet, table);
      assert q == [q[0]] + q[1..];
      if rx.Some? && tx.Some? {
        var z := x.(rxRet := rx.value, txRet := tx.value);
        assert forall s :: s in q[1..] ==> s in q;
        ApplyPollSucceedsIff(p.SetSocket(q[0], z), q[1..], table);
        assert forall s :: s in q[1..] ==> p.SetSocket(q[0], z).sockets[s] == p.sockets[s];
      }
    }
  }

  /** With pipes as `vk_pipeline` makes them, a postpoll fails exactly on a descriptor outside the table. */
  lemma {:induction false} PostpollSucceedsIff(p: Local, table: seq<Future>, ios: seq<Io>)
    requires p.Inv() && Plumbed(p)
    ensures Postpoll(p, table, ios).ok <==> forall s :: s in p.blockedQ ==> InTable(p.sockets[s], table)
  {
    var r := ApplyPoll(p, p.blockedQ, table);
    ApplyPollKeeps(p, p.blockedQ, table);
    ApplyPollSucceedsIff(p, p.blockedQ, table);
    if r.ok {
      StaysPlumbed(p, r.p);
      RetryAllSucceeds(r.p, r.p.blockedQ, ios);
    }
  }

  // ---- running coroutines ----

  /**
   What a coroutine body may do before it yields: `vk_play`, `vk_raise_at`, `vk_again` and `vk_readhup`
   on a socket of its own, any number of sends and receives on a socket of its own, `vk_child` or
   `vk_responder`, which create a coroutine and its socket, `vk_pipeline`, which binds two sockets, and
   `vk_pipe_init_fd`, which binds a socket to a descriptor.
   A future that is sent or resolved is the play of the coroutine that waits for it.
   */
  datatype Action =
    | Play(t: nat)
    | RaiseAt(t: nat)
    | Again(s: nat)
    | Use(s: nat, rx: Fifo, tx: Fifo, op: Op)
    | ReadHupNow(s: nat)
    | Create(rxPipe: Pipe, txPipe: Pipe)
    | Pipeline(parent: nat, child: nat)
    | Rebind(s: nat, rxPipe: Pipe, txPipe: Pipe)

  /** How it yields: `vk_pause`, `vk_listen`, `vk_wait`, `vk_raise`, `vk_lower`, or the end of its body. */
  datatype Exit = Pause | Listening | WaitOn(s: nat) | Raise | Lower | Finish

  /** One call of a coroutine function, and what the system answers to the handler that follows. */
  datatype Turn = Turn(actions: seq<Action>, exit: Exit, io: Io)

  function Owns(p: Local, t: nat, s: nat): bool {
    s < |p.sockets| && p.sockets[s].owner == t
  }

  /** The size of the buffer of a `struct vk_buffering`. */
  const BUFFER_SIZE: nat := 16384

  const EMPTY_RING: Fifo := Fifo(BUFFER_SIZE, [], 0, false, false, false, false, false)

  /** `vk_init`: a coroutine that is ready and not queued, with a socket of its own. */
  function Created(p: Local, rxPipe: Pipe, txPipe: Pipe): (q: Local)
    ensures p.Grown(q)
  {
    var x := Socket(EMPTY_RING, EMPTY_RING, OpNone, |p.threads|, rxPipe, txPipe,
                    IDLE, IDLE, IDLE, IDLE, 0, false);
    p.(threads := p.threads + [Thread(Run, None, false)], sockets := p.sockets + [x])
  }

  /** `vk_pipeline`: the parent's writes become the child's reads. */
  function Piped(p: Local, parent: nat, child: nat): (q: Local)
    ensures p.SameShape(q)
  {
    if parent < |p.sockets| && child < |p.sockets| then
      var q := p.SetSocket(parent, p.sockets[parent].(txPipe := VkRx(child)));
      q.SetSocket(child, q.sockets[child].(rxPipe := VkTx(parent)))
    else p
  }

  /** `vk_readhup`: the EOF is taken from the writer's ring and drained from the reader's. */
  function TakenHup(p: Local, s: nat): (q: Local)
    requires s < |p.sockets|
    ensures p.SameShape(q)
  {
    var q := HandleReadHup(p, s).p;
    q.SetRx(s, q.sockets[s].rx.ClearEof())
  }

  /** A step that the macros do not allow does not happen. */
  function Act(p: Local, that: nat, a: Action): (q: Local)
    ensures p.Grown(q)
  {
    match a
    case Play(t) => p.EnqueueRun(t)
    case RaiseAt(t) =>
      var q := p.EnqueueRun(t);
      if q.Alive(t) then q.SetThread(t, q.threads[t].(status := Error)) else q
    case Again(s) => if Owns(p, that, s) && p.Alive(that) then p.EnqueueBlocked(s) else p
    case Use(s, rx, tx, op) =>
      if Owns(p, that, s) && rx.Valid() && tx.Valid() then
        p.SetSocket(s, p.sockets[s].(rx := rx, tx := tx, op := op))
      else p
    case ReadHupNow(s) => if Owns(p, that, s) && p.Alive(that) then TakenHup(p, s) else p
    case Create(rxPipe, txPipe) => if p.PipeOk(rxPipe) && p.PipeOk(txPipe) then Created(p, rxPipe, txPipe) else p
    case Pipeline(parent, child) => Piped(p, parent, child)
    case Rebind(s, rxPipe, txPipe) =>
      if s < |p.sockets| && p.PipeOk(rxPipe) && p.PipeOk(txPipe) then
        p.SetSocket(s, p.sockets[s].(rxPipe := rxPipe, txPipe := txPipe))
      else p
  }

  function Acts(p: Local, that: nat, actions: seq<Action>): (q: Local)
    ensures p.Grown(q)
    decreases |actions|
  {
    if actions == [] then p else Acts(Act(p, that, actions[0]), that, actions[1..])
  }

  function SetStatus(p: Local, t: nat, status: Status): (q: Local)
    ensures p.SameShape(q)
  {
    if t < |p.threads| then p.SetThread(t, p.threads[t].(status := status)) else p
  }

  /** `vk_begin`, and the end of a `vk_wait` that is being resumed. */
  function Enter(p: Local, that: nat): (q: Local)
    ensures p.SameShape(q)
  {
    if that < |p.threads| then
      var t := p.threads[that];
      p.SetThread(that, t.(status := if t.status == Error then Run else t.status, waiting := None))
    else p
  }

  /** The status a coroutine leaves behind. A wait also takes over the socket that it waits on. */
  function Leave(p: Local, that: nat, exit: Exit): (q: Local)
    ensures p.SameShape(q)
  {
    match exit
    case Pause => SetStatus(p, that, Yield)
    case Listening => SetStatus(p, that, Listen)
    case WaitOn(s) =>
      if s < |p.sockets| && that < |p.threads| then
        var q := p.SetSocket(s, p.sockets[s].(owner := that));
        q.SetThread(that, q.threads[that].(status := Wait, waiting := Some(s)))
      else if that < |p.threads| then
        p.SetThread(that, p.threads[that].(status := Wait, waiting := None))
      else p
    case Raise => SetStatus(p.EnqueueRun(that), that, Error)
    case Lower => SetStatus(p, that, Run)
    case Finish => SetStatus(p, that, End)
  }

  /** One call of the coroutine's function. */
  function Call(p: Local, that: nat, turn: Turn): (q: Local)
    ensures p.Grown(q)
  {
    Leave(Acts(Enter(p, that), that, turn.actions), that, turn.exit)
  }

  /** `vk_proc_local_drop_blocked_for`, over the sockets `q`. */
  function DropOwned(p: Local, q: seq<nat>, t: nat): (r: Local)
    ensures p.SameShape(r)
    decreases |q|
  {
    if q == [] then p
    else if Owns(p, t, q[0]) then DropOwned(p.DropBlocked(q[0]), q[1..], t)
    else DropOwned(p, q[1..], t)
  }

  /** What `vk_proc_local_execute` does when a coroutine has ended. */
  function Reap(p: Local, t: nat): (q: Local)
    ensures p.SameShape(q)
  {
    var q := DropOwned(p, p.blockedQ, t);
    if t < |q.threads| && q.threads[t].runEnq then q.DropRun(t) else q
  }

  /** `vk_unblock`: a waiting coroutine's operation is applied as far as possible. */
  function TryUnblock(p: Local, that: nat, io: Io): (r: Handled)
    ensures p.SameShape(r.p)
  {
    if that < |p.threads| && p.threads[that].status == Wait then
      match p.threads[that].waiting
      case Some(s) => if s < |p.sockets| then Handler(p, s, io) else Handled(p, false)
      case None => Handled(p, false)
    else Handled(p, true)
  }

  /** One turn of the inner loop: call the coroutine, then reap it or apply its operation. */
  function TurnOf(p: Local, that: nat, turn: Turn): (r: Handled)
    ensures p.Grown(r.p)
  {
    var q := Call(p, that, turn);
    if that < |q.threads| && q.threads[that].status == End then Handled(Reap(q, that), true)
    else TryUnblock(q, that, turn.io)
  }

  function Dequeue(p: Local): (q: Local)
    requires p.runQ != []
    ensures p.SameShape(q)
  {
    var t := p.runQ[0];
    var q := p.(runQ := p.runQ[1..], run := p.run && p.runQ[1..] != []);
    if t < |p.threads| then q.SetThread(t, q.threads[t].(runEnq := false)) else q
  }

  /** After the inner loop a yielding coroutine becomes runnable again. */
  function Settle(p: Local, that: nat): (q: Local)
    ensures p.SameShape(q)
  {
    if that < |p.threads| && p.threads[that].status == Yield then p.Ready(that) else p
  }

  datatype Verdict = Finished | Failed | Suspended

  /** Where a run stands: `that` is the coroutine being run, if any. */
  datatype Outcome = Outcome(p: Local, that: Option<nat>, verdict: Verdict)

  /**
   `vk_proc_local_execute`. The script lists the turns that coroutines take; a run whose script has
   run out is suspended there, so every point of every run is the outcome of some script.
   */
  function Execute(p: Local, that: Option<nat>, script: seq<Turn>): Outcome
    decreases |script|, |p.runQ|, that.Some?
  {
    match that
    case None =>
      if p.runQ == [] then Outcome(p, None, Finished)
      else
        Execute(Dequeue(p), Some(p.runQ[0]), script)
    case Some(t) =>
      if !IsReady(p, t) then Execute(Settle(p, t), None, script)
      else if script == [] then Outcome(p, that, Suspended)
      else
        var r := TurnOf(p, t, script[0]);
        if !r.ok then Outcome(r.p, that, Failed) else Execute(r.p, that, script[1..])
  }

  predicate IsReady(p: Local, t: nat) {
    t < |p.threads| && p.threads[t].status.IsReady()
  }

  lemma {:induction false} SetStatusKeeps(p: Local, t: nat, status: Status)
    requires p.Inv() && (status != End)
    ensures SetStatus(p, t, status).Inv()
  {
  }

  lemma {:induction false} ActKeeps(p: Local, that: nat, a: Action)
    requires p.Inv()
    ensures Act(p, that, a).Inv()
  {
    match a
    case Play(t) =>
      EnqueueRunKeeps(p, t);
    case RaiseAt(t) =>
      EnqueueRunKeeps(p, t);
      SetStatusKeeps(p.EnqueueRun(t), t, Error);
    case Again(s) =>
      if Owns(p, that, s) && p.Alive(that) {
        EnqueueBlockedKeeps(p, s);
      }
    case Use(s, rx, tx, op) =>
      if Owns(p, that, s) && rx.Valid() && tx.Valid() {
        UseKeeps(p, s, rx, tx, op);
      }
    case ReadHupNow(s) =>
      if Owns(p, that, s) && p.Alive(that) {
        TakenHupKeeps(p, s);
      }
    case Create(rxPipe, txPipe) =>
      if p.PipeOk(rxPipe) && p.PipeOk(txPipe) {
        CreatedKeeps(p, rxPipe, txPipe);
      }
    case Pipeline(parent, child) =>
      PipedKeeps(p, parent, child);
    case Rebind(s, rxPipe, txPipe) =>
      if s < |p.sockets| && p.PipeOk(rxPipe) && p.PipeOk(txPipe) {
        RepipeKeeps(p, s, rxPipe, txPipe);
      }
  }

  /** A readhup inside a body keeps the queues, the woken writer included. */
  lemma {:induction false} TakenHupKeeps(p: Local, s: nat)
    requires p.Inv() && s < |p.sockets| && p.Alive(p.sockets[s].owner)
    ensures Keeps(p, TakenHup(p, s)) && BlocksOnly(p, TakenHup(p, s), s)
  {
    var q := HandleReadHup(p, s).p;
    HandleReadHupKeeps(p, s);
    SetSocketKeeps(q, s, q.sockets[s].(rx := q.sockets[s].rx.ClearEof()));
    KeepsTrans(p, q, TakenHup(p, s));
  }

  /** A new coroutine and its socket are on no queue. */
  lemma {:induction false} CreatedKeeps(p: Local, rxPipe: Pipe, txPipe: Pipe)
    requires p.Inv() && p.PipeOk(rxPipe) && p.PipeOk(txPipe)
    ensures Created(p, rxPipe, txPipe).Inv()
  {
    var q := Created(p, rxPipe, txPipe);
    assert EMPTY_RING.Valid();
    forall s | 0 <= s < |q.sockets|
      ensures q.SocketOk(q.sockets[s])
    {
      assert s < |p.sockets| ==> p.SocketOk(p.sockets[s]);
    }
    assert q.Linked();
    assert q.RunQueueOk() && q.BlockedQueueOk();
  }

  lemma {:induction false} RepipeKeeps(p: Local, s: nat, rxPipe: Pipe, txPipe: Pipe)
    requires p.Inv() && s < |p.sockets| && p.PipeOk(rxPipe) && p.PipeOk(txPipe)
    ensures p.SetSocket(s, p.sockets[s].(rxPipe := rxPipe, txPipe := txPipe)).Inv()
  {
  }

  lemma {:induction false} PipedKeeps(p: Local, parent: nat, child: nat)
    requires p.Inv()
    ensures Piped(p, parent, child).Inv()
  {
    if parent < |p.sockets| && child < |p.sockets| {
      var q := p.SetSocket(parent, p.sockets[parent].(txPipe := VkRx(child)));
      RepipeKeeps(p, parent, p.sockets[parent].rxPipe, VkRx(child));
      RepipeKeeps(q, child, VkTx(parent), q.sockets[child].txPipe);
    }
  }

  lemma {:induction false} UseKeeps(p: Local, s: nat, rx: Fifo, tx: Fifo, op: Op)
    requires p.Inv() && s < |p.sockets| && rx.Valid() && tx.Valid()
    ensures p.SetSocket(s, p.sockets[s].(rx := rx, tx := tx, op := op)).Inv()
  {
  }

  lemma {:induction false} ActsKeep(p: Local, that: nat, actions: seq<Action>)
    requires p.Inv()
    ensures Acts(p, that, actions).Inv()
    decreases |actions|
  {
    if actions != [] {
      ActKeeps(p, that, actions[0]);
      ActsKeep(Act(p, that, actions[0]), that, actions[1..]);
    }
  }

  lemma {:induction false} EnterKeeps(p: Local, that: nat)
    requires p.Inv()
    ensures Enter(p, that).Inv()
  {
  }

  lemma {:induction false} WaitKeeps(p: Local, that: nat, s: nat)
    requires p.Inv() && s < |p.sockets| && that < |p.threads|
    ensures var q := Leave(p, that, WaitOn(s));
            q.Inv() && q.Alive(that) && q.sockets[s].owner == that
  {
    var q := p.SetSocket(s, p.sockets[s].(owner := that));
    var r := q.SetThread(that, q.threads[that].(status := Wait, waiting := Some(s)));
    assert r.Linked() && r.RunQueueOk() && r.BlockedQueueOk();
  }

  lemma {:induction false} ClearWaitKeeps(p: Local, that: nat)
    requires p.Inv() && that < |p.threads|
    ensures p.SetThread(that, p.threads[that].(waiting := None)).Inv()
  {
  }

  /** A coroutine that has not just ended leaves a sound state; one that has leaves its queues sound. */
  lemma {:induction false} WaitNowhereKeeps(p: Local, that: nat, s: nat)
    requires p.Inv() && that < |p.threads| && s >= |p.sockets|
    ensures Leave(p, that, WaitOn(s)).Inv()
  {
    SetStatusKeeps(p, that, Wait);
    ClearWaitKeeps(SetStatus(p, that, Wait), that);
  }

  lemma {:induction false} LeaveKeeps(p: Local, that: nat, exit: Exit)
    requires p.Inv() && that < |p.threads|
    ensures exit != Finish ==> Leave(p, that, exit).Inv()
    ensures exit == Finish ==> EndedOnly(Leave(p, that, exit), that)
  {
    match exit
    case Pause => SetStatusKeeps(p, that, Yield);
    case Listening => SetStatusKeeps(p, that, Listen);
    case WaitOn(s) =>
      if s < |p.sockets| {
        WaitKeeps(p, that, s);
      } else {
        WaitNowhereKeeps(p, that, s);
      }
    case Raise =>
      EnqueueRunKeeps(p, that);
      SetStatusKeeps(p.EnqueueRun(that), that, Error);
    case Lower => SetStatusKeeps(p, that, Run);
    case Finish =>
  }

  /** Sound queues, on which at most the coroutine `t` has ended. */
  ghost predicate EndedOnly(p: Local, t: nat) {
    && p.Shaped()
    && (forall u :: u in p.runQ && u != t ==> p.Alive(u))
    && (forall s :: s in p.blockedQ && s < |p.sockets| && p.sockets[s].owner != t ==> p.Alive(p.sockets[s].owner))
  }

  /** Dropping an ended coroutine's sockets one after the other leaves none of them on the queue. */
  lemma {:induction false} DropOwnedKeeps(p: Local, q: seq<nat>, t: nat)
    requires p.Shaped() && forall s :: s in q ==> s < |p.sockets|
    ensures var r := DropOwned(p, q, t);
            && r.Shaped() && r.threads == p.threads && r.runQ == p.runQ
            && (forall s :: s in r.blockedQ ==> s in p.blockedQ && !(s in q && Owns(p, t, s)))
            && (forall s :: 0 <= s < |p.sockets| ==> r.sockets[s].owner == p.sockets[s].owner)
    decreases |q|
  {
    if q != [] {
      assert q == [q[0]] + q[1..] && q[0] in q;
      assert forall s :: s in q[1..] ==> s in q;
      if Owns(p, t, q[0]) {
        var p1 := p.DropBlocked(q[0]);
        DropBlockedKeeps(p, q[0]);
        assert forall s :: 0 <= s < |p.sockets| ==> SamePlace(p.sockets[s], p1.sockets[s]);
        DropOwnedKeeps(p1, q[1..], t);
      } else {
        DropOwnedKeeps(p, q[1..], t);
      }
    }
  }

  /** Reaping takes the ended coroutine and its sockets off every queue. */
  lemma {:induction false} ReapKeeps(p: Local, t: nat)
    requires EndedOnly(p, t) && t < |p.threads|
    ensures Reap(p, t).Inv()
    ensures t !in Reap(p, t).runQ
    ensures forall s :: s in Reap(p, t).blockedQ ==> !Owns(Reap(p, t), t, s)
  {
    var q := DropOwned(p, p.blockedQ, t);
    DropOwnedKeeps(p, p.blockedQ, t);
    if q.threads[t].runEnq {
      DropRunKeeps(q, t);
    }
  }

  /** A call leaves sound queues; an ended coroutine may still be on them. */
  lemma {:induction false} CallKeeps(p: Local, that: nat, turn: Turn)
    requires p.Inv() && that < |p.threads|
    ensures Call(p, that, turn).Shaped()
    ensures turn.exit != Finish ==> Call(p, that, turn).Inv()
  {
    EnterKeeps(p, that);
    ActsKeep(Enter(p, that), that, turn.actions);
    LeaveKeeps(Acts(Enter(p, that), that, turn.actions), that, turn.exit);
  }

  /** A coroutine that is left waiting owns the socket it waits on and has not ended. */
  lemma {:induction false} WaiterOwns(p: Local, that: nat, turn: Turn)
    requires p.Inv() && that < |p.threads| && turn.exit != Finish
    requires Call(p, that, turn).threads[that].status == Wait
    requires Call(p, that, turn).threads[that].waiting.Some?
    ensures var q := Call(p, that, turn);
            var s := q.threads[that].waiting.value;
            s < |q.sockets| && q.sockets[s].owner == that && q.Alive(that)
  {
    EnterKeeps(p, that);
    ActsKeep(Enter(p, that), that, turn.actions);
    var b := Acts(Enter(p, that), that, turn.actions);
    if turn.exit.WaitOn? && turn.exit.s < |b.sockets| {
      WaitKeeps(b, that, turn.exit.s);
    }
  }

  /** Whatever a coroutine does in its turn, the queues are sound afterwards. */
  lemma {:induction false} TurnKeeps(p: Local, that: nat, turn: Turn)
    requires p.Inv() && that < |p.threads|
    ensures TurnOf(p, that, turn).p.Inv()
  {
    EnterKeeps(p, that);
    var a := Enter(p, that);
    ActsKeep(a, that, turn.actions);
    var b := Acts(a, that, turn.actions);
    LeaveKeeps(b, that, turn.exit);
    var q := Call(p, that, turn);
    if turn.exit == Finish {
      ReapKeeps(q, that);
    } else {
      UnblockKeeps(b, that, turn);
    }
  }

  /** A wait owns the socket that it waits on, so applying its operation cannot block an ended coroutine. */
  lemma {:induction false} UnblockKeeps(p: Local, that: nat, turn: Turn)
    requires p.Inv() && that < |p.threads| && turn.exit != Finish
    requires Leave(p, that, turn.exit).Inv()
    ensures var q := Leave(p, that, turn.exit);
            if q.threads[that].status == End then Reap(q, that).Inv() else TryUnblock(q, that, turn.io).p.Inv()
  {
    var q := Leave(p, that, turn.exit);
    if turn.exit.WaitOn? && turn.exit.s < |p.sockets| {
      WaitKeeps(p, that, turn.exit.s);
      HandlerKeeps(q, turn.exit.s, turn.io);
    } else if q.threads[that].status == End {
      ReapKeeps(q, that);
    } else {
      assert TryUnblock(q, that, turn.io).p == q;
    }
  }

  lemma {:induction false} DequeueKeeps(p: Local)
    requires p.Inv() && p.runQ != []
    ensures Dequeue(p).Inv() && p.runQ[0] < |p.threads|
  {
    var head, tail := p.runQ[0], p.runQ[1..];
    assert p.runQ == [head] + tail;
    assert forall t :: t in p.runQ <==> t == head || t in tail;
    assert head in p.runQ && head !in tail && Distinct(tail);
  }

  lemma {:induction false} DequeueQueued(p: Local)
    requires p.Queued() && p.runQ != []
    ensures Dequeue(p).Queued() && p.runQ[0] < |p.threads|
  {
    var head, tail := p.runQ[0], p.runQ[1..];
    assert p.runQ == [head] + tail;
    assert forall t :: t in p.runQ <==> t == head || t in tail;
    assert head in p.runQ && head !in tail && Distinct(tail);
  }

  lemma {:induction false} CreatedQueued(p: Local, rxPipe: Pipe, txPipe: Pipe)
    requires p.Queued()
    ensures Created(p, rxPipe, txPipe).Queued()
  {
  }

  lemma {:induction false} SettleKeeps(p: Local, that: nat)
    requires p.Inv()
    ensures Settle(p, that).Inv()
  {
    ReadyKeeps(p, that);
  }

  /**
   At every point of every run: the flags equal the queues, the marks equal membership without
   repetitions, and no ended coroutine is on the run queue or owns a queued blocked socket. A run
   that returns successfully has an empty run queue and no running coroutine.
   */
  lemma {:induction false} ExecuteKeeps(p: Local, that: Option<nat>, script: seq<Turn>)
    requires p.Inv() && (that.Some? ==> that.value < |p.threads|)
    ensures var r := Execute(p, that, script);
            && r.p.Inv()
            && (r.verdict == Finished ==> r.p.runQ == [] && !r.p.run && r.that == None)
    decreases |script|, |p.runQ|, that.Some?
  {
    match that
    case None =>
      if p.runQ != [] {
        DequeueKeeps(p);
        ExecuteKeeps(Dequeue(p), Some(p.runQ[0]), script);
      }
    case Some(t) =>
      if !IsReady(p, t) {
        SettleKeeps(p, t);
        ExecuteKeeps(Settle(p, t), None, script);
      } else if script != [] {
        TurnKeeps(p, t, script[0]);
        var r := TurnOf(p, t, script[0]);
        if r.ok {
          ExecuteKeeps(r.p, that, script[1..]);
        }
      }
  }

  // ---- what is called ----

  /** The coroutines that a run calls, in order. */
  function Called(p: Local, that: Option<nat>, script: seq<Turn>): seq<nat>
    decreases |script|, |p.runQ|, that.Some?
  {
    match that
    case None => if p.runQ == [] then [] else Called(Dequeue(p), Some(p.runQ[0]), script)
    case Some(t) =>
      if !IsReady(p, t) then Called(Settle(p, t), None, script)
      else if script == [] then []
      else
        var r := TurnOf(p, t, script[0]);
        [t] + if r.ok then Called(r.p, that, script[1..]) else []
  }

  lemma {:induction false} ActStaysAwake(p: Local, that: nat, a: Action, t: nat)
    requires p.Inv() && Awake(p, t)
    ensures Awake(Act(p, that, a), t)
  {
    match a
    case Play(u) =>
      EnqueueRunKeeps(p, u);
    case RaiseAt(u) =>
      EnqueueRunKeeps(p, u);
    case Again(s) =>
      if Owns(p, that, s) && p.Alive(that) {
        EnqueueBlockedKeeps(p, s);
      }
    case Use(_, _, _, _) =>
    case ReadHupNow(s) =>
      if Owns(p, that, s) && p.Alive(that) {
        TakenHupKeeps(p, s);
      }
    case Create(_, _) =>
    case Pipeline(_, _) =>
    case Rebind(_, _, _) =>
  }

  lemma {:induction false} ActsStayAwake(p: Local, that: nat, actions: seq<Action>, t: nat)
    requires p.Inv() && Awake(p, t)
    ensures Awake(Acts(p, that, actions), t)
    decreases |actions|
  {
    if actions != [] {
      ActKeeps(p, that, actions[0]);
      ActStaysAwake(p, that, actions[0], t);
      ActsStayAwake(Act(p, that, actions[0]), that, actions[1..], t);
    }
  }

  lemma {:induction false} LeaveStaysAwake(p: Local, that: nat, exit: Exit, t: nat)
    requires p.Inv() && Awake(p, t) && t != that
    ensures Awake(Leave(p, that, exit), t)
  {
    if exit == Raise {
      EnqueueRunKeeps(p, that);
    }
  }

  lemma {:induction false} ReapStaysAwake(p: Local, that: nat, t: nat)
    requires EndedOnly(p, that) && that < |p.threads| && Awake(p, t) && t != that
    ensures Awake(Reap(p, that), t)
  {
    var q := DropOwned(p, p.blockedQ, that);
    DropOwnedKeeps(p, p.blockedQ, that);
    if q.threads[that].runEnq {
      DropRunKeeps(q, that);
      WithoutMembers(q.runQ, that);
    }
  }

  lemma {:induction false} CallStaysAwake(p: Local, that: nat, turn: Turn, t: nat)
    requires p.Inv() && that < |p.threads| && Awake(p, t) && t != that
    ensures Awake(Call(p, that, turn), t)
  {
    var a := Enter(p, that);
    EnterKeeps(p, that);
    ActsKeep(a, that, turn.actions);
    ActsStayAwake(a, that, turn.actions, t);
    LeaveStaysAwake(Acts(a, that, turn.actions), that, turn.exit, t);
  }

  /** What applies a waiting coroutine's operation keeps all others as they are, or wakes them. */
  lemma {:induction false} UnblockStaysAwake(p: Local, that: nat, turn: Turn, t: nat)
    requires p.Inv() && that < |p.threads| && turn.exit != Finish && Awake(Call(p, that, turn), t)
    ensures Awake(TryUnblock(Call(p, that, turn), that, turn.io).p, t)
  {
    var q := Call(p, that, turn);
    CallKeeps(p, that, turn);
    if q.threads[that].status == Wait && q.threads[that].waiting.Some? {
      WaiterOwns(p, that, turn);
      HandlerKeeps(q, q.threads[that].waiting.value, turn.io);
    }
  }

  /** No turn of another coroutine takes an awake one off the run queue, or makes it wait. */
  lemma {:induction false} TurnStaysAwake(p: Local, that: nat, turn: Turn, t: nat)
    requires p.Inv() && that < |p.threads| && Awake(p, t) && t != that
    ensures Awake(TurnOf(p, that, turn).p, t)
  {
    var q := Call(p, that, turn);
    CallStaysAwake(p, that, turn, t);
    if q.threads[that].status != End {
      UnblockStaysAwake(p, that, turn, t);
    } else {
      EndsOnlyItself(p, that, turn);
      ReapStaysAwake(q, that, t);
    }
  }

  lemma {:induction false} EndsOnlyItself(p: Local, that: nat, turn: Turn)
    requires p.Inv() && that < |p.threads|
    ensures EndedOnly(Call(p, that, turn), that)
  {
    EnterKeeps(p, that);
    var a := Enter(p, that);
    ActsKeep(a, that, turn.actions);
    LeaveKeeps(Acts(a, that, turn.actions), that, turn.exit);
  }

  lemma {:induction false} DequeueStaysAwake(p: Local, t: nat)
    requires p.Inv() && Awake(p, t)
    ensures p.runQ != [] && (t == p.runQ[0] || Awake(Dequeue(p), t)) && IsReady(Dequeue(p), t)
  {
    assert p.runQ == [p.runQ[0]] + p.runQ[1..];
  }

  /** A run that returns successfully has called every coroutine that was on the run queue and ready. */
  lemma {:induction false} AwakeIsCalled(p: Local, that: Option<nat>, script: seq<Turn>, t: nat)
    requires p.Inv() && (that.Some? ==> that.value < |p.threads|)
    requires Awake(p, t) || (that == Some(t) && IsReady(p, t))
    requires Execute(p, that, script).verdict == Finished
    ensures t in Called(p, that, script)
    decreases |script|, |p.runQ|, that.Some?
  {
    match that
    case None =>
      DequeueStaysAwake(p, t);
      DequeueKeeps(p);
      AwakeIsCalled(Dequeue(p), Some(p.runQ[0]), script, t);
    case Some(u) =>
      if !IsReady(p, u) {
        ReadyKeeps(p, u);
        AwakeIsCalled(Settle(p, u), None, script, t);
      } else if u != t {
        TurnKeeps(p, u, script[0]);
        TurnStaysAwake(p, u, script[0], t);
        AwakeIsCalled(TurnOf(p, u, script[0]).p, that, script[1..], t);
      }
  }
}
