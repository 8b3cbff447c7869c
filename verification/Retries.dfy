/**
 What a handler leaves registered and whom it wakes, operation by operation, and what a retry after a poll
 does: the operation that was blocked is tried, and bytes move as the system answers.
 */
module Retries {
  import opened Machine
  import opened Fifo
  import opened SList
  import opened Process
  import opened Scheduler
  import opened Effects

  // ---- who is registered ----

  /** Both directions ask the poller for what has blocked them, and for nothing else. */
  predicate Asked(x: Socket) {
    && x.rxPre.fd == x.rxPipe.Fd() && x.txPre.fd == x.txPipe.Fd()
    && x.rxPre.events == (if x.rxPipe.OsFd? && x.rx.rxBlocked then {In} else {})
    && x.txPre.events == (if x.txPipe.OsFd? && x.tx.txBlocked then {Out} else {})
    && (x.rxPipe.OsFd? && x.rx.closed ==> x.rxPre.rxClosed)
    && (x.txPipe.OsFd? && x.tx.closed ==> x.txPre.txClosed)
  }

  predicate Registered(x: Socket) {
    Asked(x) && (MustPoll(x) ==> x.blockedEnq)
  }

  lemma {:induction false} BlockRegisters(p: Local, s: nat)
    requires s < |p.sockets|
    ensures Registered(p.HandleBlock(s).sockets[s])
  {
  }

  lemma {:induction false} ReadRegisters(p: Local, s: nat, io: Io)
    requires s < |p.sockets|
    ensures HandleRead(p, s, io).ok ==> Registered(HandleRead(p, s, io).p.sockets[s])
  {
    match p.sockets[s].rxPipe
    case OsFd(_, listens) =>
      BlockRegisters(p.SetSocket(s, Incoming(p.sockets[s], listens, io.read)).EnqueueRead(s), s);
    case VkTx(peer) =>
      BlockRegisters(p.Spliced(s, peer).EnqueueRead(s).EnqueueReadWriter(s, peer), s);
    case VkRx(_) =>
  }

  lemma {:induction false} WriteRegisters(p: Local, s: nat, io: Io)
    requires s < |p.sockets|
    ensures HandleWrite(p, s, io).ok ==> Registered(HandleWrite(p, s, io).p.sockets[s])
  {
    var x := p.sockets[s];
    match x.txPipe
    case OsFd(_, _) =>
      BlockRegisters(p.SetSocket(s, WriteSocket(x, Taken(io.write, x.tx))).EnqueueWrite(s), s);
    case VkRx(peer) =>
      BlockRegisters(p.Spliced(peer, s).EnqueueWrite(s).EnqueueWriteReader(s, peer), s);
    case VkTx(_) =>
  }

  lemma {:induction false} TransferRegisters(p: Local, s: nat, io: Io)
    requires s < |p.sockets| && Transfers(p.sockets[s].op)
    ensures Handler(p, s, io).ok ==> Registered(Handler(p, s, io).p.sockets[s])
  {
    if p.sockets[s].op == OpRead {
      ReadRegisters(p, s, io);
      WriteRegisters(HandleRead(p, s, io).p, s, io);
    } else if p.sockets[s].op == OpForward {
      var a := ForwardIn(p, s, io);
      if a.ok {
        BlockRegisters(ForwardOut(a.p, s, p.sockets[s].rxPipe.OsFd?, io).p, s);
      }
    } else {
      WriteRegisters(p, s, io);
    }
  }

  lemma {:induction false} HupRegisters(p: Local, s: nat, io: Io)
    requires s < |p.sockets| && p.sockets[s].op == OpHup
    ensures Handler(p, s, io).ok ==> Registered(Handler(p, s, io).p.sockets[s])
  {
    match p.sockets[s].txPipe
    case OsFd(_, _) => BlockRegisters(p.EnqueueWrite(s), s);
    case VkRx(peer) =>
      BlockRegisters(p, s);
      BlockRegisters(p.EnqueueWrite(s).EnqueueWriteReader(s, peer), s);
    case VkTx(_) =>
  }

  lemma {:induction false} ReadHupRegisters(p: Local, s: nat, io: Io)
    requires s < |p.sockets| && p.sockets[s].op == OpReadHup
    ensures Handler(p, s, io).ok ==> Registered(Handler(p, s, io).p.sockets[s])
  {
    match p.sockets[s].rxPipe
    case OsFd(_, _) => BlockRegisters(p.EnqueueRead(s), s);
    case VkTx(peer) =>
      BlockRegisters(p, s);
      if peer < |p.sockets| {
        BlockRegisters(ForwardedHup(p, s, peer).EnqueueRead(s).EnqueueReadWriter(s, peer), s);
      }
    case VkRx(_) =>
  }

  lemma {:induction false} TxCloseRegisters(p: Local, s: nat, shutdown: bool, io: Io)
    requires s < |p.sockets|
    ensures Registered(HandleTxClose(p, s, shutdown, io).sockets[s])
  {
    var x := p.sockets[s];
    var a :=
      if x.txPipe.OsFd? then p.SetSocket(s, CloseTxSocket(x, io.closeFailed)).EnqueueWrite(s)
      else if shutdown then p.EnqueueWrite(s)
      else p.SetTx(s, x.tx.MarkEof()).EnqueueWrite(s).EnqueueWriteReader(s, x.txPipe.peer);
    BlockRegisters(a, s);
    ReadySockets(a.HandleBlock(s), x.owner);
  }

  lemma {:induction false} RxCloseRegisters(p: Local, s: nat, io: Io)
    requires s < |p.sockets|
    ensures Registered(HandleRxClose(p, s, io).sockets[s])
  {
    var x := p.sockets[s];
    var a := if x.rxPipe.OsFd? then p.SetSocket(s, CloseRxSocket(x, io.closeFailed)) else p;
    BlockRegisters(a.EnqueueRead(s), s);
    ReadySockets(a.EnqueueRead(s).HandleBlock(s), x.owner);
  }

  /**
   Whatever the operation: when its handler has succeeded, the futures of the socket ask for what has
   blocked it, and if a descriptor has, the socket is on the blocked queue.
   */
  lemma {:induction false} HandlerRegisters(p: Local, s: nat, io: Io)
    requires p.Inv() && s < |p.sockets| && p.Alive(p.sockets[s].owner) && Handler(p, s, io).ok
    requires p.sockets[s].op !in {OpNone, OpReadable, OpWritable}
    ensures var q := Handler(p, s, io).p; Asked(q.sockets[s]) && (MustPoll(q.sockets[s]) ==> s in q.blockedQ)
  {
    HandlerKeeps(p, s, io);
    var op := p.sockets[s].op;
    if Transfers(op) {
      TransferRegisters(p, s, io);
    } else if op == OpHup {
      HupRegisters(p, s, io);
    } else if op == OpReadHup {
      ReadHupRegisters(p, s, io);
    } else if op == OpTxClose || op == OpTxShutdown {
      TxCloseRegisters(p, s, op == OpTxShutdown, io);
      HandlerTxCloses(p, s, io);
    } else {
      RxCloseRegisters(p, s, io);
      HandlerRxCloses(p, s, io);
    }
  }

  // ---- who is woken ----

  lemma {:induction false} EnqueueReadReadies(p: Local, s: nat)
    requires s < |p.sockets| && p.sockets[s].rx.effect && p.Alive(p.sockets[s].owner)
    ensures IsReady(p.EnqueueRead(s).HandleBlock(s), p.sockets[s].owner)
  {
  }

  lemma {:induction false} EnqueueWriteReadies(p: Local, s: nat)
    requires s < |p.sockets| && p.sockets[s].tx.effect && p.Alive(p.sockets[s].owner)
    ensures IsReady(p.EnqueueWrite(s).HandleBlock(s), p.sockets[s].owner)
  {
  }

  lemma {:induction false} FdReadReadies(p: Local, s: nat, io: Io)
    requires p.Inv() && s < |p.sockets| && p.Alive(p.sockets[s].owner) && p.sockets[s].rxPipe.OsFd?
    requires !p.sockets[s].rxPipe.listens && io.read.ReadBytes? && io.read.data != [] && p.sockets[s].rx.Free() > 0
    ensures IsReady(HandleRead(p, s, io).p, p.sockets[s].owner)
  {
    var x := p.sockets[s];
    ReadFdLeaves(x.rx, Given(io.read, x.rx));
    EnqueueReadReadies(p.SetSocket(s, Incoming(x, false, io.read)), s);
  }

  /** A lazy flush after a read leaves awake who is, and ready who is. */
  lemma {:induction false} LazyFlushKeeps(p: Local, s: nat, io: Io)
    requires p.Inv() && s < |p.sockets| && p.Alive(p.sockets[s].owner) && p.sockets[s].op == OpRead
    ensures Keeps(HandleRead(p, s, io).p, Handler(p, s, io).p)
  {
    HandleReadKeeps(p, s, io);
    HandleWriteKeeps(HandleRead(p, s, io).p, s, io);
  }

  lemma {:induction false} WokenStays(p: Local, a: Local, q: Local, s: nat, peer: nat)
    requires s < |p.sockets| && peer < |p.sockets| && Woken(p, a, s, peer) && Keeps(a, q)
    ensures Woken(p, q, s, peer)
  {
  }

  /** A read that moves bytes makes its coroutine ready, and over a virtual pipe queues the writer's. */
  lemma {:induction false} OpReadWakes(p: Local, s: nat, io: Io)
    requires p.Inv() && s < |p.sockets| && p.Alive(p.sockets[s].owner) && p.sockets[s].op == OpRead
    ensures var x, q := p.sockets[s], Handler(p, s, io).p;
      match x.rxPipe
      case OsFd(_, listens) =>
        !listens && io.read.ReadBytes? && io.read.data != [] && x.rx.Free() > 0 ==> IsReady(q, x.owner)
      case VkTx(peer) => SpliceCount(x.rx, p.sockets[peer].tx, -1) > 0 ==> Woken(p, q, s, peer)
      case VkRx(_) => true
  {
    var x := p.sockets[s];
    LazyFlushKeeps(p, s, io);
    match x.rxPipe
    case OsFd(_, listens) =>
      if !listens && io.read.ReadBytes? && io.read.data != [] && x.rx.Free() > 0 {
        FdReadReadies(p, s, io);
      }
    case VkTx(peer) =>
      if SpliceCount(x.rx, p.sockets[peer].tx, -1) > 0 {
        ReadWakesWriter(p, s, peer, io);
        WokenStays(p, HandleRead(p, s, io).p, Handler(p, s, io).p, s, peer);
      }
    case VkRx(_) =>
  }

  /** A write that moves bytes makes its coroutine ready, and over a virtual pipe queues the reader's. */
  lemma {:induction false} OpWriteWakes(p: Local, s: nat, io: Io)
    requires p.Inv() && s < |p.sockets| && p.Alive(p.sockets[s].owner)
    requires p.sockets[s].op == OpWrite || p.sockets[s].op == OpFlush
    ensures var x, q := p.sockets[s], Handler(p, s, io).p;
      match x.txPipe
      case OsFd(_, _) =>
        !x.tx.txBlocked && io.write.Wrote? && io.write.count > 0 && x.tx.contents != [] ==> IsReady(q, x.owner)
      case VkRx(peer) => SpliceCount(p.sockets[peer].rx, x.tx, -1) > 0 ==> Woken(p, q, s, peer)
      case VkTx(_) => true
  {
    var x := p.sockets[s];
    match x.txPipe
    case OsFd(_, _) =>
      var a := p.SetSocket(s, WriteSocket(x, Taken(io.write, x.tx)));
      WriteFdLeaves(x.tx, Taken(io.write, x.tx));
      if !x.tx.txBlocked && io.write.Wrote? && io.write.count > 0 && x.tx.contents != [] {
        EnqueueWriteReadies(a, s);
      }
    case VkRx(peer) =>
      if SpliceCount(p.sockets[peer].rx, x.tx, -1) > 0 {
        WriteWakesReader(p, s, peer, io);
      }
    case VkTx(_) =>
  }

  lemma {:induction false} ReadiedIs(p: Local, t: nat)
    requires p.Ready(t).Alive(t)
    ensures IsReady(p.Ready(t), t)
  {
  }

  /** A close makes its coroutine ready whatever happens. */
  lemma {:induction false} OpCloseWakes(p: Local, s: nat, io: Io)
    requires p.Inv() && s < |p.sockets| && p.Alive(p.sockets[s].owner)
    requires p.sockets[s].op in {OpTxClose, OpRxClose, OpTxShutdown, OpRxShutdown}
    ensures IsReady(Handler(p, s, io).p, p.sockets[s].owner)
  {
    HandlerKeeps(p, s, io);
    if p.sockets[s].op == OpTxClose || p.sockets[s].op == OpTxShutdown {
      var q := TxCloseReadies(p, s, p.sockets[s].op == OpTxShutdown, io);
      HandlerTxCloses(p, s, io);
      ReadiedIs(q, p.sockets[s].owner);
    } else {
      HandlerRxCloses(p, s, io);
      ReadiedIs(RxClosed(p, s, io).EnqueueRead(s).HandleBlock(s), p.sockets[s].owner);
    }
  }

  lemma {:induction false} TxCloseReadies(p: Local, s: nat, shutdown: bool, io: Io) returns (q: Local)
    requires s < |p.sockets|
    ensures HandleTxClose(p, s, shutdown, io) == q.Ready(p.sockets[s].owner)
  {
    var x := p.sockets[s];
    var a :=
      if x.txPipe.OsFd? then p.SetSocket(s, CloseTxSocket(x, io.closeFailed)).EnqueueWrite(s)
      else if shutdown then p.EnqueueWrite(s)
      else p.SetTx(s, x.tx.MarkEof()).EnqueueWrite(s).EnqueueWriteReader(s, x.txPipe.peer);
    q := a.HandleBlock(s);
  }

  // ---- retries ----

  /** What was reported clears the block of the direction that it concerns, and nothing else changes. */
  lemma {:induction false} UnblockIs(x: Socket)
    ensures var y := Unblock(x);
      && y == x.(rx := x.rx.(rxBlocked := y.rx.rxBlocked), tx := x.tx.(txBlocked := y.tx.txBlocked))
      && (y.rx.rxBlocked <==> x.rx.rxBlocked && x.rxRet.revents * {In, RdHup, Fault} == {})
      && (y.tx.txBlocked <==> x.tx.txBlocked && x.txRet.revents * {Out, Hup} == {})
  {
  }

  lemma {:induction false} DropSides(p: Local, s: nat, u: nat)
    requires s < |p.sockets| && u < |p.sockets|
    ensures SameSides(p.sockets[u], p.DropBlocked(s).sockets[u])
  {
  }

  /** The rest of a retry moves no byte. */
  lemma {:induction false} RetryTail(a: Local, s: nat, t: nat)
    requires s < |a.sockets|
    ensures SameRings(a, a.DropBlocked(s).EnqueueRun(t))
  {
    RunSockets(a.DropBlocked(s), t);
    forall u | 0 <= u < |a.sockets|
      ensures SameSides(a.sockets[u], a.DropBlocked(s).sockets[u])
    {
      DropSides(a, s, u);
    }
  }

  lemma {:induction false} RetryRings(p: Local, s: nat, io: Io)
    requires s < |p.sockets|
    ensures SameRings(Handler(p.SetSocket(s, Unblock(p.sockets[s])), s, io).p, Retry(p, s, io).p)
  {
    var a := Handler(p.SetSocket(s, Unblock(p.sockets[s])), s, io).p;
    SameAsItself(a, s);
    RetryTail(a, s, p.sockets[s].owner);
  }

  lemma {:induction false} RetryGives(p: Local, s: nat, io: Io)
    requires p.Inv() && s in p.blockedQ && p.sockets[s].txPipe.OsFd?
    requires p.sockets[s].op == OpWrite || p.sockets[s].op == OpFlush
    ensures Retry(p, s, io).ok && GivesOut(p.SetSocket(s, Unblock(p.sockets[s])), Retry(p, s, io).p, s, io)
  {
    var a := p.SetSocket(s, Unblock(p.sockets[s]));
    UnblockIs(p.sockets[s]);
    SetSocketKeeps(p, s, Unblock(p.sockets[s]));
    OpWriteGives(a, s, io);
    RetryRings(p, s, io);
    GivenFrom(a, Handler(a, s, io).p, Retry(p, s, io).p, s, io);
  }

  /** What was reported of the two directions. */
  predicate CanRead(x: Socket) {
    x.rxRet.revents * {In, RdHup, Fault} != {}
  }

  predicate CanWrite(x: Socket) {
    x.txRet.revents * {Out, Hup} != {}
  }

  /**
   A retried write on a descriptor that the poller has reported on is tried: the bytes that the system takes
   leave the ring, and the ring is blocked again exactly if some stay. The read side is no longer blocked if
   it was reported on, and keeps its bytes.
   */
  lemma {:induction false} RetryWrites(p: Local, s: nat, io: Io)
    requires p.Inv() && s in p.blockedQ && p.sockets[s].txPipe.OsFd?
    requires p.sockets[s].op == OpWrite || p.sockets[s].op == OpFlush
    ensures var x, y := p.sockets[s], Retry(p, s, io).p.sockets[s];
      && WritesFrom(x.tx.(txBlocked := x.tx.txBlocked && !CanWrite(x)), y.tx, io.write)
      && (y.rx.rxBlocked <==> x.rx.rxBlocked && !CanRead(x))
      && y.rx.contents == x.rx.contents && y.rx.eof == x.rx.eof
  {
    var x := p.sockets[s];
    var a := p.SetSocket(s, Unblock(x));
    UnblockIs(x);
    RetryGives(p, s, io);
    assert a.sockets[s] == Unblock(x);
  }

  /** In short: after POLLOUT or POLLHUP, what the system takes is gone. */
  lemma {:induction false} ReportedWrite(p: Local, s: nat, io: Io, n: nat)
    requires p.Inv() && s in p.blockedQ && p.sockets[s].txPipe.OsFd? && CanWrite(p.sockets[s])
    requires p.sockets[s].op == OpWrite || p.sockets[s].op == OpFlush
    requires io.write == Wrote(n) && n <= |p.sockets[s].tx.contents|
    ensures var x, y := p.sockets[s], Retry(p, s, io).p.sockets[s];
      y.tx.contents == x.tx.contents[n..] && (y.tx.txBlocked <==> n < |x.tx.contents|)
  {
    RetryWrites(p, s, io);
  }

  /** A retried read of a descriptor is tried, whatever was reported: the read itself never looks at the block. */
  lemma {:induction false} RetryReads(p: Local, s: nat, io: Io)
    requires p.Inv() && s in p.blockedQ && p.sockets[s].op == OpRead
    requires p.sockets[s].rxPipe.OsFd? && !p.sockets[s].rxPipe.listens && p.sockets[s].txPipe != VkRx(s)
    ensures ReadsInto(p.sockets[s].rx, Retry(p, s, io).p.sockets[s].rx, io.read)
  {
    var x := p.sockets[s];
    var a := p.SetSocket(s, Unblock(x));
    UnblockIs(x);
    SetSocketKeeps(p, s, Unblock(x));
    OpReadReads(a, s, io);
    RetryRings(p, s, io);
    assert SameSides(Handler(a, s, io).p.sockets[s], Retry(p, s, io).p.sockets[s]);
  }

  // ---- retries of other sockets ----

  /** Socket `u` takes no bytes out of the write ring of `s`. */
  predicate LeavesTx(x: Socket, s: nat) {
    x.rxPipe != VkTx(s)
  }

  predicate LeavesRx(x: Socket, s: nat) {
    x.txPipe != VkRx(s)
  }

  /** Rings and poll results of `s` are as they were, where its neighbour leaves them. */
  predicate LeftAlone(p: Local, q: Local, u: nat, s: nat)
    requires u < |p.sockets| && s < |p.sockets| && s < |q.sockets|
  {
    var x, y := p.sockets[s], q.sockets[s];
    && SamePolled(x, y)
    && (LeavesTx(p.sockets[u], s) ==> y.tx == x.tx.(effect := y.tx.effect))
    && (LeavesRx(p.sockets[u], s) ==> y.rx == x.rx.(effect := y.rx.effect))
  }

  lemma {:induction false} GivesAlone(p: Local, q: Local, u: nat, s: nat, io: Io)
    requires p.Linked() && u < |p.sockets| && s < |p.sockets| && s != u && GivesOut(p, q, u, io)
    ensures LeftAlone(p, q, u, s)
  {
    if p.sockets[u].txPipe.VkTx? {
      assert SameSides(p.sockets[s], q.sockets[s]);
    }
  }

  lemma {:induction false} TakesAlone(p: Local, q: Local, u: nat, s: nat, io: Io)
    requires p.Linked() && u < |p.sockets| && s < |p.sockets| && s != u && TakesIn(p, q, u, io)
    ensures LeftAlone(p, q, u, s)
  {
    if p.sockets[u].rxPipe.VkRx? {
      assert SameSides(p.sockets[s], q.sockets[s]);
    }
  }

  lemma {:induction false} AloneTwice(p: Local, a: Local, q: Local, u: nat, s: nat)
    requires u < |p.sockets| && s < |p.sockets| && p.SameShape(a) && p.SameShape(q)
    requires SamePlace(p.sockets[u], a.sockets[u]) && LeftAlone(p, a, u, s) && LeftAlone(a, q, u, s)
    ensures LeftAlone(p, q, u, s)
  {
  }

  lemma {:induction false} RingsAlone(p: Local, q: Local, u: nat, s: nat)
    requires u < |p.sockets| && s < |p.sockets| && SameRings(p, q)
    ensures LeftAlone(p, q, u, s)
  {
    assert SameSides(p.sockets[s], q.sockets[s]);
  }

  lemma {:induction false} ReadAlone(p: Local, u: nat, io: Io, s: nat)
    requires p.Inv() && u < |p.sockets| && s < |p.sockets| && s != u && p.Alive(p.sockets[u].owner)
    requires p.sockets[u].op == OpRead
    ensures LeftAlone(p, Handler(p, u, io).p, u, s)
  {
    var mid := OpReadTakes(p, u, io);
    TakesAlone(p, mid, u, s, io);
    assert SamePlace(p.sockets[u], mid.sockets[u]);
    if Handler(p, u, io).p != mid {
      GivesAlone(mid, Handler(p, u, io).p, u, s, io);
      AloneTwice(p, mid, Handler(p, u, io).p, u, s);
    }
  }

  lemma {:induction false} ForwardAlone(p: Local, u: nat, io: Io, s: nat)
    requires p.Inv() && u < |p.sockets| && s < |p.sockets| && s != u && p.Alive(p.sockets[u].owner)
    requires p.sockets[u].op == OpForward
    ensures LeftAlone(p, Handler(p, u, io).p, u, s)
  {
    var mid := ForwardIn(p, u, io).p;
    ForwardInIs(p, u, io);
    ForwardInKeeps(p, u, io);
    if !p.sockets[u].rxPipe.OsFd? {
      TakesAlone(p, mid, u, s, io);
    }
    assert SamePlace(p.sockets[u], mid.sockets[u]) && LeftAlone(p, mid, u, s);
    if ForwardIn(p, u, io).ok {
      ForwardOutAlone(mid, u, p.sockets[u].rxPipe.OsFd?, io, s);
      AloneTwice(p, mid, Handler(p, u, io).p, u, s);
    }
  }

  lemma {:induction false} ForwardOutAlone(p: Local, u: nat, fromFd: bool, io: Io, s: nat)
    requires p.Linked() && u < |p.sockets| && s < |p.sockets| && s != u
    ensures var b := ForwardOut(p, u, fromFd, io); LeftAlone(p, if b.ok then b.p.HandleBlock(u) else b.p, u, s)
  {
    ForwardOutBlocks(p, u, fromFd, io);
    ForwardOutIs(p, u, fromFd, io);
    GivesAlone(p, ForwardOut(p, u, fromFd, io).p.HandleBlock(u), u, s, io);
    GivesAlone(p, ForwardOut(p, u, fromFd, io).p, u, s, io);
  }

  /** A handler leaves the rings of all sockets that its own is not bound to, and what was polled of any. */
  lemma {:induction false} HandlerAlone(p: Local, u: nat, io: Io, s: nat)
    requires p.Inv() && u < |p.sockets| && s < |p.sockets| && s != u && p.Alive(p.sockets[u].owner)
    ensures LeftAlone(p, Handler(p, u, io).p, u, s)
  {
    match p.sockets[u].op
    case OpRead => ReadAlone(p, u, io, s);
    case OpForward => ForwardAlone(p, u, io, s);
    case OpWrite =>
      OpWriteGives(p, u, io);
      GivesAlone(p, Handler(p, u, io).p, u, s, io);
    case OpFlush =>
      OpWriteGives(p, u, io);
      GivesAlone(p, Handler(p, u, io).p, u, s, io);
    case OpHup =>
      OpHupMovesNothing(p, u, io);
      RingsAlone(p, Handler(p, u, io).p, u, s);
    case OpReadHup => ReadHupAlone(p, u, io, s);
    case OpTxClose => OpTxCloseEnds(p, u, io);
    case OpTxShutdown => OpTxCloseEnds(p, u, io);
    case OpRxClose => OpRxCloseEnds(p, u, io);
    case OpRxShutdown => OpRxCloseEnds(p, u, io);
    case OpNone =>
    case OpReadable => OpsThatWait(p, u, io);
    case OpWritable => OpsThatWait(p, u, io);
  }

  lemma {:induction false} ReadHupAlone(p: Local, u: nat, io: Io, s: nat)
    requires p.Inv() && u < |p.sockets| && s < |p.sockets| && s != u && p.sockets[u].op == OpReadHup
    ensures LeftAlone(p, Handler(p, u, io).p, u, s)
  {
    var x := p.sockets[u];
    OpReadHupTakes(p, u, io);
    if !(x.rxPipe.VkTx? && p.sockets[x.rxPipe.peer].tx.eof) {
      RingsAlone(p, Handler(p, u, io).p, u, s);
    }
  }

  lemma {:induction false} RetryAlone(p: Local, u: nat, io: Io, s: nat)
    requires p.Inv() && u in p.blockedQ && s < |p.sockets| && s != u
    ensures LeftAlone(p, Retry(p, u, io).p, u, s)
  {
    var a := p.SetSocket(u, Unblock(p.sockets[u]));
    SetSocketKeeps(p, u, Unblock(p.sockets[u]));
    HandlerAlone(a, u, io, s);
    RetryRings(p, u, io);
    var b := Handler(a, u, io).p;
    HandlerKeeps(a, u, io);
    RingsAlone(b, Retry(p, u, io).p, u, s);
    AloneTwice(a, b, Retry(p, u, io).p, u, s);
  }

  // ---- a walk over the blocked queue ----

  /** No socket but `s` itself takes from its write ring, or puts into its read ring. */
  predicate TxAlone(p: Local, s: nat) {
    forall u :: 0 <= u < |p.sockets| && u != s ==> LeavesTx(p.sockets[u], s)
  }

  predicate RxAlone(p: Local, s: nat) {
    forall u :: 0 <= u < |p.sockets| && u != s ==> LeavesRx(p.sockets[u], s)
  }

  lemma {:induction false} StaysAlone(p: Local, q: Local, s: nat)
    requires Keeps(p, q)
    ensures TxAlone(p, s) ==> TxAlone(q, s)
    ensures RxAlone(p, s) ==> RxAlone(q, s)
  {
    assert forall u :: 0 <= u < |p.sockets| ==> SamePlace(p.sockets[u], q.sockets[u]);
  }

  /** Where in the walk a socket is retried. */
  function Place(q: seq<nat>, s: nat): (k: nat)
    requires s in q
    ensures k < |q| && q[k] == s
  {
    if q[0] == s then 0 else 1 + Place(q[1..], s)
  }

  /** Once its own retry is over, the walk leaves a socket as it is. */
  lemma {:induction false} WalkLeaves(p: Local, q: seq<nat>, ios: seq<Io>, s: nat)
    requires p.Inv() && q == p.blockedQ && s < |p.sockets| && s !in q && RetryAll(p, q, ios).ok
    ensures var x, y := p.sockets[s], RetryAll(p, q, ios).p.sockets[s];
      && (TxAlone(p, s) ==> y.tx == x.tx.(effect := y.tx.effect))
      && (RxAlone(p, s) ==> y.rx == x.rx.(effect := y.rx.effect))
    decreases |q|
  {
    if q != [] {
      assert q[0] in q;
      var r := Retry(p, q[0], IoAt(ios, 0));
      RetryKeeps(p, q[0], IoAt(ios, 0));
      RetryAlone(p, q[0], IoAt(ios, 0), s);
      StaysAlone(p, r.p, s);
      assert Without(q, q[0]) == q[1..];
      WalkLeaves(r.p, q[1..], if ios == [] then [] else ios[1..], s);
    }
  }

  /** The write of a socket is tried in the walk, with the answer at its place, and nothing undoes it. */
  predicate WriteTried(x: Socket, y: Socket, io: Io) {
    x.txPipe.OsFd? && (x.op == OpWrite || x.op == OpFlush) && CanWrite(x) ==>
      WritesFrom(x.tx.(txBlocked := false), y.tx, io.write)
  }

  predicate ReadTried(x: Socket, y: Socket, s: nat, io: Io) {
    x.rxPipe.OsFd? && !x.rxPipe.listens && x.op == OpRead && x.txPipe != VkRx(s) ==> ReadsInto(x.rx, y.rx, io.read)
  }

  lemma {:induction false} RetryTries(p: Local, s: nat, io: Io)
    requires p.Inv() && s in p.blockedQ
    ensures WriteTried(p.sockets[s], Retry(p, s, io).p.sockets[s], io)
    ensures ReadTried(p.sockets[s], Retry(p, s, io).p.sockets[s], s, io)
  {
    var x := p.sockets[s];
    if x.txPipe.OsFd? && (x.op == OpWrite || x.op == OpFlush) {
      RetryWrites(p, s, io);
    }
    if x.rxPipe.OsFd? && !x.rxPipe.listens && x.op == OpRead && x.txPipe != VkRx(s) {
      RetryReads(p, s, io);
    }
  }

  /** What an effect that is acted on, before or after, leaves of that. */
  lemma {:induction false} TriedStill(x: Socket, y: Socket, z: Socket, s: nat, io: Io)
    ensures z.tx == y.tx.(effect := z.tx.effect) && WriteTried(x, y, io) ==> WriteTried(x, z, io)
    ensures z.rx == y.rx.(effect := z.rx.effect) && ReadTried(x, y, s, io) ==> ReadTried(x, z, s, io)
  {
  }

  lemma {:induction false} TriedSince(w: Socket, x: Socket, y: Socket, s: nat, io: Io)
    requires SamePlace(w, x) && SamePolled(w, x)
    ensures x.tx == w.tx.(effect := x.tx.effect) && WriteTried(x, y, io) ==> WriteTried(w, y, io)
    ensures x.rx == w.rx.(effect := x.rx.effect) && ReadTried(x, y, s, io) ==> ReadTried(w, y, s, io)
  {
  }

  /** What the walk has tried of a socket, if nobody else touches its rings. */
  predicate Tried(p: Local, y: Socket, s: nat, io: Io)
    requires s < |p.sockets|
  {
    && (TxAlone(p, s) ==> WriteTried(p.sockets[s], y, io))
    && (RxAlone(p, s) ==> ReadTried(p.sockets[s], y, s, io))
  }

  lemma {:induction false} FirstTries(p: Local, q: seq<nat>, ios: seq<Io>, s: nat)
    requires p.Inv() && q == p.blockedQ && q != [] && q[0] == s && RetryAll(p, q, ios).ok
    ensures s < |p.sockets| && Tried(p, RetryAll(p, q, ios).p.sockets[s], s, IoAt(ios, 0))
  {
    assert q[0] in q && s < |p.sockets|;
    var rest := if ios == [] then [] else ios[1..];
    var r := Retry(p, s, IoAt(ios, 0));
    RetryKeeps(p, s, IoAt(ios, 0));
    StaysAlone(p, r.p, s);
    assert Without(q, q[0]) == q[1..];
    RetryTries(p, s, IoAt(ios, 0));
    WalkLeaves(r.p, q[1..], rest, s);
    TriedStill(p.sockets[s], r.p.sockets[s], RetryAll(r.p, q[1..], rest).p.sockets[s], s, IoAt(ios, 0));
  }

  /** The retry of another socket changes nothing of what is tried later. */
  lemma {:induction false} OtherTries(p: Local, u: nat, s: nat, io: Io, y: Socket, later: Io)
    requires p.Inv() && u in p.blockedQ && s < |p.sockets| && s != u && Tried(Retry(p, u, io).p, y, s, later)
    ensures Tried(p, y, s, later)
  {
    var r := Retry(p, u, io).p;
    RetryKeeps(p, u, io);
    StaysAlone(p, r, s);
    RetryAlone(p, u, io, s);
    assert SamePlace(p.sockets[s], r.sockets[s]);
    TriedSince(p.sockets[s], r.sockets[s], y, s, later);
  }

  function Rest(ios: seq<Io>): seq<Io> {
    if ios == [] then [] else ios[1..]
  }

  /** The walk after its first retry. */
  lemma {:induction false} RetriedFirst(p: Local, q: seq<nat>, ios: seq<Io>) returns (r: Local)
    requires p.Inv() && q == p.blockedQ && q != [] && RetryAll(p, q, ios).ok
    ensures r == Retry(p, q[0], IoAt(ios, 0)).p && RetryAll(p, q, ios) == RetryAll(r, q[1..], Rest(ios))
    ensures r.Inv() && r.blockedQ == q[1..] && p.SameShape(r) && q[0] in p.blockedQ
  {
    assert q[0] in q;
    r := Retry(p, q[0], IoAt(ios, 0)).p;
    RetryKeeps(p, q[0], IoAt(ios, 0));
    assert Without(q, q[0]) == q[1..];
  }

  /** The walk of `vk_proc_postpoll` tries the blocked operation of every socket. */
  lemma {:induction false} WalkTries(p: Local, q: seq<nat>, ios: seq<Io>, s: nat)
    requires p.Inv() && q == p.blockedQ && s in q && RetryAll(p, q, ios).ok
    ensures s < |p.sockets| && Tried(p, RetryAll(p, q, ios).p.sockets[s], s, IoAt(ios, Place(q, s)))
    decreases |q|
  {
    assert q[0] in q;
    if q[0] == s {
      FirstTries(p, q, ios, s);
    } else {
      var rest := Rest(ios);
      var r := RetriedFirst(p, q, ios);
      WalkTries(r, q[1..], rest, s);
      assert IoAt(ios, Place(q, s)) == IoAt(rest, Place(q[1..], s));
      OtherTries(p, q[0], s, IoAt(ios, 0), RetryAll(r, q[1..], rest).p.sockets[s], IoAt(ios, Place(q, s)));
    }
  }
}
