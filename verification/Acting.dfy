/**
 Effects and errors: what a handler moves is acted on at once and only once, whom a forward, a hup and a close
 wake, when a handler fails, and what error a socket is left with.
 */
module Acting {
  import opened Machine
  import opened Fifo
  import opened SList
  import opened Process
  import opened Scheduler
  import opened Effects
  import opened Retries

  // ---- steps that wake and register ----

  /** Nothing has got an effect that it had not, and no error changes. */
  ghost predicate Quieter(p: Local, q: Local) {
    && p.SameShape(q)
    && forall u :: 0 <= u < |p.sockets| ==> QuieterSocket(p.sockets[u], q.sockets[u])
  }

  predicate QuieterSocket(x: Socket, y: Socket) {
    (y.rx.effect ==> x.rx.effect) && (y.tx.effect ==> x.tx.effect) && y.error == x.error
  }

  lemma {:induction false} ReadStep(p: Local, s: nat)
    requires s < |p.sockets|
    ensures Quieter(p, p.EnqueueRead(s)) && !p.EnqueueRead(s).sockets[s].rx.effect
  {
  }

  lemma {:induction false} WriteStep(p: Local, s: nat)
    requires s < |p.sockets|
    ensures Quieter(p, p.EnqueueWrite(s)) && !p.EnqueueWrite(s).sockets[s].tx.effect
  {
  }

  lemma {:induction false} ReadWriterStep(p: Local, s: nat, peer: nat)
    requires s < |p.sockets|
    ensures Quieter(p, p.EnqueueReadWriter(s, peer))
    ensures peer < |p.sockets| ==> !p.EnqueueReadWriter(s, peer).sockets[peer].tx.effect
  {
    if peer < |p.sockets| {
      WakePeerSockets(p.SetTx(peer, p.sockets[peer].tx.(effect := false)), s, peer);
    }
  }

  lemma {:induction false} WriteReaderStep(p: Local, s: nat, peer: nat)
    requires s < |p.sockets|
    ensures Quieter(p, p.EnqueueWriteReader(s, peer))
    ensures peer < |p.sockets| ==> !p.EnqueueWriteReader(s, peer).sockets[peer].rx.effect
  {
    if peer < |p.sockets| {
      WakePeerSockets(p.SetRx(peer, p.sockets[peer].rx.(effect := false)), s, peer);
    }
  }

  lemma {:induction false} BlockStep(p: Local, s: nat)
    requires s < |p.sockets|
    ensures Quieter(p, p.HandleBlock(s))
  {
  }

  lemma {:induction false} ReadyStep(p: Local, t: nat)
    ensures Quieter(p, p.Ready(t)) && Quieter(p, p.EnqueueRun(t))
  {
  }

  // ---- effects are acted on ----

  /** No effect is left that was not there. */
  ghost predicate Silent(p: Local, q: Local) {
    && p.SameShape(q)
    && forall u :: 0 <= u < |p.sockets| ==>
         && (q.sockets[u].rx.effect ==> p.sockets[u].rx.effect)
         && (q.sockets[u].tx.effect ==> p.sockets[u].tx.effect)
  }

  /** None is left of what socket `s` reads. */
  ghost predicate ReadActed(p: Local, q: Local, s: nat)
    requires s < |p.sockets| && p.SameShape(q)
  {
    match p.sockets[s].rxPipe
    case OsFd(_, _) => !q.sockets[s].rx.effect
    case VkTx(peer) => !q.sockets[s].rx.effect && (peer < |p.sockets| ==> !q.sockets[peer].tx.effect)
    case VkRx(_) => true
  }

  ghost predicate WriteActed(p: Local, q: Local, s: nat)
    requires s < |p.sockets| && p.SameShape(q)
  {
    match p.sockets[s].txPipe
    case OsFd(_, _) => !q.sockets[s].tx.effect
    case VkRx(peer) => !q.sockets[s].tx.effect && (peer < |p.sockets| ==> !q.sockets[peer].rx.effect)
    case VkTx(_) => true
  }

  /** The effects of a transfer are on the read ring of `s` and the write ring of `peer`, or the other way. */
  ghost predicate TouchesOnly(p: Local, a: Local, reader: int, writer: int) {
    && p.SameShape(a)
    && forall u :: 0 <= u < |p.sockets| ==>
         && (u != reader ==> (a.sockets[u].rx.effect ==> p.sockets[u].rx.effect))
         && (u != writer ==> (a.sockets[u].tx.effect ==> p.sockets[u].tx.effect))
  }

  lemma {:induction false} SpliceTouches(p: Local, reader: nat, writer: nat)
    ensures TouchesOnly(p, p.Spliced(reader, writer), reader, writer)
  {
  }

  lemma {:induction false} FdReadActs(p: Local, a: Local, s: nat)
    requires s < |p.sockets| && TouchesOnly(p, a, s, -1)
    ensures Silent(p, a.EnqueueRead(s)) && !a.EnqueueRead(s).sockets[s].rx.effect
  {
    ReadStep(a, s);
  }

  lemma {:induction false} FdWriteActs(p: Local, a: Local, s: nat)
    requires s < |p.sockets| && TouchesOnly(p, a, -1, s)
    ensures Silent(p, a.EnqueueWrite(s)) && !a.EnqueueWrite(s).sockets[s].tx.effect
  {
    WriteStep(a, s);
  }

  lemma {:induction false} PipeReadActs(p: Local, a: Local, s: nat, peer: nat)
    requires s < |p.sockets| && TouchesOnly(p, a, s, peer) && p.sockets[s].rxPipe == VkTx(peer)
    ensures var q := a.EnqueueRead(s).EnqueueReadWriter(s, peer); Silent(p, q) && ReadActed(p, q, s)
  {
    var b := a.EnqueueRead(s);
    ReadStep(a, s);
    ReadWriterStep(b, s, peer);
    SilentBut(p, b, b.EnqueueReadWriter(s, peer), -1, peer);
  }

  lemma {:induction false} PipeWriteActs(p: Local, a: Local, s: nat, peer: nat)
    requires s < |p.sockets| && TouchesOnly(p, a, peer, s)
    requires p.sockets[s].txPipe.VkRx? && p.sockets[s].txPipe.peer == peer
    ensures var q := a.EnqueueWrite(s).EnqueueWriteReader(s, peer); Silent(p, q) && WriteActed(p, q, s)
  {
    var b := a.EnqueueWrite(s);
    WriteStep(a, s);
    WriteReaderStep(b, s, peer);
    SilentBut(p, b, b.EnqueueWriteReader(s, peer), peer, -1);
  }

  lemma {:induction false} SilentBut(p: Local, b: Local, q: Local, reader: int, writer: int)
    requires TouchesOnly(p, b, reader, writer) && Quieter(b, q)
    requires 0 <= reader < |p.sockets| ==> !q.sockets[reader].rx.effect
    requires 0 <= writer < |p.sockets| ==> !q.sockets[writer].tx.effect
    ensures Silent(p, q)
  {
    forall u | 0 <= u < |p.sockets|
      ensures q.sockets[u].rx.effect ==> p.sockets[u].rx.effect
      ensures q.sockets[u].tx.effect ==> p.sockets[u].tx.effect
    {
      assert QuieterSocket(b.sockets[u], q.sockets[u]);
    }
  }

  lemma {:induction false} SilentOn(p: Local, a: Local, q: Local)
    requires Silent(p, a) && Quieter(a, q)
    ensures Silent(p, q)
  {
    SilentBut(p, a, q, -1, -1);
  }

  lemma {:induction false} SilentTwice(p: Local, a: Local, q: Local)
    requires Silent(p, a) && Silent(a, q)
    ensures Silent(p, q)
  {
  }

  /** What is acted on stays so. */
  lemma {:induction false} ActedOn(p: Local, a: Local, q: Local, s: nat)
    requires s < |p.sockets| && p.SameShape(a) && Silent(a, q)
    ensures ReadActed(p, a, s) ==> ReadActed(p, q, s)
    ensures WriteActed(p, a, s) ==> WriteActed(p, q, s)
  {
  }

  lemma {:induction false} BlockActs(p: Local, a: Local, s: nat)
    requires s < |p.sockets| && Silent(p, a)
    ensures Silent(p, a.HandleBlock(s)) && Silent(a, a.HandleBlock(s))
    ensures ReadActed(p, a, s) ==> ReadActed(p, a.HandleBlock(s), s)
    ensures WriteActed(p, a, s) ==> WriteActed(p, a.HandleBlock(s), s)
  {
    BlockStep(a, s);
    SilentOn(p, a, a.HandleBlock(s));
    SilentOn(a, a, a.HandleBlock(s));
    ActedOn(p, a, a.HandleBlock(s), s);
  }

  lemma {:induction false} ReadActs(p: Local, s: nat, io: Io)
    requires s < |p.sockets|
    ensures Silent(p, HandleRead(p, s, io).p) && ReadActed(p, HandleRead(p, s, io).p, s)
  {
    var x := p.sockets[s];
    match x.rxPipe
    case OsFd(_, listens) =>
      var a := p.SetSocket(s, Incoming(x, listens, io.read));
      FdReadActs(p, a, s);
      BlockActs(p, a.EnqueueRead(s), s);
    case VkTx(peer) =>
      var a := p.Spliced(s, peer);
      SpliceTouches(p, s, peer);
      PipeReadActs(p, a, s, peer);
      BlockActs(p, a.EnqueueRead(s).EnqueueReadWriter(s, peer), s);
    case VkRx(_) => BlockActs(p, p, s);
  }

  lemma {:induction false} WriteActs(p: Local, s: nat, io: Io)
    requires s < |p.sockets|
    ensures Silent(p, HandleWrite(p, s, io).p) && WriteActed(p, HandleWrite(p, s, io).p, s)
  {
    var x := p.sockets[s];
    match x.txPipe
    case OsFd(_, _) =>
      var a := p.SetSocket(s, WriteSocket(x, Taken(io.write, x.tx)));
      FdWriteActs(p, a, s);
      BlockActs(p, a.EnqueueWrite(s), s);
    case VkRx(peer) =>
      var a := p.Spliced(peer, s);
      SpliceTouches(p, peer, s);
      PipeWriteActs(p, a, s, peer);
      BlockActs(p, a.EnqueueWrite(s).EnqueueWriteReader(s, peer), s);
    case VkTx(_) => BlockActs(p, p, s);
  }

  /** A read leaves no effect of what it and its flush moved. */
  lemma {:induction false} OpReadActs(p: Local, s: nat, io: Io)
    requires s < |p.sockets| && p.sockets[s].op == OpRead
    ensures Silent(p, Handler(p, s, io).p) && ReadActed(p, Handler(p, s, io).p, s)
  {
    var mid := HandleRead(p, s, io).p;
    ReadActs(p, s, io);
    WriteActs(mid, s, io);
    SilentTwice(p, mid, HandleWrite(mid, s, io).p);
    ActedOn(p, mid, HandleWrite(mid, s, io).p, s);
  }

  lemma {:induction false} OpWriteActs(p: Local, s: nat, io: Io)
    requires s < |p.sockets| && (p.sockets[s].op == OpWrite || p.sockets[s].op == OpFlush)
    ensures Silent(p, Handler(p, s, io).p) && WriteActed(p, Handler(p, s, io).p, s)
  {
    WriteActs(p, s, io);
  }

  lemma {:induction false} ForwardInActs(p: Local, s: nat, io: Io)
    requires s < |p.sockets|
    ensures Silent(p, ForwardIn(p, s, io).p) && ReadActed(p, ForwardIn(p, s, io).p, s)
  {
    var x := p.sockets[s];
    match x.rxPipe
    case OsFd(_, _) => FdReadActs(p, p.SetSocket(s, Incoming(x, false, io.read)), s);
    case VkTx(peer) =>
      SpliceTouches(p, s, peer);
      PipeReadActs(p, p.Spliced(s, peer), s, peer);
    case VkRx(_) =>
  }

  /** The reader behind a forward from a descriptor is told only while it is blocked. */
  predicate Untold(p: Local, s: nat, fromFd: bool, u: nat) {
    s < |p.sockets| && fromFd && p.sockets[s].txPipe.VkRx? && p.sockets[s].txPipe.peer == u
  }

  ghost predicate SilentButUntold(p: Local, q: Local, s: nat, fromFd: bool) {
    && p.SameShape(q)
    && forall u :: 0 <= u < |p.sockets| ==>
         && (q.sockets[u].rx.effect ==> p.sockets[u].rx.effect || Untold(p, s, fromFd, u))
         && (q.sockets[u].tx.effect ==> p.sockets[u].tx.effect)
  }

  lemma {:induction false} ForwardOutActs(p: Local, s: nat, fromFd: bool, io: Io)
    requires s < |p.sockets|
    ensures var q := ForwardOut(p, s, fromFd, io).p;
      && SilentButUntold(p, q, s, fromFd)
      && (!p.sockets[s].txPipe.VkTx? ==> !q.sockets[s].tx.effect)
      && (p.sockets[s].txPipe.VkRx? ==>
            var peer := p.sockets[s].txPipe.peer;
            peer < |p.sockets| && (!fromFd || q.sockets[peer].rx.rxBlocked) ==> !q.sockets[peer].rx.effect)
  {
    var x := p.sockets[s];
    match x.txPipe
    case OsFd(_, _) => FdWriteActs(p, p.SetSocket(s, WriteSocket(x, Taken(io.write, x.tx))), s);
    case VkRx(peer) =>
      var a := p.Spliced(peer, s);
      var b := a.EnqueueWrite(s);
      SpliceTouches(p, peer, s);
      PipeWriteActs(p, a, s, peer);
      WriteStep(a, s);
      if peer < |b.sockets| {
        RunSockets(b.EnqueueWriteReader(s, peer), b.sockets[peer].owner);
      }
    case VkTx(_) =>
  }

  /** A forward leaves none, but for what a reader that is not blocked has got from a descriptor. */
  lemma {:induction false} OpForwardActs(p: Local, s: nat, io: Io)
    requires p.Inv() && s < |p.sockets| && p.Alive(p.sockets[s].owner) && p.sockets[s].op == OpForward
    ensures SilentButUntold(p, Handler(p, s, io).p, s, p.sockets[s].rxPipe.OsFd?)
    ensures Handler(p, s, io).ok && p.sockets[s].rxPipe.OsFd? ==> !Handler(p, s, io).p.sockets[s].tx.effect
  {
    var a, fromFd := ForwardIn(p, s, io), p.sockets[s].rxPipe.OsFd?;
    ForwardInActs(p, s, io);
    ForwardInKeeps(p, s, io);
    assert SamePlace(p.sockets[s], a.p.sockets[s]);
    if a.ok {
      var b := ForwardOut(a.p, s, fromFd, io);
      ForwardOutActs(a.p, s, fromFd, io);
      BlockStep(b.p, s);
      UntoldOn(p, a.p, b.p, b.p.HandleBlock(s), s, fromFd);
    }
  }

  lemma {:induction false} UntoldOn(p: Local, a: Local, b: Local, q: Local, s: nat, fromFd: bool)
    requires s < |p.sockets| && Silent(p, a) && SilentButUntold(a, b, s, fromFd) && Quieter(b, q)
    requires a.sockets[s].txPipe == p.sockets[s].txPipe
    ensures SilentButUntold(p, q, s, fromFd) && SilentButUntold(p, b, s, fromFd)
  {
    forall u | 0 <= u < |p.sockets|
      ensures q.sockets[u].rx.effect ==> p.sockets[u].rx.effect || Untold(p, s, fromFd, u)
      ensures q.sockets[u].tx.effect ==> p.sockets[u].tx.effect
    {
      assert QuieterSocket(b.sockets[u], q.sockets[u]);
    }
  }

  /** A readhup that takes an EOF acts on both ends of it. */
  lemma {:induction false} OpReadHupActs(p: Local, s: nat, io: Io)
    requires s < |p.sockets| && p.sockets[s].op == OpReadHup
    ensures Silent(p, Handler(p, s, io).p)
    ensures var x := p.sockets[s];
      x.rxPipe.VkTx? && x.rxPipe.peer < |p.sockets| && p.sockets[x.rxPipe.peer].tx.eof ==>
        ReadActed(p, Handler(p, s, io).p, s)
  {
    match p.sockets[s].rxPipe
    case OsFd(_, _) =>
      FdReadActs(p, p, s);
      BlockActs(p, p.EnqueueRead(s), s);
    case VkTx(peer) =>
      if peer < |p.sockets| && p.sockets[peer].tx.eof {
        var a := ForwardedHup(p, s, peer);
        PipeReadActs(p, a, s, peer);
        BlockActs(p, a.EnqueueRead(s).EnqueueReadWriter(s, peer), s);
      } else {
        BlockActs(p, p, s);
      }
    case VkRx(_) =>
  }

  lemma {:induction false} OpHupActs(p: Local, s: nat, io: Io)
    requires s < |p.sockets| && p.sockets[s].op == OpHup
    ensures Silent(p, Handler(p, s, io).p)
    ensures p.sockets[s].txPipe.OsFd? || !p.sockets[s].tx.eof ==> WriteActed(p, Handler(p, s, io).p, s)
  {
    match p.sockets[s].txPipe
    case OsFd(_, _) =>
      FdWriteActs(p, p, s);
      BlockActs(p, p.EnqueueWrite(s), s);
    case VkRx(peer) =>
      if !p.sockets[s].tx.eof {
        PipeWriteActs(p, p, s, peer);
        BlockActs(p, p.EnqueueWrite(s).EnqueueWriteReader(s, peer), s);
      } else {
        BlockActs(p, p, s);
      }
    case VkTx(_) =>
  }

  /** A close or a shutdown acts on its own side, and a close over a virtual pipe on its reader's. */
  lemma {:induction false} OpTxCloseActs(p: Local, s: nat, io: Io)
    requires s < |p.sockets| && (p.sockets[s].op == OpTxClose || p.sockets[s].op == OpTxShutdown)
    ensures Silent(p, Handler(p, s, io).p) && !Handler(p, s, io).p.sockets[s].tx.effect
    ensures p.sockets[s].op == OpTxClose ==> WriteActed(p, Handler(p, s, io).p, s)
  {
    var x, shutdown := p.sockets[s], p.sockets[s].op == OpTxShutdown;
    var a := TxClosed(p, s, shutdown, io);
    HandlerTxCloses(p, s, io);
    if x.txPipe.OsFd? || shutdown {
      FdWriteActs(p, a, s);
      CloseTail(p, a.EnqueueWrite(s), s, x.owner);
    } else {
      var b := a.EnqueueWrite(s);
      WriteStep(a, s);
      WriteReaderStep(b, s, x.txPipe.peer);
      SilentBut(p, b, b.EnqueueWriteReader(s, x.txPipe.peer), -1, -1);
      CloseTail(p, b.EnqueueWriteReader(s, x.txPipe.peer), s, x.owner);
    }
  }

  lemma {:induction false} CloseTail(p: Local, a: Local, s: nat, t: nat)
    requires s < |p.sockets| && Silent(p, a)
    ensures var q := a.HandleBlock(s).Ready(t);
      && Silent(p, q) && Silent(a, q)
      && (ReadActed(p, a, s) ==> ReadActed(p, q, s)) && (WriteActed(p, a, s) ==> WriteActed(p, q, s))
  {
    BlockActs(p, a, s);
    ReadyStep(a.HandleBlock(s), t);
    SilentOn(p, a.HandleBlock(s), a.HandleBlock(s).Ready(t));
    SilentOn(a, a.HandleBlock(s), a.HandleBlock(s).Ready(t));
    ActedOn(p, a, a.HandleBlock(s).Ready(t), s);
  }

  lemma {:induction false} OpRxCloseActs(p: Local, s: nat, io: Io)
    requires s < |p.sockets| && (p.sockets[s].op == OpRxClose || p.sockets[s].op == OpRxShutdown)
    ensures Silent(p, Handler(p, s, io).p) && !Handler(p, s, io).p.sockets[s].rx.effect
  {
    var a := RxClosed(p, s, io);
    HandlerRxCloses(p, s, io);
    FdReadActs(p, a, s);
    CloseTail(p, a.EnqueueRead(s), s, p.sockets[s].owner);
  }

  // ---- who is woken ----

  /** A forward that takes bytes from a descriptor makes its coroutine ready. */
  lemma {:induction false} ForwardInReadies(p: Local, s: nat, io: Io)
    requires p.Inv() && s < |p.sockets| && p.Alive(p.sockets[s].owner) && p.sockets[s].rxPipe.OsFd?
    requires io.read.ReadBytes? && io.read.data != [] && p.sockets[s].rx.Free() > 0
    ensures IsReady(ForwardIn(p, s, io).p, p.sockets[s].owner)
  {
    var x := p.sockets[s];
    ReadFdLeaves(x.rx, Given(io.read, x.rx));
    EnqueueReadReadies(p.SetSocket(s, Incoming(x, false, io.read)), s);
  }

  /** One into a virtual pipe queues the reader's coroutine; behind a descriptor, if the reader is blocked. */
  lemma {:induction false} ForwardOutWakes(p: Local, s: nat, fromFd: bool, io: Io, peer: nat)
    requires p.Inv() && s < |p.sockets| && p.Alive(p.sockets[s].owner)
    requires p.sockets[s].txPipe.VkRx? && p.sockets[s].txPipe.peer == peer
    ensures var q := ForwardOut(p, s, fromFd, io).p.HandleBlock(s);
      && (!fromFd && SpliceCount(p.sockets[peer].rx, p.sockets[s].tx, -1) > 0 ==> Woken(p, q, s, peer))
      && (fromFd && q.sockets[peer].rx.rxBlocked && p.Alive(p.sockets[peer].owner) ==>
            p.sockets[peer].owner in q.runQ)
  {
    if !fromFd {
      if SpliceCount(p.sockets[peer].rx, p.sockets[s].tx, -1) > 0 {
        WriteWakesReader(p, s, peer, io);
      }
    } else {
      BlockedReaderRuns(p, s, io, peer);
    }
  }

  lemma {:induction false} SplicedOut(p: Local, s: nat, peer: nat) returns (b: Local)
    requires p.Inv() && s < |p.sockets| && peer < |p.sockets|
    ensures b == p.Spliced(peer, s).EnqueueWrite(s) && Keeps(p, b)
    ensures SamePlace(p.sockets[peer], b.sockets[peer]) && SamePlace(p.sockets[s], b.sockets[s])
  {
    var a := p.Spliced(peer, s);
    b := a.EnqueueWrite(s);
    SplicedKeeps(p, peer, s);
    EnqueueWriteKeeps(a, s);
    KeepsTrans(p, a, b);
  }

  lemma {:induction false} BlockedReaderRuns(p: Local, s: nat, io: Io, peer: nat)
    requires p.Inv() && s < |p.sockets| && p.Alive(p.sockets[s].owner)
    requires p.sockets[s].txPipe.VkRx? && p.sockets[s].txPipe.peer == peer
    ensures var q := ForwardOut(p, s, true, io).p.HandleBlock(s);
      q.sockets[peer].rx.rxBlocked && p.Alive(p.sockets[peer].owner) ==> p.sockets[peer].owner in q.runQ
  {
    var b := SplicedOut(p, s, peer);
    var t := p.sockets[peer].owner;
    if b.sockets[peer].rx.rxBlocked {
      ReaderRuns(b, s, peer, t);
    } else {
      HandleBlockSides(b, s, peer);
    }
  }

  lemma {:induction false} ReaderRuns(b: Local, s: nat, peer: nat, t: nat)
    requires b.Inv() && s < |b.sockets| && peer < |b.sockets|
    ensures b.Alive(t) ==> t in b.EnqueueWriteReader(s, peer).EnqueueRun(t).HandleBlock(s).runQ
  {
    var c := b.EnqueueWriteReader(s, peer);
    EnqueueWriteReaderKeeps(b, s, peer);
    EnqueueRunKeeps(c, t);
    BlockQueues(c.EnqueueRun(t), s);
  }

  lemma {:induction false} OpForwardWakes(p: Local, s: nat, io: Io)
    requires p.Inv() && s < |p.sockets| && p.Alive(p.sockets[s].owner) && p.sockets[s].op == OpForward
    requires !p.sockets[s].rxPipe.VkRx? && !p.sockets[s].txPipe.VkTx?
    ensures var x, mid, q := p.sockets[s], ForwardIn(p, s, io).p, Handler(p, s, io).p;
      && (match x.rxPipe
          case OsFd(_, _) =>
            io.read.ReadBytes? && io.read.data != [] && x.rx.Free() > 0 ==> IsReady(q, x.owner)
          case VkTx(peer) => SpliceCount(x.rx, p.sockets[peer].tx, -1) > 0 ==> Woken(p, q, s, peer)
          case VkRx(_) => true)
      && (x.txPipe.VkRx? ==>
            var peer := x.txPipe.peer;
            if x.rxPipe.OsFd?
            then q.sockets[peer].rx.rxBlocked && p.Alive(p.sockets[peer].owner) ==> p.sockets[peer].owner in q.runQ
            else SpliceCount(mid.sockets[peer].rx, mid.sockets[s].tx, -1) > 0 ==> Woken(p, q, s, peer))
  {
    var x, mid, q := p.sockets[s], ForwardIn(p, s, io).p, Handler(p, s, io).p;
    ForwardInKeeps(p, s, io);
    assert SamePlace(x, mid.sockets[s]);
    HandlerForwards(p, s, io);
    ForwardTailKeeps(mid, s, x.rxPipe.OsFd?, io);
    ForwardInWakes(p, s, io, q);
    if x.txPipe.VkRx? {
      assert SamePlace(p.sockets[x.txPipe.peer], mid.sockets[x.txPipe.peer]);
      ForwardOutWakes(mid, s, x.rxPipe.OsFd?, io, x.txPipe.peer);
    }
  }

  lemma {:induction false} ForwardTailKeeps(p: Local, s: nat, fromFd: bool, io: Io)
    requires p.Inv() && s < |p.sockets| && p.Alive(p.sockets[s].owner)
    ensures Keeps(p, ForwardOut(p, s, fromFd, io).p.HandleBlock(s))
  {
    var b := ForwardOut(p, s, fromFd, io).p;
    ForwardOutKeeps(p, s, fromFd, io);
    assert SamePlace(p.sockets[s], b.sockets[s]);
    HandleBlockKeeps(b, s);
    KeepsTrans(p, b, b.HandleBlock(s));
  }

  lemma {:induction false} ForwardInWakes(p: Local, s: nat, io: Io, q: Local)
    requires p.Inv() && s < |p.sockets| && p.Alive(p.sockets[s].owner) && Keeps(ForwardIn(p, s, io).p, q)
    ensures var x := p.sockets[s];
      match x.rxPipe
      case OsFd(_, _) => io.read.ReadBytes? && io.read.data != [] && x.rx.Free() > 0 ==> IsReady(q, x.owner)
      case VkTx(peer) => SpliceCount(x.rx, p.sockets[peer].tx, -1) > 0 ==> Woken(p, q, s, peer)
      case VkRx(_) => true
  {
    var x := p.sockets[s];
    match x.rxPipe
    case OsFd(_, _) =>
      if io.read.ReadBytes? && io.read.data != [] && x.rx.Free() > 0 {
        ForwardInReadies(p, s, io);
      }
    case VkTx(peer) =>
      if SpliceCount(x.rx, p.sockets[peer].tx, -1) > 0 {
        PipeInWakes(p, s, peer, io);
        WokenStays(p, ForwardIn(p, s, io).p, q, s, peer);
      }
    case VkRx(_) =>
  }

  lemma {:induction false} PipeInWakes(p: Local, s: nat, peer: nat, io: Io)
    requires p.Inv() && s < |p.sockets| && p.Alive(p.sockets[s].owner)
    requires p.sockets[s].rxPipe == VkTx(peer) && SpliceCount(p.sockets[s].rx, p.sockets[peer].tx, -1) > 0
    ensures Woken(p, ForwardIn(p, s, io).p, s, peer)
  {
    ReadWakesWriter(p, s, peer, io);
    var mid := ForwardIn(p, s, io).p;
    assert HandleRead(p, s, io).p == mid.HandleBlock(s);
    BlockQueues(mid, s);
  }

  lemma {:induction false} BlockQueues(p: Local, s: nat)
    requires s < |p.sockets|
    ensures p.HandleBlock(s).runQ == p.runQ && p.HandleBlock(s).threads == p.threads
  {
  }

  /** A hup that finds its EOF taken makes its coroutine ready, and wakes a reader that has got something. */
  lemma {:induction false} OpHupWakes(p: Local, s: nat, io: Io)
    requires p.Inv() && s < |p.sockets| && p.Alive(p.sockets[s].owner) && p.sockets[s].op == OpHup
    ensures var x, q := p.sockets[s], Handler(p, s, io).p;
      && (x.tx.effect && (x.txPipe.OsFd? || (x.txPipe.VkRx? && !x.tx.eof)) ==> IsReady(q, x.owner))
      && (x.txPipe.VkRx? && !x.tx.eof && p.sockets[x.txPipe.peer].rx.effect ==> Woken(p, q, s, x.txPipe.peer))
  {
    var x := p.sockets[s];
    match x.txPipe
    case OsFd(_, _) =>
      if x.tx.effect {
        EnqueueWriteReadies(p, s);
      }
    case VkRx(peer) =>
      if !x.tx.eof {
        WriteTailWakes(p, p, s, peer);
      }
    case VkTx(_) =>
  }

  /** What waking both ends of a write does. */
  lemma {:induction false} WriteTailWakes(p: Local, a: Local, s: nat, peer: nat)
    requires p.Inv() && a.Inv() && Keeps(p, a) && s < |p.sockets| && p.Alive(p.sockets[s].owner) && peer < |p.sockets|
    ensures var q := a.EnqueueWrite(s).EnqueueWriteReader(s, peer).HandleBlock(s);
      && (a.sockets[s].tx.effect ==> IsReady(q, p.sockets[s].owner))
      && (a.sockets[peer].rx.effect ==> Woken(p, q, s, peer))
  {
    var b := a.EnqueueWrite(s);
    assert SamePlace(p.sockets[s], a.sockets[s]) && SamePlace(p.sockets[peer], a.sockets[peer]);
    EnqueueWriteKeeps(a, s);
    assert SamePlace(a.sockets[s], b.sockets[s]) && SamePlace(a.sockets[peer], b.sockets[peer]);
    KeepsTrans(p, a, b);
    if a.sockets[s].tx.effect {
      EnqueueWriteReadies(a, s);
      WriteTailStays(b, s, peer);
    }
    if a.sockets[peer].rx.effect {
      WriteKeepsRx(a, s, peer);
      WriteReaderWakes(b, s, peer);
      WokenFrom(p, b, b.EnqueueWriteReader(s, peer).HandleBlock(s), s, peer);
    }
  }

  lemma {:induction false} WriteKeepsRx(a: Local, s: nat, u: nat)
    requires s < |a.sockets| && u < |a.sockets|
    ensures a.EnqueueWrite(s).sockets[u].rx == a.sockets[u].rx
  {
    ReadySockets(a.SetTx(s, a.sockets[s].tx.(effect := false)), a.sockets[s].owner);
  }

  lemma {:induction false} WriteTailStays(b: Local, s: nat, peer: nat)
    requires b.Inv() && s < |b.sockets| && b.Alive(b.sockets[s].owner) && peer < |b.sockets|
    ensures IsReady(b, b.sockets[s].owner) ==>
              IsReady(b.EnqueueWriteReader(s, peer).HandleBlock(s), b.sockets[s].owner)
  {
    EnqueueWriteReaderKeeps(b, s, peer);
    BlockQueues(b.EnqueueWriteReader(s, peer), s);
  }

  /** Closing over a virtual pipe wakes a reader that has got something. */
  lemma {:induction false} OpTxCloseWakes(p: Local, s: nat, io: Io)
    requires p.Inv() && s < |p.sockets| && p.Alive(p.sockets[s].owner) && p.sockets[s].op == OpTxClose
    requires !p.sockets[s].txPipe.OsFd? && p.sockets[p.sockets[s].txPipe.peer].rx.effect
    ensures Woken(p, Handler(p, s, io).p, s, p.sockets[s].txPipe.peer)
  {
    var x, peer := p.sockets[s], p.sockets[s].txPipe.peer;
    var a := p.SetTx(s, x.tx.MarkEof());
    SetSocketKeeps(p, s, x.(tx := x.tx.MarkEof()));
    WriteTailWakes(p, a, s, peer);
    HandlerTxCloses(p, s, io);
    ReadyWoken(p, a.EnqueueWrite(s).EnqueueWriteReader(s, peer).HandleBlock(s), s, peer);
  }

  lemma {:induction false} ReadyWoken(p: Local, q: Local, s: nat, peer: nat)
    requires s < |p.sockets| && peer < |p.sockets| && Woken(p, q, s, peer)
    ensures Woken(p, q.Ready(p.sockets[s].owner), s, peer)
  {
  }

  // ---- failures and errors ----

  /** A handler fails exactly on a pipe that it needs and that is bound the wrong way. */
  lemma {:induction false} HandlerSucceedsIff(p: Local, s: nat, io: Io)
    requires s < |p.sockets|
    ensures var x := p.sockets[s];
      var flushes := x.op == OpRead && LazyFlush(HandleRead(p, s, io).p.sockets[s]);
      Handler(p, s, io).ok <==>
        && (x.op in {OpRead, OpForward, OpReadHup} ==> !x.rxPipe.VkRx?)
        && (x.op in {OpWrite, OpFlush, OpForward, OpHup} || flushes ==> !x.txPipe.VkTx?)
  {
    var x := p.sockets[s];
    if x.op == OpRead {
      ReadPipes(p, s, io);
    } else if x.op == OpForward {
      ForwardPipes(p, s, io);
    }
  }

  lemma {:induction false} ReadPipes(p: Local, s: nat, io: Io)
    requires s < |p.sockets|
    ensures HandleRead(p, s, io).p.sockets[s].txPipe == p.sockets[s].txPipe
  {
    match p.sockets[s].rxPipe
    case OsFd(_, listens) => FdTailPipes(p.SetSocket(s, Incoming(p.sockets[s], listens, io.read)), s);
    case VkTx(peer) => TailPipes(p.Spliced(s, peer), s, peer);
    case VkRx(_) =>
  }

  lemma {:induction false} FdTailPipes(a: Local, s: nat)
    requires s < |a.sockets|
    ensures a.EnqueueRead(s).HandleBlock(s).sockets[s].txPipe == a.sockets[s].txPipe
  {
    ReadySockets(a.SetRx(s, a.sockets[s].rx.(effect := false)), a.sockets[s].owner);
  }

  lemma {:induction false} ForwardPipes(p: Local, s: nat, io: Io)
    requires s < |p.sockets|
    ensures ForwardIn(p, s, io).p.sockets[s].txPipe == p.sockets[s].txPipe
  {
    match p.sockets[s].rxPipe
    case OsFd(_, _) =>
    case VkTx(peer) => TailPipes(p.Spliced(s, peer), s, peer);
    case VkRx(_) =>
  }

  lemma {:induction false} TailPipes(a: Local, s: nat, peer: nat)
    requires s < |a.sockets|
    ensures a.EnqueueRead(s).EnqueueReadWriter(s, peer).sockets[s].txPipe == a.sockets[s].txPipe
    ensures a.EnqueueRead(s).EnqueueReadWriter(s, peer).HandleBlock(s).sockets[s].txPipe == a.sockets[s].txPipe
  {
    var b := a.EnqueueRead(s);
    if peer < |b.sockets| {
      WakePeerSockets(b.SetTx(peer, b.sockets[peer].tx.(effect := false)), s, peer);
    }
  }

  /** A write that the system refuses clears the socket's error; no other changes it. */
  lemma {:induction false} OpWriteErrors(p: Local, s: nat, io: Io)
    requires s < |p.sockets| && (p.sockets[s].op == OpWrite || p.sockets[s].op == OpFlush)
    ensures var x, q := p.sockets[s], Handler(p, s, io).p;
      q.sockets[s].error == if x.txPipe.OsFd? && !x.tx.txBlocked && io.write.WriteFailed? then 0 else x.error
  {
    WriteErrors(p, s, io);
  }

  lemma {:induction false} WriteErrors(p: Local, s: nat, io: Io)
    requires s < |p.sockets|
    ensures var x, q := p.sockets[s], HandleWrite(p, s, io).p;
      q.sockets[s].error == if x.txPipe.OsFd? && !x.tx.txBlocked && io.write.WriteFailed? then 0 else x.error
  {
    var x := p.sockets[s];
    match x.txPipe
    case OsFd(_, _) =>
      var a := p.SetSocket(s, WriteSocket(x, Taken(io.write, x.tx)));
      WriteStep(a, s);
      ErrorStays(a, a.EnqueueWrite(s), s);
    case VkRx(peer) =>
      var a := p.Spliced(peer, s);
      WriteStep(a, s);
      WriteReaderStep(a.EnqueueWrite(s), s, peer);
      ErrorStays(a.EnqueueWrite(s), a.EnqueueWrite(s).EnqueueWriteReader(s, peer), s);
    case VkTx(_) =>
  }

  lemma {:induction false} ErrorStays(a: Local, b: Local, s: nat)
    requires s < |a.sockets| && Quieter(a, b)
    ensures b.HandleBlock(s).sockets[s].error == a.sockets[s].error
  {
    BlockStep(b, s);
    assert QuieterSocket(a.sockets[s], b.sockets[s]) && QuieterSocket(b.sockets[s], b.HandleBlock(s).sockets[s]);
  }

  lemma {:induction false} ReadErrors(p: Local, s: nat, io: Io)
    requires s < |p.sockets|
    ensures var x, q := p.sockets[s], HandleRead(p, s, io).p;
      q.sockets[s].error == if ReadFails(x, io) then 0 else x.error
  {
    var x := p.sockets[s];
    match x.rxPipe
    case OsFd(_, listens) =>
      var a := p.SetSocket(s, Incoming(x, listens, io.read));
      ReadStep(a, s);
      ErrorStays(a, a.EnqueueRead(s), s);
    case VkTx(peer) =>
      var a := p.Spliced(s, peer);
      ReadStep(a, s);
      ReadWriterStep(a.EnqueueRead(s), s, peer);
      ErrorStays(a.EnqueueRead(s), a.EnqueueRead(s).EnqueueReadWriter(s, peer), s);
    case VkRx(_) =>
  }

  /** The system is asked for something to read, and refuses. */
  predicate ReadFails(x: Socket, io: Io) {
    x.rxPipe.OsFd? && io.read.ReadFailed? && (x.rxPipe.listens ==> x.rx.Free() >= ACCEPTED_SIZE)
  }

  /** A read that the system refuses clears it, too, and if neither the read nor a flush fails it stays. */
  lemma {:induction false} OpReadErrors(p: Local, s: nat, io: Io)
    requires s < |p.sockets| && p.sockets[s].op == OpRead
    ensures var x, q := p.sockets[s], Handler(p, s, io).p;
      && (ReadFails(x, io) ==> q.sockets[s].error == 0)
      && (!ReadFails(x, io) && !io.write.WriteFailed? ==> q.sockets[s].error == x.error)
  {
    ReadErrors(p, s, io);
    WriteErrors(HandleRead(p, s, io).p, s, io);
  }

  /** So does a close that fails, although the ring is marked closed. */
  lemma {:induction false} OpCloseErrors(p: Local, s: nat, io: Io)
    requires s < |p.sockets| && p.sockets[s].op in {OpTxClose, OpRxClose, OpTxShutdown, OpRxShutdown}
    ensures var x, q := p.sockets[s], Handler(p, s, io).p;
      var pipe := if x.op == OpTxClose || x.op == OpTxShutdown then x.txPipe else x.rxPipe;
      q.sockets[s].error == if pipe.OsFd? && io.closeFailed.Some? then 0 else x.error
  {
    var x := p.sockets[s];
    if x.op == OpTxClose || x.op == OpTxShutdown {
      TxCloseErrors(p, s, x.op == OpTxShutdown, io);
      HandlerTxCloses(p, s, io);
    } else {
      var a := RxClosed(p, s, io);
      HandlerRxCloses(p, s, io);
      ReadStep(a, s);
      ErrorStays(a, a.EnqueueRead(s), s);
      ReadySockets(a.EnqueueRead(s).HandleBlock(s), x.owner);
    }
  }

  lemma {:induction false} TxCloseErrors(p: Local, s: nat, shutdown: bool, io: Io)
    requires s < |p.sockets|
    ensures var x := p.sockets[s];
      HandleTxClose(p, s, shutdown, io).sockets[s].error ==
      if x.txPipe.OsFd? && io.closeFailed.Some? then 0 else x.error
  {
    var x, a := p.sockets[s], TxClosed(p, s, shutdown, io);
    WriteStep(a, s);
    var b := a.EnqueueWrite(s);
    if x.txPipe.OsFd? || shutdown {
      ErrorStays(a, b, s);
      ReadySockets(b.HandleBlock(s), x.owner);
    } else {
      WriteReaderStep(b, s, x.txPipe.peer);
      ErrorStays(b, b.EnqueueWriteReader(s, x.txPipe.peer), s);
      ReadySockets(b.EnqueueWriteReader(s, x.txPipe.peer).HandleBlock(s), x.owner);
    }
  }

  /** A wait on no socket fails the run. */
  lemma {:induction false} WaitNowhereFails(p: Local, that: nat, turn: Turn)
    requires that < |p.threads| && turn.exit.WaitOn? && turn.exit.s >= |Call(p, that, turn).sockets|
    ensures !TurnOf(p, that, turn).ok
  {
  }
}
