/**
 What the handlers of `vk_socket.c` do to the rings of the sockets, operation by operation, stated on the
 bytes, the EOF marks and the flags, and what is left alone.
 */
module Effects {
  import opened Machine
  import opened Fifo
  import opened Process
  import opened Scheduler

  // ---- what can be seen ----

  /** Both rings are the same, but for the effects that have been acted on, and so is what was polled. */
  predicate SameSides(x: Socket, y: Socket) {
    y.rx == x.rx.(effect := y.rx.effect) && y.tx == x.tx.(effect := y.tx.effect) && SamePolled(x, y)
  }

  predicate SamePolled(x: Socket, y: Socket) {
    x.rxRet == y.rxRet && x.txRet == y.txRet
  }

  ghost predicate SameRings(p: Local, q: Local) {
    p.SameShape(q) && forall u :: 0 <= u < |p.sockets| ==> SameSides(p.sockets[u], q.sockets[u])
  }

  /** Ring `g` is `f` after the system's answer to a read into it. */
  predicate ReadsInto(f: Fifo, g: Fifo, res: SysRead) {
    && g.closed == f.closed && g.txBlocked == f.txBlocked
    && match res
       case ReadFailed(e) => g.contents == f.contents && g.eof == f.eof && (g.rxBlocked <==> e == EAGAIN)
       case ReadBytes(data) =>
         var n := Min(|data|, f.Free());
         g.contents == f.contents + data[..n] && (g.eof <==> n == 0) && (g.rxBlocked <==> n < f.Free())
  }

  /** Ring `g` is `f` after the system's answer to a write from it, which is tried if `f` is not blocked. */
  predicate WritesFrom(f: Fifo, g: Fifo, res: SysWrite) {
    && g.closed == f.closed && g.rxBlocked == f.rxBlocked && g.eof == f.eof
    && (f.txBlocked ==> g.contents == f.contents && g.txBlocked)
    && (!f.txBlocked ==>
          match res
          case WriteFailed(e) => g.contents == f.contents && (g.txBlocked <==> e == EAGAIN)
          case Wrote(count) =>
            var n := Min(count, |f.contents|);
            g.contents == f.contents[n..] && (g.txBlocked <==> n < |f.contents|))
  }

  /** Ring `g` is `f` after an accept: the record of the connection behind the contents, if it fits. */
  predicate AcceptsInto(f: Fifo, g: Fifo, res: SysRead) {
    && g.closed == f.closed && g.txBlocked == f.txBlocked && g.eof == f.eof
    && (f.Free() >= ACCEPTED_SIZE && !f.eof && res.ReadBytes? ==> g.contents == f.contents + Record(res.data))
    && (f.Free() < ACCEPTED_SIZE || f.eof || res.ReadFailed? ==> g.contents == f.contents)
    && (g.rxBlocked <==> f.Free() >= ACCEPTED_SIZE && res.ReadFailed? && res.errno == EAGAIN)
  }

  /** Bytes went from the front of the writer's ring to the back of the reader's until one was exhausted. */
  predicate Moves(rx: Fifo, tx: Fifo, newRx: Fifo, newTx: Fifo) {
    && newRx.contents + newTx.contents == rx.contents + tx.contents && rx.contents <= newRx.contents
    && (newRx.Free() == 0 || newTx.contents == [])
    && newRx.eof == rx.eof && newTx.eof == tx.eof && newRx.closed == rx.closed && newTx.closed == tx.closed
    && newRx.capacity == rx.capacity && newTx.capacity == tx.capacity
    && (newRx.rxBlocked <==> |newRx.contents| - |rx.contents| < newRx.Free())
    && (newTx.txBlocked <==> |newRx.contents| - |rx.contents| < |newTx.contents|)
  }

  /** All rings are as before, but for the read ring of `reader` and the write ring of `writer`. */
  ghost predicate OnlyBetween(p: Local, q: Local, reader: int, writer: int) {
    && p.SameShape(q)
    && forall u :: 0 <= u < |p.sockets| ==>
         && (u != reader ==> q.sockets[u].rx == p.sockets[u].rx.(effect := q.sockets[u].rx.effect))
         && (u != writer ==> q.sockets[u].tx == p.sockets[u].tx.(effect := q.sockets[u].tx.effect))
         && SamePolled(p.sockets[u], q.sockets[u])
  }

  // ---- what wakes and registers nobody's bytes ----

  lemma {:induction false} ReadySockets(p: Local, t: nat)
    ensures p.Ready(t).sockets == p.sockets
  {
  }

  lemma {:induction false} EnqueueReadSides(p: Local, s: nat, u: nat)
    requires u < |p.sockets|
    ensures SameSides(p.sockets[u], p.EnqueueRead(s).sockets[u])
  {
    if s < |p.sockets| {
      ReadySockets(p.SetRx(s, p.sockets[s].rx.(effect := false)), p.sockets[s].owner);
    }
  }

  lemma {:induction false} EnqueueWriteSides(p: Local, s: nat, u: nat)
    requires u < |p.sockets|
    ensures SameSides(p.sockets[u], p.EnqueueWrite(s).sockets[u])
  {
    if s < |p.sockets| {
      ReadySockets(p.SetTx(s, p.sockets[s].tx.(effect := false)), p.sockets[s].owner);
    }
  }

  lemma {:induction false} WakePeerSockets(p: Local, s: nat, peer: nat)
    requires s < |p.sockets| && peer < |p.sockets|
    ensures p.WakePeer(s, peer).sockets == p.sockets
  {
  }

  lemma {:induction false} ReadWriterSides(p: Local, s: nat, peer: nat, u: nat)
    requires s < |p.sockets| && u < |p.sockets|
    ensures SameSides(p.sockets[u], p.EnqueueReadWriter(s, peer).sockets[u])
  {
    if peer < |p.sockets| {
      WakePeerSockets(p.SetTx(peer, p.sockets[peer].tx.(effect := false)), s, peer);
    }
  }

  lemma {:induction false} WriteReaderSides(p: Local, s: nat, peer: nat, u: nat)
    requires s < |p.sockets| && u < |p.sockets|
    ensures SameSides(p.sockets[u], p.EnqueueWriteReader(s, peer).sockets[u])
  {
    if peer < |p.sockets| {
      WakePeerSockets(p.SetRx(peer, p.sockets[peer].rx.(effect := false)), s, peer);
    }
  }

  lemma {:induction false} HandleBlockSides(p: Local, s: nat, u: nat)
    requires s < |p.sockets| && u < |p.sockets|
    ensures SameSides(p.sockets[u], p.HandleBlock(s).sockets[u])
  {
  }

  lemma {:induction false} FdReadTail(p: Local, s: nat)
    requires s < |p.sockets|
    ensures SameRings(p, p.EnqueueRead(s)) && SameRings(p, p.EnqueueRead(s).HandleBlock(s))
  {
    forall u | 0 <= u < |p.sockets|
      ensures SameSides(p.sockets[u], p.EnqueueRead(s).sockets[u])
      ensures SameSides(p.sockets[u], p.EnqueueRead(s).HandleBlock(s).sockets[u])
    {
      EnqueueReadSides(p, s, u);
      HandleBlockSides(p.EnqueueRead(s), s, u);
    }
  }

  lemma {:induction false} FdWriteTail(p: Local, s: nat)
    requires s < |p.sockets|
    ensures SameRings(p, p.EnqueueWrite(s)) && SameRings(p, p.EnqueueWrite(s).HandleBlock(s))
  {
    forall u | 0 <= u < |p.sockets|
      ensures SameSides(p.sockets[u], p.EnqueueWrite(s).sockets[u])
      ensures SameSides(p.sockets[u], p.EnqueueWrite(s).HandleBlock(s).sockets[u])
    {
      EnqueueWriteSides(p, s, u);
      HandleBlockSides(p.EnqueueWrite(s), s, u);
    }
  }

  lemma {:induction false} PipeReadTail(p: Local, s: nat, peer: nat)
    requires s < |p.sockets|
    ensures SameRings(p, p.EnqueueRead(s).EnqueueReadWriter(s, peer))
    ensures SameRings(p, p.EnqueueRead(s).EnqueueReadWriter(s, peer).HandleBlock(s))
  {
    var a := p.EnqueueRead(s);
    var b := a.EnqueueReadWriter(s, peer);
    forall u | 0 <= u < |p.sockets|
      ensures SameSides(p.sockets[u], b.sockets[u]) && SameSides(p.sockets[u], b.HandleBlock(s).sockets[u])
    {
      EnqueueReadSides(p, s, u);
      ReadWriterSides(a, s, peer, u);
      HandleBlockSides(b, s, u);
    }
  }

  lemma {:induction false} PipeWriteTail(p: Local, s: nat, peer: nat)
    requires s < |p.sockets|
    ensures SameRings(p, p.EnqueueWrite(s).EnqueueWriteReader(s, peer))
    ensures SameRings(p, p.EnqueueWrite(s).EnqueueWriteReader(s, peer).HandleBlock(s))
  {
    var a := p.EnqueueWrite(s);
    var b := a.EnqueueWriteReader(s, peer);
    forall u | 0 <= u < |p.sockets|
      ensures SameSides(p.sockets[u], b.sockets[u]) && SameSides(p.sockets[u], b.HandleBlock(s).sockets[u])
    {
      EnqueueWriteSides(p, s, u);
      WriteReaderSides(a, s, peer, u);
      HandleBlockSides(b, s, u);
    }
  }

  // ---- a read and a write ----

  /** The read of socket `s` on its pipe, before anybody is woken. */
  ghost predicate TakesIn(p: Local, q: Local, s: nat, io: Io)
    requires s < |p.sockets|
  {
    var x := p.sockets[s];
    && p.SameShape(q)
    && match x.rxPipe
       case OsFd(_, listens) =>
         && OnlyBetween(p, q, s, -1)
         && (if listens then AcceptsInto(x.rx, q.sockets[s].rx, io.read) else ReadsInto(x.rx, q.sockets[s].rx, io.read))
       case VkTx(peer) =>
         && OnlyBetween(p, q, s, peer)
         && (peer < |p.sockets| ==> Moves(x.rx, p.sockets[peer].tx, q.sockets[s].rx, q.sockets[peer].tx))
       case VkRx(_) => SameRings(p, q)
  }

  /** The write of socket `s` on its pipe. */
  ghost predicate GivesOut(p: Local, q: Local, s: nat, io: Io)
    requires s < |p.sockets|
  {
    var x := p.sockets[s];
    && p.SameShape(q)
    && match x.txPipe
       case OsFd(_, _) => OnlyBetween(p, q, -1, s) && WritesFrom(x.tx, q.sockets[s].tx, io.write)
       case VkRx(peer) =>
         && OnlyBetween(p, q, peer, s)
         && (peer < |p.sockets| ==> Moves(p.sockets[peer].rx, x.tx, q.sockets[peer].rx, q.sockets[s].tx))
       case VkTx(_) => SameRings(p, q)
  }

  lemma {:induction false} SpliceIs(p: Local, reader: nat, writer: nat)
    requires p.Linked() && reader < |p.sockets| && writer < |p.sockets|
    ensures var q := p.Spliced(reader, writer);
      && OnlyBetween(p, q, reader, writer)
      && Moves(p.sockets[reader].rx, p.sockets[writer].tx, q.sockets[reader].rx, q.sockets[writer].tx)
  {
    var rx, tx := p.sockets[reader].rx, p.sockets[writer].tx;
    SpliceConserves(rx, tx, -1);
    SpliceBlocksRx(rx, tx, -1);
    SpliceBlocksTx(rx, tx, -1);
  }

  lemma {:induction false} BetweenFrom(p: Local, a: Local, q: Local, reader: int, writer: int)
    requires OnlyBetween(p, a, reader, writer) && SameRings(a, q)
    ensures OnlyBetween(p, q, reader, writer)
  {
    forall u | 0 <= u < |p.sockets|
      ensures u != reader ==> q.sockets[u].rx == p.sockets[u].rx.(effect := q.sockets[u].rx.effect)
      ensures u != writer ==> q.sockets[u].tx == p.sockets[u].tx.(effect := q.sockets[u].tx.effect)
      ensures SamePolled(p.sockets[u], q.sockets[u])
    {
      assert SameSides(a.sockets[u], q.sockets[u]);
    }
  }

  lemma {:induction false} RingsTwice(p: Local, a: Local, q: Local)
    requires SameRings(p, a) && SameRings(a, q)
    ensures SameRings(p, q)
  {
    forall u | 0 <= u < |p.sockets|
      ensures SameSides(p.sockets[u], q.sockets[u])
    {
      assert SameSides(p.sockets[u], a.sockets[u]) && SameSides(a.sockets[u], q.sockets[u]);
    }
  }

  /** Rings that are the same but for effects show the same. */
  lemma {:induction false} TakenFrom(p: Local, a: Local, q: Local, s: nat, io: Io)
    requires s < |p.sockets| && p.Linked() && TakesIn(p, a, s, io) && SameRings(a, q)
    ensures TakesIn(p, q, s, io)
  {
    assert SameSides(a.sockets[s], q.sockets[s]);
    match p.sockets[s].rxPipe
    case OsFd(_, _) => BetweenFrom(p, a, q, s, -1);
    case VkTx(peer) =>
      assert SameSides(a.sockets[peer], q.sockets[peer]);
      BetweenFrom(p, a, q, s, peer);
    case VkRx(_) => RingsTwice(p, a, q);
  }

  lemma {:induction false} GivenFrom(p: Local, a: Local, q: Local, s: nat, io: Io)
    requires s < |p.sockets| && p.Linked() && GivesOut(p, a, s, io) && SameRings(a, q)
    ensures GivesOut(p, q, s, io)
  {
    assert SameSides(a.sockets[s], q.sockets[s]);
    match p.sockets[s].txPipe
    case OsFd(_, _) => BetweenFrom(p, a, q, -1, s);
    case VkRx(peer) =>
      assert SameSides(a.sockets[peer], q.sockets[peer]);
      BetweenFrom(p, a, q, peer, s);
    case VkTx(_) => RingsTwice(p, a, q);
  }

  lemma {:induction false} IncomingIs(p: Local, s: nat, io: Io)
    requires p.Linked() && s < |p.sockets| && p.sockets[s].rxPipe.OsFd?
    ensures TakesIn(p, p.SetSocket(s, Incoming(p.sockets[s], p.sockets[s].rxPipe.listens, io.read)), s, io)
  {
    var x := p.sockets[s];
    AcceptFdLeaves(x.rx, io.read);
    ReadFdLeaves(x.rx, Given(io.read, x.rx));
  }

  lemma {:induction false} OutgoingIs(p: Local, s: nat, io: Io)
    requires p.Linked() && s < |p.sockets| && p.sockets[s].txPipe.OsFd?
    ensures GivesOut(p, p.SetSocket(s, WriteSocket(p.sockets[s], Taken(io.write, p.sockets[s].tx))), s, io)
  {
    var x := p.sockets[s];
    WriteFdLeaves(x.tx, Taken(io.write, x.tx));
  }

  lemma {:induction false} SameAsItself(p: Local, s: nat)
    requires s < |p.sockets|
    ensures SameRings(p, p) && SameRings(p, p.HandleBlock(s))
  {
    forall u | 0 <= u < |p.sockets|
      ensures SameSides(p.sockets[u], p.HandleBlock(s).sockets[u])
    {
      HandleBlockSides(p, s, u);
    }
  }

  lemma {:induction false} ReadIs(p: Local, s: nat, io: Io)
    requires p.Linked() && s < |p.sockets|
    ensures TakesIn(p, HandleRead(p, s, io).p, s, io)
  {
    var x := p.sockets[s];
    match x.rxPipe
    case OsFd(_, listens) =>
      var a := p.SetSocket(s, Incoming(x, listens, io.read));
      IncomingIs(p, s, io);
      FdReadTail(a, s);
      TakenFrom(p, a, HandleRead(p, s, io).p, s, io);
    case VkTx(peer) =>
      var a := p.Spliced(s, peer);
      SpliceIs(p, s, peer);
      PipeReadTail(a, s, peer);
      TakenFrom(p, a, HandleRead(p, s, io).p, s, io);
    case VkRx(_) =>
      SameAsItself(p, s);
  }

  lemma {:induction false} WriteIs(p: Local, s: nat, io: Io)
    requires p.Linked() && s < |p.sockets|
    ensures GivesOut(p, HandleWrite(p, s, io).p, s, io)
  {
    var x := p.sockets[s];
    match x.txPipe
    case OsFd(_, _) =>
      var a := p.SetSocket(s, WriteSocket(x, Taken(io.write, x.tx)));
      OutgoingIs(p, s, io);
      FdWriteTail(a, s);
      GivenFrom(p, a, HandleWrite(p, s, io).p, s, io);
    case VkRx(peer) =>
      var a := p.Spliced(peer, s);
      SpliceIs(p, peer, s);
      PipeWriteTail(a, s, peer);
      GivenFrom(p, a, HandleWrite(p, s, io).p, s, io);
    case VkTx(_) =>
      SameAsItself(p, s);
  }

  // ---- the dispatch ----

  /** A write or a flush gives out what its pipe takes. */
  lemma {:induction false} OpWriteGives(p: Local, s: nat, io: Io)
    requires p.Linked() && s < |p.sockets| && (p.sockets[s].op == OpWrite || p.sockets[s].op == OpFlush)
    ensures GivesOut(p, Handler(p, s, io).p, s, io)
    ensures Handler(p, s, io).ok <==> !p.sockets[s].txPipe.VkTx?
  {
    WriteIs(p, s, io);
  }

  /**
   A read takes in what its pipe gives, and nothing else happens; unless the read ring is stuck then and
   bytes wait in a write ring that is not: they are given out as well.
   */
  lemma {:induction false} OpReadTakes(p: Local, s: nat, io: Io) returns (mid: Local)
    requires p.Inv() && s < |p.sockets| && p.Alive(p.sockets[s].owner) && p.sockets[s].op == OpRead
    ensures Keeps(p, mid) && TakesIn(p, mid, s, io)
    ensures var q, stuck := Handler(p, s, io).p, mid.sockets[s].rx.rxBlocked && !mid.sockets[s].tx.txBlocked
                                                 && mid.sockets[s].tx.contents != [];
      if p.sockets[s].rxPipe.VkRx? || !stuck then q == mid else GivesOut(mid, q, s, io)
  {
    mid := HandleRead(p, s, io).p;
    ReadIs(p, s, io);
    HandleReadKeeps(p, s, io);
    WriteIs(mid, s, io);
  }

  /** A descriptor's bytes are behind the read ring's contents, whatever is given out after it. */
  lemma {:induction false} OpReadReads(p: Local, s: nat, io: Io)
    requires p.Inv() && s < |p.sockets| && p.Alive(p.sockets[s].owner) && p.sockets[s].op == OpRead
    requires p.sockets[s].rxPipe.OsFd? && p.sockets[s].txPipe != VkRx(s)
    ensures var f, g := p.sockets[s].rx, Handler(p, s, io).p.sockets[s].rx;
      if p.sockets[s].rxPipe.listens then AcceptsInto(f, g, io.read) else ReadsInto(f, g, io.read)
  {
    var mid := OpReadTakes(p, s, io);
    assert SamePlace(p.sockets[s], mid.sockets[s]);
  }

  lemma {:induction false} ForwardFdIs(p: Local, s: nat, io: Io)
    requires s < |p.sockets| && p.sockets[s].rxPipe.OsFd? && p.sockets[s].rx.Valid()
    ensures var q := ForwardIn(p, s, io).p;
      OnlyBetween(p, q, s, -1) && ReadsInto(p.sockets[s].rx, q.sockets[s].rx, io.read)
  {
    var x := p.sockets[s];
    var a := p.SetSocket(s, Incoming(x, false, io.read));
    ReadFdLeaves(x.rx, Given(io.read, x.rx));
    FdReadTail(a, s);
    assert SameSides(a.sockets[s], ForwardIn(p, s, io).p.sockets[s]);
    BetweenFrom(p, a, ForwardIn(p, s, io).p, s, -1);
  }

  /** The read half of a forward, which reads a descriptor even if it listens. */
  lemma {:induction false} ForwardInIs(p: Local, s: nat, io: Io)
    requires p.Linked() && s < |p.sockets|
    ensures var q := ForwardIn(p, s, io).p;
      if p.sockets[s].rxPipe.OsFd?
      then OnlyBetween(p, q, s, -1) && ReadsInto(p.sockets[s].rx, q.sockets[s].rx, io.read)
      else TakesIn(p, q, s, io)
  {
    match p.sockets[s].rxPipe
    case OsFd(_, _) => ForwardFdIs(p, s, io);
    case VkTx(peer) =>
      var a := p.Spliced(s, peer);
      SpliceIs(p, s, peer);
      PipeReadTail(a, s, peer);
      TakenFrom(p, a, ForwardIn(p, s, io).p, s, io);
    case VkRx(_) =>
      SameAsItself(p, s);
  }

  lemma {:induction false} RunSockets(p: Local, t: nat)
    ensures p.EnqueueRun(t).sockets == p.sockets
  {
  }

  /** The wakeups of a forward into a virtual pipe. */
  lemma {:induction false} ForwardTail(p: Local, s: nat, peer: nat, fromFd: bool, io: Io)
    requires s < |p.sockets| && p.sockets[s].txPipe == VkRx(peer)
    ensures SameRings(p.Spliced(peer, s), ForwardOut(p, s, fromFd, io).p)
  {
    var a := p.Spliced(peer, s);
    FdWriteTail(a, s);
    PipeWriteTail(a, s, peer);
    var b := a.EnqueueWrite(s);
    if fromFd && peer < |b.sockets| && b.sockets[peer].rx.rxBlocked {
      RunSockets(b.EnqueueWriteReader(s, peer), b.sockets[peer].owner);
    }
  }

  lemma {:induction false} ForwardOutIs(p: Local, s: nat, fromFd: bool, io: Io)
    requires p.Linked() && s < |p.sockets|
    ensures GivesOut(p, ForwardOut(p, s, fromFd, io).p, s, io)
  {
    var x := p.sockets[s];
    match x.txPipe
    case OsFd(_, _) =>
      var a := p.SetSocket(s, WriteSocket(x, Taken(io.write, x.tx)));
      OutgoingIs(p, s, io);
      FdWriteTail(a, s);
      GivenFrom(p, a, ForwardOut(p, s, fromFd, io).p, s, io);
    case VkRx(peer) =>
      SpliceIs(p, peer, s);
      ForwardTail(p, s, peer, fromFd, io);
      GivenFrom(p, p.Spliced(peer, s), ForwardOut(p, s, fromFd, io).p, s, io);
    case VkTx(_) =>
      SameAsItself(p, s);
  }

  /** A forward takes in and then gives out. */
  lemma {:induction false} OpForwardMoves(p: Local, s: nat, io: Io) returns (mid: Local)
    requires p.Inv() && s < |p.sockets| && p.Alive(p.sockets[s].owner) && p.sockets[s].op == OpForward
    requires !p.sockets[s].rxPipe.VkRx? && !p.sockets[s].txPipe.VkTx?
    ensures Keeps(p, mid) && GivesOut(mid, Handler(p, s, io).p, s, io)
    ensures if p.sockets[s].rxPipe.OsFd?
            then OnlyBetween(p, mid, s, -1) && ReadsInto(p.sockets[s].rx, mid.sockets[s].rx, io.read)
            else TakesIn(p, mid, s, io)
  {
    mid := ForwardIn(p, s, io).p;
    ForwardInIs(p, s, io);
    ForwardInKeeps(p, s, io);
    assert SamePlace(p.sockets[s], mid.sockets[s]);
    ForwardOutBlocks(mid, s, p.sockets[s].rxPipe.OsFd?, io);
    HandlerForwards(p, s, io);
  }

  lemma {:induction false} ForwardOutBlocks(p: Local, s: nat, fromFd: bool, io: Io)
    requires p.Linked() && s < |p.sockets|
    ensures GivesOut(p, ForwardOut(p, s, fromFd, io).p.HandleBlock(s), s, io)
  {
    var b := ForwardOut(p, s, fromFd, io).p;
    ForwardOutIs(p, s, fromFd, io);
    SameAsItself(b, s);
    GivenFrom(p, b, b.HandleBlock(s), s, io);
  }

  lemma {:induction false} HandlerForwards(p: Local, s: nat, io: Io)
    requires s < |p.sockets| && p.sockets[s].op == OpForward
    requires var mid := ForwardIn(p, s, io); mid.ok && !mid.p.sockets[s].txPipe.VkTx?
    ensures Handler(p, s, io).p ==
            ForwardOut(ForwardIn(p, s, io).p, s, p.sockets[s].rxPipe.OsFd?, io).p.HandleBlock(s)
  {
  }

  /** A readhup takes the EOF off the writer's ring and puts it on the reader's; no byte moves. */
  lemma {:induction false} OpReadHupTakes(p: Local, s: nat, io: Io)
    requires s < |p.sockets| && p.sockets[s].op == OpReadHup
    ensures var x, q := p.sockets[s], Handler(p, s, io).p;
      if x.rxPipe.VkTx? && x.rxPipe.peer < |p.sockets| && p.sockets[x.rxPipe.peer].tx.eof
      then EofTaken(p, q, s, x.rxPipe.peer)
      else SameRings(p, q)
  {
    var x := p.sockets[s];
    SameAsItself(p, s);
    FdReadTail(p, s);
    if x.rxPipe.VkTx? && x.rxPipe.peer < |p.sockets| && p.sockets[x.rxPipe.peer].tx.eof {
      EofIsTaken(p, s, x.rxPipe.peer);
    }
  }

  ghost predicate EofTaken(p: Local, q: Local, s: nat, peer: nat)
    requires s < |p.sockets| && peer < |p.sockets|
  {
    && OnlyBetween(p, q, s, peer)
    && q.sockets[s].rx == p.sockets[s].rx.(eof := true, effect := q.sockets[s].rx.effect)
    && q.sockets[peer].tx == p.sockets[peer].tx.(eof := false, effect := q.sockets[peer].tx.effect)
  }

  lemma {:induction false} HupForwarded(p: Local, s: nat, peer: nat)
    requires s < |p.sockets| && peer < |p.sockets| && p.sockets[peer].tx.eof
    ensures EofTaken(p, ForwardedHup(p, s, peer), s, peer)
  {
  }

  lemma {:induction false} EofFrom(p: Local, a: Local, q: Local, s: nat, peer: nat)
    requires s < |p.sockets| && peer < |p.sockets| && EofTaken(p, a, s, peer) && SameRings(a, q)
    ensures EofTaken(p, q, s, peer)
  {
    assert SameSides(a.sockets[s], q.sockets[s]) && SameSides(a.sockets[peer], q.sockets[peer]);
    BetweenFrom(p, a, q, s, peer);
  }

  lemma {:induction false} EofIsTaken(p: Local, s: nat, peer: nat)
    requires s < |p.sockets| && peer < |p.sockets| && p.sockets[s].rxPipe == VkTx(peer) && p.sockets[peer].tx.eof
    ensures EofTaken(p, HandleReadHup(p, s).p, s, peer)
  {
    var a := ForwardedHup(p, s, peer);
    HupForwarded(p, s, peer);
    PipeReadTail(a, s, peer);
    EofFrom(p, a, HandleReadHup(p, s).p, s, peer);
  }

  /** A hup moves no byte and no EOF. */
  lemma {:induction false} OpHupMovesNothing(p: Local, s: nat, io: Io)
    requires s < |p.sockets| && p.sockets[s].op == OpHup
    ensures SameRings(p, Handler(p, s, io).p)
  {
    SameAsItself(p, s);
    FdWriteTail(p, s);
    if p.sockets[s].txPipe.VkRx? {
      PipeWriteTail(p, s, p.sockets[s].txPipe.peer);
    }
  }

  lemma {:induction false} ReadyKeepsRings(p: Local, q: Local, t: nat)
    requires SameRings(p, q)
    ensures SameRings(p, q.Ready(t))
  {
  }

  /**
   Closing the write side of a descriptor marks the ring closed, as a shutdown does. Over a virtual pipe a
   close leaves an EOF for the reader, and a shutdown leaves everything as it is.
   */
  lemma {:induction false} OpTxCloseEnds(p: Local, s: nat, io: Io)
    requires s < |p.sockets| && (p.sockets[s].op == OpTxClose || p.sockets[s].op == OpTxShutdown)
    ensures var x, q := p.sockets[s], Handler(p, s, io).p;
      var y := q.sockets[s];
      && OnlyBetween(p, q, -1, s) && y.tx.contents == x.tx.contents
      && (y.tx.closed <==> x.tx.closed || x.txPipe.OsFd?)
      && (y.tx.eof <==> x.tx.eof || (!x.txPipe.OsFd? && x.op == OpTxClose))
  {
    var shutdown := p.sockets[s].op == OpTxShutdown;
    var a := TxClosed(p, s, shutdown, io);
    TxClosedIs(p, s, shutdown, io);
    TxClosedTail(p, s, shutdown, io);
    HandlerTxCloses(p, s, io);
    var q := HandleTxClose(p, s, shutdown, io);
    assert SameSides(a.sockets[s], q.sockets[s]);
    BetweenFrom(p, a, q, -1, s);
  }

  /** The write side closed, before anybody is woken. */
  ghost function TxClosed(p: Local, s: nat, shutdown: bool, io: Io): (a: Local)
    requires s < |p.sockets|
    ensures p.SameShape(a)
  {
    var x := p.sockets[s];
    if x.txPipe.OsFd? then p.SetSocket(s, CloseTxSocket(x, io.closeFailed))
    else if shutdown then p else p.SetTx(s, x.tx.MarkEof())
  }

  lemma {:induction false} TxClosedIs(p: Local, s: nat, shutdown: bool, io: Io)
    requires s < |p.sockets|
    ensures var x, a := p.sockets[s], TxClosed(p, s, shutdown, io);
      && OnlyBetween(p, a, -1, s) && a.sockets[s].tx.contents == x.tx.contents
      && (a.sockets[s].tx.closed <==> x.tx.closed || x.txPipe.OsFd?)
      && (a.sockets[s].tx.eof <==> x.tx.eof || (!x.txPipe.OsFd? && !shutdown))
  {
    var x, a := p.sockets[s], TxClosed(p, s, shutdown, io);
    if x.txPipe.OsFd? {
      CloseFdLeaves(x.tx, io.closeFailed);
      OneSocket(p, a, s);
    } else if !shutdown {
      OneSocket(p, a, s);
    }
  }

  /** Where one socket is replaced by one with the same read ring, or the same write ring, no other ring changes. */
  lemma {:induction false} OneSocket(p: Local, a: Local, s: nat)
    requires p.SameShape(a) && s < |p.sockets| && a.sockets == p.sockets[s := a.sockets[s]]
    requires SamePolled(p.sockets[s], a.sockets[s])
    ensures a.sockets[s].rx == p.sockets[s].rx ==> OnlyBetween(p, a, -1, s)
    ensures a.sockets[s].tx == p.sockets[s].tx ==> OnlyBetween(p, a, s, -1)
  {
  }

  lemma {:induction false} TxClosedTail(p: Local, s: nat, shutdown: bool, io: Io)
    requires s < |p.sockets|
    ensures SameRings(TxClosed(p, s, shutdown, io), HandleTxClose(p, s, shutdown, io))
  {
    var x, a := p.sockets[s], TxClosed(p, s, shutdown, io);
    if x.txPipe.OsFd? || shutdown {
      FdWriteTail(a, s);
      ReadyKeepsRings(a, a.EnqueueWrite(s).HandleBlock(s), x.owner);
    } else {
      PipeWriteTail(a, s, x.txPipe.peer);
      ReadyKeepsRings(a, a.EnqueueWrite(s).EnqueueWriteReader(s, x.txPipe.peer).HandleBlock(s), x.owner);
    }
  }

  /** Closing the read side marks a descriptor's ring closed. */
  lemma {:induction false} OpRxCloseEnds(p: Local, s: nat, io: Io)
    requires s < |p.sockets| && (p.sockets[s].op == OpRxClose || p.sockets[s].op == OpRxShutdown)
    ensures var x, q := p.sockets[s], Handler(p, s, io).p;
      var y := q.sockets[s];
      && OnlyBetween(p, q, s, -1) && y.rx.contents == x.rx.contents && y.rx.eof == x.rx.eof
      && (y.rx.closed <==> x.rx.closed || x.rxPipe.OsFd?)
  {
    var x, a := p.sockets[s], RxClosed(p, s, io);
    var q := HandleRxClose(p, s, io);
    RxClosedIs(p, s, io);
    FdReadTail(a, s);
    ReadyKeepsRings(a, a.EnqueueRead(s).HandleBlock(s), x.owner);
    HandlerRxCloses(p, s, io);
    assert SameSides(a.sockets[s], q.sockets[s]);
    BetweenFrom(p, a, q, s, -1);
  }

  ghost function RxClosed(p: Local, s: nat, io: Io): (a: Local)
    requires s < |p.sockets|
    ensures p.SameShape(a)
  {
    var x := p.sockets[s];
    if x.rxPipe.OsFd? then p.SetSocket(s, CloseRxSocket(x, io.closeFailed)) else p
  }

  lemma {:induction false} RxClosedIs(p: Local, s: nat, io: Io)
    requires s < |p.sockets|
    ensures var x, a := p.sockets[s], RxClosed(p, s, io);
      && OnlyBetween(p, a, s, -1)
      && a.sockets[s].rx.contents == x.rx.contents && a.sockets[s].rx.eof == x.rx.eof
      && (a.sockets[s].rx.closed <==> x.rx.closed || x.rxPipe.OsFd?)
  {
    var x, a := p.sockets[s], RxClosed(p, s, io);
    if x.rxPipe.OsFd? {
      CloseFdLeaves(x.rx, io.closeFailed);
      OneSocket(p, a, s);
    }
  }

  lemma {:induction false} HandlerRxCloses(p: Local, s: nat, io: Io)
    requires s < |p.sockets| && (p.sockets[s].op == OpRxClose || p.sockets[s].op == OpRxShutdown)
    ensures Handler(p, s, io).p == HandleRxClose(p, s, io)
    ensures HandleRxClose(p, s, io) == RxClosed(p, s, io).EnqueueRead(s).HandleBlock(s).Ready(p.sockets[s].owner)
  {
  }

  /** Without an operation nothing happens; waiting for readiness asks for one direction and touches no ring. */
  lemma {:induction false} OpsThatWait(p: Local, s: nat, io: Io)
    requires s < |p.sockets|
    ensures p.sockets[s].op == OpNone ==> Handler(p, s, io) == Handled(p, true)
    ensures p.sockets[s].op == OpReadable || p.sockets[s].op == OpWritable ==>
              var q, reading := Handler(p, s, io).p, p.sockets[s].op == OpReadable;
              && SameRings(p, q)
              && q.sockets[s].rxPre.events == (if reading then {In} else {})
              && q.sockets[s].txPre.events == (if reading then {} else {Out})
  {
  }
}
