/**
 The imperative side of `vk_proc_local.c`, `vk_thread.c` and `vk_socket.c`. The two queues are linked
 lists, walked by their links while elements are taken out of them; every method is proved against the
 functions of `Process` and `Scheduler`, which know the queues as sequences.
 */
module ProcLocal {
  import opened Machine
  import opened Fifo
  import opened SList
  import opened Process
  import opened Scheduler

  class ProcLocal {
    var run: bool
    var blocked: bool
    const runQ: LinkedList<nat>
    const blockedQ: LinkedList<nat>
    var running: Option<nat>
    var threads: seq<Thread>
    var sockets: seq<Socket>

    ghost function Value(): Local
      reads this, runQ, blockedQ
    {
      Local(run, blocked, runQ.elems, blockedQ.elems, threads, sockets)
    }

    /** Both lists are sound, and flags and marks agree with them. */
    ghost predicate Queues()
      reads this, runQ, blockedQ
    {
      runQ != blockedQ && runQ.Valid() && blockedQ.Valid() && Value().Queued()
    }

    ghost predicate Valid()
      reads this, runQ, blockedQ
    {
      runQ != blockedQ && runQ.Valid() && blockedQ.Valid() && Value().Inv()
    }

    /** `vk_proc_local_init` */
    constructor (threads: seq<Thread>, sockets: seq<Socket>)
      ensures Value() == Local(false, false, [], [], threads, sockets) && running == None
      ensures runQ != blockedQ && fresh(runQ) && fresh(blockedQ) && runQ.Valid() && blockedQ.Valid()
      ensures (&& Value().Linked()
               && (forall t :: 0 <= t < |threads| ==> !threads[t].runEnq)
               && (forall s :: 0 <= s < |sockets| ==> !sockets[s].blockedEnq))
              ==> Valid()
    {
      run := false;
      blocked := false;
      runQ := new LinkedList();
      blockedQ := new LinkedList();
      running := None;
      this.threads := threads;
      this.sockets := sockets;
    }

    // ---- threads and queues ----

    /** `vk_ready` */
    method MarkReady(t: nat)
      requires t < |threads| && Queues()
      modifies `threads
      ensures Queues() && Value() == old(Value()).Ready(t)
    {
      ReadyQueued(Value(), t);
      if threads[t].status == End {
      } else if threads[t].status == Error {
      } else {
        threads := threads[t := threads[t].(status := Run)];
      }
      assert threads == old(threads)[t := old(threads)[t].(status := old(threads)[t].status.Readied())];
    }

    /** `vk_proc_local_enqueue_run` */
    method EnqueueRun(t: nat)
      requires t < |threads| && Queues()
      modifies `threads, `run, runQ
      ensures Queues() && Value() == old(Value()).EnqueueRun(t)
    {
      EnqueueRunQueued(Value(), t);
      MarkReady(t);
      if threads[t].status.IsReady() {
        if !threads[t].runEnq {
          if runQ.IsEmpty() {
            run := true;
          }
          runQ.InsertHead(t);
          threads := threads[t := threads[t].(runEnq := true)];
        }
      }
    }

    /** `vk_proc_local_enqueue_blocked` */
    method EnqueueBlocked(s: nat)
      requires s < |sockets| && Queues()
      modifies `sockets, `blocked, blockedQ
      ensures Queues() && Value() == old(Value()).EnqueueBlocked(s)
      ensures old(sockets[s].blockedEnq) ==> unchanged(blockedQ)
    {
      EnqueueBlockedQueued(Value(), s);
      if !sockets[s].blockedEnq {
        if blockedQ.IsEmpty() {
          blocked := true;
        }
        blockedQ.InsertHead(s);
        sockets := sockets[s := sockets[s].(blockedEnq := true)];
      }
    }

    /** `vk_proc_local_drop_run` */
    method DropRun(t: nat)
      requires t < |threads| && Queues()
      modifies `threads, `run, runQ
      ensures Queues() && Value() == old(Value()).DropRun(t)
    {
      DropRunQueued(Value(), t);
      if threads[t].runEnq {
        runQ.Remove(t);
      }
      threads := threads[t := threads[t].(runEnq := false)];
      if runQ.IsEmpty() {
        run := false;
      }
    }

    /** `vk_proc_local_drop_blocked`; a walk that stands at the socket can still go on from its link. */
    method DropBlocked(s: nat)
      requires s < |sockets| && Queues()
      modifies `sockets, `blocked, blockedQ
      ensures Queues() && Value() == old(Value()).DropBlocked(s)
      ensures forall rest :: old(blockedQ.Cursor(Some(s), rest)) ==> blockedQ.Cursor(Some(s), rest)
      ensures old(s in blockedQ.next) ==> s in blockedQ.next && blockedQ.next[s] == old(blockedQ.next)[s]
    {
      DropBlockedQueued(Value(), s);
      if sockets[s].blockedEnq {
        blockedQ.Remove(s);
      }
      sockets := sockets[s := sockets[s].(blockedEnq := false)];
      if blockedQ.IsEmpty() {
        blocked := false;
      }
    }

    /** `vk_proc_local_dequeue_run` */
    method DequeueRun() returns (t: Option<nat>)
      requires Queues()
      modifies `threads, `run, runQ
      ensures Queues()
      ensures t.None? ==> old(runQ.elems) == [] && Value() == old(Value())
      ensures t.Some? ==> old(runQ.elems) != [] && t.value == old(runQ.elems)[0] && Value() == Dequeue(old(Value()))
    {
      if runQ.IsEmpty() {
        return None;
      }
      DequeueQueued(Value());
      var head := runQ.RemoveHead();
      t := Some(head);
      threads := threads[head := threads[head].(runEnq := false)];
      if runQ.IsEmpty() {
        run := false;
      }
    }

    /** `vk_proc_local_drop_blocked_for`: the walk reads each link before the socket may go. */
    method DropBlockedFor(t: nat)
      requires Queues()
      modifies `sockets, `blocked, blockedQ
      ensures Queues() && Value() == DropOwned(old(Value()), old(Value()).blockedQ, t)
    {
      ghost var start := Value();
      blockedQ.Start();
      var cursor := blockedQ.first;
      ghost var rest: seq<nat> := blockedQ.elems;
      while cursor.Some?
        invariant Queues() && |sockets| == |start.sockets| && blockedQ.Cursor(cursor, rest)
        invariant forall s :: s in rest ==> s < |sockets|
        invariant DropOwned(Value(), rest, t) == DropOwned(start, start.blockedQ, t)
        decreases |rest|
      {
        var s := cursor.value;
        blockedQ.Advance(s, rest);
        assert s in rest && forall r :: r in rest[1..] ==> r in rest;
        cursor := blockedQ.next[s];
        if sockets[s].owner == t {
          DropBlocked(s);
          blockedQ.Advance(s, rest);
        }
        rest := rest[1..];
      }
    }

    // ---- handlers ----

    /** Replace the record of a socket, all but its mark. */
    method SetSocket(s: nat, x: Socket)
      requires s < |sockets| && Queues() && x.blockedEnq == sockets[s].blockedEnq
      modifies `sockets
      ensures Queues() && Value() == old(Value()).SetSocket(s, x)
    {
      SetSocketQueued(Value(), s, x);
      sockets := sockets[s := x];
    }

    /** `vk_vectoring_handle_effect` on a read ring. */
    method HandleRxEffect(s: nat) returns (effect: bool)
      requires s < |sockets| && Queues()
      modifies `sockets
      ensures Queues() && effect == old(sockets[s].rx.effect)
      ensures Value() == if effect then old(Value()).SetRx(s, old(sockets[s].rx).(effect := false)) else old(Value())
    {
      effect := sockets[s].rx.effect;
      if effect {
        SetSocket(s, sockets[s].(rx := sockets[s].rx.(effect := false)));
      }
    }

    method HandleTxEffect(s: nat) returns (effect: bool)
      requires s < |sockets| && Queues()
      modifies `sockets
      ensures Queues() && effect == old(sockets[s].tx.effect)
      ensures Value() == if effect then old(Value()).SetTx(s, old(sockets[s].tx).(effect := false)) else old(Value())
    {
      effect := sockets[s].tx.effect;
      if effect {
        SetSocket(s, sockets[s].(tx := sockets[s].tx.(effect := false)));
      }
    }

    /** `vk_socket_enqueue_read` */
    method EnqueueRead(s: nat)
      requires s < |sockets| && sockets[s].owner < |threads| && Queues()
      modifies `threads, `sockets
      ensures Queues() && Value() == old(Value()).EnqueueRead(s)
    {
      var effect := HandleRxEffect(s);
      if effect {
        MarkReady(sockets[s].owner);
      }
    }

    /** `vk_socket_enqueue_write` */
    method EnqueueWrite(s: nat)
      requires s < |sockets| && sockets[s].owner < |threads| && Queues()
      modifies `threads, `sockets
      ensures Queues() && Value() == old(Value()).EnqueueWrite(s)
    {
      var effect := HandleTxEffect(s);
      if effect {
        MarkReady(sockets[s].owner);
      }
    }

    /** `vk_socket_enqueue_otherwriter` or `vk_socket_enqueue_otherreader`, then `vk_socket_enqueue_self`. */
    method WakePeer(s: nat, peer: nat)
      requires Queues() && s < |sockets| && peer < |sockets|
      requires sockets[s].owner < |threads| && sockets[peer].owner < |threads|
      modifies `threads, `run, runQ
      ensures Queues() && Value() == old(Value()).WakePeer(s, peer)
    {
      EnqueueRun(sockets[peer].owner);
      MarkReady(sockets[peer].owner);
      MarkReady(sockets[s].owner);
    }

    /** `vk_socket_enqueue_readwriter` */
    method EnqueueReadWriter(s: nat, peer: nat)
      requires Queues() && s < |sockets| && peer < |sockets|
      requires sockets[s].owner < |threads| && sockets[peer].owner < |threads|
      modifies `threads, `sockets, `run, runQ
      ensures Queues() && Value() == old(Value()).EnqueueReadWriter(s, peer)
    {
      var effect := HandleTxEffect(peer);
      if effect {
        WakePeer(s, peer);
      }
    }

    /** `vk_socket_enqueue_writereader` */
    method EnqueueWriteReader(s: nat, peer: nat)
      requires Queues() && s < |sockets| && peer < |sockets|
      requires sockets[s].owner < |threads| && sockets[peer].owner < |threads|
      modifies `threads, `sockets, `run, runQ
      ensures Queues() && Value() == old(Value()).EnqueueWriteReader(s, peer)
    {
      var effect := HandleRxEffect(peer);
      if effect {
        WakePeer(s, peer);
      }
    }

    /** The read half of `vk_socket_handle_block`. */
    method BlockRead(x: Socket) returns (pre: Future, poll: bool)
      ensures pre == BlockFutures(x).rxPre && poll == (x.rxPipe.OsFd? && x.rx.rxBlocked)
    {
      pre := x.rxPre.(fd := x.rxPipe.Fd());
      if pre.fd >= 0 && x.rx.closed {
        pre := pre.(rxClosed := true);
      }
      poll := pre.fd >= 0 && x.rx.rxBlocked;
      pre := pre.(events := if poll then {In} else {});
    }

    /** The write half. */
    method BlockWrite(x: Socket) returns (pre: Future, poll: bool)
      ensures pre == BlockFutures(x).txPre && poll == (x.txPipe.OsFd? && x.tx.txBlocked)
    {
      pre := x.txPre.(fd := x.txPipe.Fd());
      if pre.fd >= 0 && x.tx.closed {
        pre := pre.(txClosed := true);
      }
      poll := pre.fd >= 0 && x.tx.txBlocked;
      pre := pre.(events := if poll then {Out} else {});
    }

    /** `vk_socket_handle_block`; the second registration of a socket finds it already queued. */
    method HandleBlock(s: nat)
      requires Queues() && s < |sockets|
      modifies `sockets, `blocked, blockedQ
      ensures Queues() && Value() == old(Value()).HandleBlock(s)
      ensures old(sockets[s].blockedEnq) ==> unchanged(blockedQ)
    {
      var rxPre, pollRead := BlockRead(sockets[s]);
      var txPre, pollWrite := BlockWrite(sockets[s]);
      SetSocket(s, sockets[s].(rxPre := rxPre, txPre := txPre));
      if pollRead || pollWrite {
        EnqueueBlocked(s);
      }
    }

    /** `vk_vectoring_splice` from the writer's tx ring into the reader's rx ring. */
    method Splice(reader: nat, writer: nat)
      requires reader < |sockets| && writer < |sockets| && Queues()
      modifies `sockets
      ensures Queues() && Value() == old(Value()).Spliced(reader, writer)
    {
      var rx, tx := sockets[reader].rx, sockets[writer].tx;
      SetSocket(reader, sockets[reader].(rx := SpliceRx(rx, tx, -1)));
      SetSocket(writer, sockets[writer].(tx := SpliceTx(rx, tx, -1)));
    }

    /** `vk_vectoring_forwardhup` */
    method ForwardHup(reader: nat, writer: nat)
      requires reader < |sockets| && writer < |sockets| && Queues()
      modifies `sockets
      ensures Queues() && Value() == ForwardedHup(old(Value()), reader, writer)
    {
      SetSocket(writer, sockets[writer].(tx := sockets[writer].tx.ClearEof()));
      SetSocket(reader, sockets[reader].(rx := sockets[reader].rx.MarkEof()));
    }

    /** Both wakeups of a reader whose ring has changed, and of the writer it reads from. */
    method WakeAfterRead(s: nat, peer: nat)
      requires Queues() && s < |sockets| && peer < |sockets|
      requires sockets[s].owner < |threads| && sockets[peer].owner < |threads|
      modifies `threads, `sockets, `run, runQ
      ensures Queues() && Value() == old(Value()).EnqueueRead(s).EnqueueReadWriter(s, peer)
      ensures |sockets| == old(|sockets|) && sockets[s].blockedEnq == old(sockets[s].blockedEnq)
    {
      EnqueueRead(s);
      EnqueueReadWriter(s, peer);
    }

    /** Both wakeups of a writer whose ring has changed, and of the reader of its writes. */
    method WakeAfterWrite(s: nat, peer: nat)
      requires Queues() && s < |sockets| && peer < |sockets|
      requires sockets[s].owner < |threads| && sockets[peer].owner < |threads|
      modifies `threads, `sockets, `run, runQ
      ensures Queues() && Value() == old(Value()).EnqueueWrite(s).EnqueueWriteReader(s, peer)
      ensures |sockets| == old(|sockets|) && sockets[s].blockedEnq == old(sockets[s].blockedEnq)
    {
      EnqueueWrite(s);
      EnqueueWriteReader(s, peer);
    }

    /** `vk_socket_handle_read` */
    method HandleRead(s: nat, io: Io) returns (ok: bool)
      requires Queues() && Value().Linked() && s < |sockets|
      modifies `threads, `sockets, `run, runQ, `blocked, blockedQ
      ensures Queues() && Handled(Value(), ok) == Process.HandleRead(old(Value()), s, io)
      ensures old(sockets[s].blockedEnq) ==> unchanged(blockedQ)
    {
      var x := sockets[s];
      ok := true;
      match x.rxPipe {
        case OsFd(_, listens) =>
          SetSocket(s, Incoming(x, listens, io.read));
          EnqueueRead(s);
        case VkTx(peer) =>
          Splice(s, peer);
          WakeAfterRead(s, peer);
        case VkRx(_) =>
          ok := false;
      }
      HandleBlock(s);
    }

    /** `vk_socket_handle_write` */
    method HandleWrite(s: nat, io: Io) returns (ok: bool)
      requires Queues() && Value().Linked() && s < |sockets|
      modifies `threads, `sockets, `run, runQ, `blocked, blockedQ
      ensures Queues() && Handled(Value(), ok) == Process.HandleWrite(old(Value()), s, io)
      ensures old(sockets[s].blockedEnq) ==> unchanged(blockedQ)
    {
      var x := sockets[s];
      ok := true;
      match x.txPipe {
        case OsFd(_, _) =>
          SetSocket(s, WriteSocket(x, Taken(io.write, x.tx)));
          EnqueueWrite(s);
        case VkRx(peer) =>
          Splice(peer, s);
          WakeAfterWrite(s, peer);
        case VkTx(_) =>
          ok := false;
      }
      HandleBlock(s);
    }

    /** The read half of `vk_socket_handle_forward`. */
    method ForwardIn(s: nat, io: Io) returns (ok: bool)
      requires Queues() && Value().Linked() && s < |sockets|
      modifies `threads, `sockets, `run, runQ
      ensures Queues() && Handled(Value(), ok) == Process.ForwardIn(old(Value()), s, io)
    {
      var x := sockets[s];
      match x.rxPipe {
        case OsFd(_, _) =>
          SetSocket(s, Incoming(x, false, io.read));
          EnqueueRead(s);
        case VkTx(peer) =>
          Splice(s, peer);
          WakeAfterRead(s, peer);
        case VkRx(_) =>
          return false;
      }
      ok := true;
    }

    /** The wakeups of a forward into a virtual pipe whose reader is blocked. */
    method WakeReaderToo(s: nat, peer: nat)
      requires Queues() && s < |sockets| && peer < |sockets|
      requires sockets[s].owner < |threads| && sockets[peer].owner < |threads|
      modifies `threads, `sockets, `run, runQ
      ensures Queues()
      ensures Value() ==
              old(Value()).EnqueueWrite(s).EnqueueWriteReader(s, peer).EnqueueRun(old(sockets[peer].owner))
    {
      var owner := sockets[peer].owner;
      WakeAfterWrite(s, peer);
      EnqueueRun(owner);
    }

    /** Waking a writer by its own ring leaves the ring and the owner of every other side. */
    static lemma {:induction false} EnqueueWriteLeaves(p: Local, s: nat, peer: nat)
      requires peer < |p.sockets|
      ensures var q := p.EnqueueWrite(s);
        q.sockets[peer].rx == p.sockets[peer].rx && q.sockets[peer].owner == p.sockets[peer].owner
    {
    }

    /** The wakeups of a forward into a virtual pipe. */
    method ForwardWake(s: nat, peer: nat, fromFd: bool)
      requires Queues() && s < |sockets| && peer < |sockets|
      requires sockets[s].owner < |threads| && sockets[peer].owner < |threads|
      modifies `threads, `sockets, `run, runQ
      ensures Queues()
      ensures var q := old(Value()).EnqueueWrite(s);
              Value() == if !fromFd then q.EnqueueWriteReader(s, peer)
                         else if q.sockets[peer].rx.rxBlocked then
                           q.EnqueueWriteReader(s, peer).EnqueueRun(q.sockets[peer].owner)
                         else q
    {
      EnqueueWriteLeaves(Value(), s, peer);
      if !fromFd {
        WakeAfterWrite(s, peer);
      } else if sockets[peer].rx.rxBlocked {
        WakeReaderToo(s, peer);
      } else {
        EnqueueWrite(s);
      }
    }

    /** The write half. */
    method ForwardOut(s: nat, fromFd: bool, io: Io) returns (ok: bool)
      requires Queues() && Value().Linked() && s < |sockets|
      modifies `threads, `sockets, `run, runQ
      ensures Queues() && Handled(Value(), ok) == Process.ForwardOut(old(Value()), s, fromFd, io)
    {
      var x := sockets[s];
      match x.txPipe {
        case OsFd(_, _) =>
          SetSocket(s, WriteSocket(x, Taken(io.write, x.tx)));
          EnqueueWrite(s);
        case VkRx(peer) =>
          Splice(peer, s);
          ForwardWake(s, peer, fromFd);
        case VkTx(_) =>
          return false;
      }
      ok := true;
    }

    /** `vk_socket_handle_forward` */
    method HandleForward(s: nat, io: Io) returns (ok: bool)
      requires Valid() && s < |sockets| && Value().Alive(sockets[s].owner)
      modifies `threads, `sockets, `run, runQ, `blocked, blockedQ
      ensures Queues() && Handled(Value(), ok) == Process.HandleForward(old(Value()), s, io)
      ensures old(sockets[s].blockedEnq) ==> unchanged(blockedQ)
    {
      var fromFd := sockets[s].rxPipe.OsFd?;
      ForwardInKeeps(Value(), s, io);
      ok := ForwardIn(s, io);
      if !ok {
        return;
      }
      assert sockets[s].blockedEnq == old(sockets[s].blockedEnq);
      ok := ForwardOut(s, fromFd, io);
      if !ok {
        return;
      }
      HandleBlock(s);
    }

    /** `vk_socket_handle_readhup` */
    method HandleReadHup(s: nat) returns (ok: bool)
      requires Queues() && Value().Linked() && s < |sockets|
      modifies `threads, `sockets, `run, runQ, `blocked, blockedQ
      ensures Queues() && Handled(Value(), ok) == Process.HandleReadHup(old(Value()), s)
      ensures old(sockets[s].blockedEnq) ==> unchanged(blockedQ)
    {
      match sockets[s].rxPipe {
        case OsFd(_, _) =>
          EnqueueRead(s);
        case VkTx(peer) =>
          if sockets[peer].tx.eof {
            ForwardHup(s, peer);
            WakeAfterRead(s, peer);
          }
        case VkRx(_) =>
          return false;
      }
      HandleBlock(s);
      ok := true;
    }

    /** `vk_socket_handle_hup` */
    method HandleHup(s: nat) returns (ok: bool)
      requires Queues() && Value().Linked() && s < |sockets|
      modifies `threads, `sockets, `run, runQ, `blocked, blockedQ
      ensures Queues() && Handled(Value(), ok) == Process.HandleHup(old(Value()), s)
      ensures old(sockets[s].blockedEnq) ==> unchanged(blockedQ)
    {
      match sockets[s].txPipe {
        case OsFd(_, _) =>
          EnqueueWrite(s);
        case VkRx(peer) =>
          if !sockets[s].tx.eof {
            WakeAfterWrite(s, peer);
          }
        case VkTx(_) =>
          return false;
      }
      HandleBlock(s);
      ok := true;
    }

    /** `vk_socket_handle_tx_close` and `vk_socket_handle_tx_shutdown` */
    method HandleTxClose(s: nat, shutdown: bool, io: Io)
      requires Queues() && Value().Linked() && s < |sockets|
      modifies `threads, `sockets, `run, runQ, `blocked, blockedQ
      ensures Queues() && Value() == Process.HandleTxClose(old(Value()), s, shutdown, io)
      ensures old(sockets[s].blockedEnq) ==> unchanged(blockedQ)
    {
      var x := sockets[s];
      if x.txPipe.OsFd? {
        SetSocket(s, CloseTxSocket(x, io.closeFailed));
        EnqueueWrite(s);
      } else if shutdown {
        EnqueueWrite(s);
      } else {
        SetSocket(s, x.(tx := x.tx.MarkEof()));
        WakeAfterWrite(s, x.txPipe.peer);
      }
      HandleBlock(s);
      MarkReady(x.owner);
    }

    /** `vk_socket_handle_rx_close` and `vk_socket_handle_rx_shutdown` */
    method HandleRxClose(s: nat, io: Io)
      requires Queues() && Value().Linked() && s < |sockets|
      modifies `threads, `sockets, `run, runQ, `blocked, blockedQ
      ensures Queues() && Value() == Process.HandleRxClose(old(Value()), s, io)
      ensures old(sockets[s].blockedEnq) ==> unchanged(blockedQ)
    {
      var x := sockets[s];
      if x.rxPipe.OsFd? {
        SetSocket(s, CloseRxSocket(x, io.closeFailed));
      }
      EnqueueRead(s);
      HandleBlock(s);
      MarkReady(x.owner);
    }

    /** A read, and the lazy flush that may follow it. */
    method HandleReadFlush(s: nat, io: Io) returns (ok: bool)
      requires Valid() && s < |sockets| && Value().Alive(sockets[s].owner)
      modifies `threads, `sockets, `run, runQ, `blocked, blockedQ
      ensures Queues() && Handled(Value(), ok) == Process.HandleReadFlush(old(Value()), s, io)
      ensures old(sockets[s].blockedEnq) ==> unchanged(blockedQ)
    {
      HandleReadKeeps(Value(), s, io);
      ok := HandleRead(s, io);
      if ok && LazyFlush(sockets[s]) {
        ok := HandleWrite(s, io);
      }
    }

    /** The operations of `vk_socket_handler` that move bytes. */
    method HandleTransfer(s: nat, io: Io) returns (ok: bool)
      requires Valid() && s < |sockets| && Value().Alive(sockets[s].owner) && Transfers(sockets[s].op)
      modifies `threads, `sockets, `run, runQ, `blocked, blockedQ
      ensures Queues() && Handled(Value(), ok) == Handler(old(Value()), s, io)
      ensures old(sockets[s].blockedEnq) ==> unchanged(blockedQ)
    {
      if sockets[s].op == OpRead {
        ok := HandleReadFlush(s, io);
      } else if sockets[s].op == OpForward {
        ok := HandleForward(s, io);
      } else {
        ok := HandleWrite(s, io);
      }
    }

    /** Those that move an EOF. */
    method HandleEof(s: nat, io: Io) returns (ok: bool)
      requires Valid() && s < |sockets| && (sockets[s].op == OpHup || sockets[s].op == OpReadHup)
      modifies `threads, `sockets, `run, runQ, `blocked, blockedQ
      ensures Queues() && Handled(Value(), ok) == Handler(old(Value()), s, io)
      ensures old(sockets[s].blockedEnq) ==> unchanged(blockedQ)
    {
      if sockets[s].op == OpHup {
        ok := HandleHup(s);
      } else {
        ok := HandleReadHup(s);
      }
    }

    /** `vk_socket_handle_readable` and `vk_socket_handle_writable` */
    method HandleAsk(s: nat)
      requires s < |sockets| && Queues() && (sockets[s].op == OpReadable || sockets[s].op == OpWritable)
      modifies `sockets
      ensures Queues() && forall io :: Handled(Value(), true) == Handler(old(Value()), s, io)
    {
      var x := sockets[s];
      if x.op == OpReadable {
        SetSocket(s, x.(rxPre := x.rxPre.(events := {In}), txPre := x.txPre.(events := {})));
      } else {
        SetSocket(s, x.(txPre := x.txPre.(events := {Out}), rxPre := x.rxPre.(events := {})));
      }
    }

    /** The switch of `vk_socket_handler`. */
    method HandleOp(s: nat, io: Io) returns (ok: bool)
      requires Valid() && s < |sockets| && Value().Alive(sockets[s].owner)
      modifies `threads, `sockets, `run, runQ, `blocked, blockedQ
      ensures Queues() && Handled(Value(), ok) == Handler(old(Value()), s, io)
      ensures old(sockets[s].blockedEnq) ==> unchanged(blockedQ)
    {
      ok := true;
      var op := sockets[s].op;
      if Transfers(op) {
        ok := HandleTransfer(s, io);
      } else if op == OpHup || op == OpReadHup {
        ok := HandleEof(s, io);
      } else if op == OpReadable || op == OpWritable {
        HandleAsk(s);
      } else if op == OpTxClose || op == OpTxShutdown {
        HandleTxClose(s, op == OpTxShutdown, io);
      } else if op != OpNone {
        HandleRxClose(s, io);
      }
    }

    /** `vk_socket_handler` */
    method Handle(s: nat, io: Io) returns (ok: bool)
      requires Valid() && s < |sockets| && Value().Alive(sockets[s].owner)
      modifies `threads, `sockets, `run, runQ, `blocked, blockedQ
      ensures Valid() && Handled(Value(), ok) == Handler(old(Value()), s, io)
      ensures old(sockets[s].blockedEnq) ==> unchanged(blockedQ)
    {
      HandlerKeeps(Value(), s, io);
      ok := HandleOp(s, io);
    }

    // ---- after a poll ----

    /** What was reported unblocks the directions that it concerns. */
    method UnblockSocket(s: nat)
      requires s < |sockets| && Queues()
      modifies `sockets
      ensures Queues() && Value() == old(Value()).SetSocket(s, Unblock(old(sockets[s])))
    {
      var x := sockets[s];
      if x.rxRet.revents * {In, RdHup, Fault} != {} {
        x := x.(rx := x.rx.(rxBlocked := false));
      }
      if x.txRet.revents * {Out, Hup} != {} {
        x := x.(tx := x.tx.(txBlocked := false));
      }
      SetSocket(s, x);
    }

    /** `vk_proc_local_retry_socket`; a walk that stands at the socket can still go on from its link. */
    method RetrySocket(s: nat, io: Io) returns (ok: bool)
      requires Valid() && s in blockedQ.elems
      modifies this, runQ, blockedQ
      ensures Valid() && Handled(Value(), ok) == Retry(old(Value()), s, io)
      ensures forall rest :: old(blockedQ.Cursor(Some(s), rest)) ==> blockedQ.Cursor(Some(s), rest)
    {
      RetryKeeps(Value(), s, io);
      var that := sockets[s].owner;
      SetSocketKeeps(Value(), s, Unblock(sockets[s]));
      UnblockSocket(s);
      ok := Handle(s, io);
      if !ok {
        return;
      }
      DropBlocked(s);
      EnqueueRun(that);
    }

    /** Copy the poll events of a socket's descriptors into its futures. */
    method ApplyPollResult(s: nat, table: seq<Future>, ghost rest: seq<nat>) returns (ok: bool)
      requires s < |sockets| && Queues()
      modifies `sockets
      ensures Queues() && |sockets| == old(|sockets|)
      ensures ApplyPoll(old(Value()), [s] + rest, table)
              == if ok then ApplyPoll(Value(), rest, table) else Handled(Value(), false)
    {
      ghost var p := Value();
      assert ([s] + rest)[1..] == rest;
      var x := sockets[s];
      var rx := Polled(x.rxPre, x.rxRet, table);
      if rx.None? {
        return false;
      }
      var y := x.(rxRet := rx.value);
      SetSocket(s, y);
      var tx := Polled(x.txPre, x.txRet, table);
      if tx.None? {
        return false;
      }
      SetSocket(s, y.(txRet := tx.value));
      assert Value() == p.SetSocket(s, y.(txRet := tx.value));
      ok := true;
    }

    /** The first walk of `vk_proc_postpoll`. */
    method ApplyPollResults(table: seq<Future>) returns (ok: bool)
      requires Valid()
      modifies `sockets
      ensures Valid() && Handled(Value(), ok) == ApplyPoll(old(Value()), old(Value()).blockedQ, table)
    {
      ghost var start := Value();
      ApplyPollKeeps(start, blockedQ.elems, table);
      blockedQ.Start();
      var cursor := blockedQ.first;
      ghost var rest: seq<nat> := blockedQ.elems;
      while cursor.Some?
        invariant Queues() && |sockets| == |start.sockets| && blockedQ.Cursor(cursor, rest)
        invariant forall s :: s in rest ==> s < |sockets|
        invariant ApplyPoll(Value(), rest, table) == ApplyPoll(start, start.blockedQ, table)
        decreases |rest|
      {
        var s := cursor.value;
        blockedQ.Advance(s, rest);
        assert s in rest && rest == [s] + rest[1..] && forall r :: r in rest[1..] ==> r in rest;
        ok := ApplyPollResult(s, table, rest[1..]);
        if !ok {
          return;
        }
        cursor := blockedQ.next[s];
        rest := rest[1..];
      }
      ok := true;
    }

    /** The second walk, which goes on from the link of the socket that it has just taken off the list. */
    method RetrySockets(ios: seq<Io>) returns (ok: bool)
      requires Valid()
      modifies this, runQ, blockedQ
      ensures Valid() && Handled(Value(), ok) == RetryAll(old(Value()), old(Value()).blockedQ, ios)
    {
      ghost var start := Value();
      blockedQ.Start();
      var cursor, answers := blockedQ.first, ios;
      ghost var rest: seq<nat> := blockedQ.elems;
      while cursor.Some?
        invariant Valid() && blockedQ.Cursor(cursor, rest) && rest == blockedQ.elems
        invariant RetryAll(Value(), rest, answers) == RetryAll(start, start.blockedQ, ios)
        decreases |rest|
      {
        var s := cursor.value;
        blockedQ.Advance(s, rest);
        assert s in rest && Without(rest, s) == rest[1..];
        RetryKeeps(Value(), s, IoAt(answers, 0));
        ok := RetrySocket(s, IoAt(answers, 0));
        if !ok {
          return;
        }
        blockedQ.Advance(s, rest);
        cursor := blockedQ.next[s];
        rest := rest[1..];
        answers := if answers == [] then [] else answers[1..];
      }
      ok := true;
    }

    /** `vk_proc_postpoll`: apply the poll results, then retry every blocked socket. */
    method Postpoll(table: seq<Future>, ios: seq<Io>) returns (ok: bool)
      requires Valid()
      modifies this, runQ, blockedQ
      ensures Valid() && Handled(Value(), ok) == Scheduler.Postpoll(old(Value()), table, ios)
      ensures ok ==> blockedQ.elems == []
    {
      NoLostWakeup(Value(), table, ios);
      ok := ApplyPollResults(table);
      if ok {
        ok := RetrySockets(ios);
      }
    }

    // ---- running coroutines ----

    /** `vk_init`: a coroutine and its socket. */
    method Create(rxPipe: Pipe, txPipe: Pipe)
      requires Queues()
      modifies `threads, `sockets
      ensures Queues() && Value() == Created(old(Value()), rxPipe, txPipe)
    {
      CreatedQueued(Value(), rxPipe, txPipe);
      var x := Socket(EMPTY_RING, EMPTY_RING, OpNone, |threads|, rxPipe, txPipe, IDLE, IDLE, IDLE, IDLE, 0, false);
      threads := threads + [Thread(Run, None, false)];
      sockets := sockets + [x];
    }

    /** `vk_pipeline` */
    method Pipeline(parent: nat, child: nat)
      requires Queues() && parent < |sockets| && child < |sockets|
      modifies `sockets
      ensures Queues() && Value() == Piped(old(Value()), parent, child)
    {
      SetSocket(parent, sockets[parent].(txPipe := VkRx(child)));
      SetSocket(child, sockets[child].(rxPipe := VkTx(parent)));
    }

    /** `vk_readhup` inside a body. */
    method TakeHup(s: nat)
      requires Queues() && Value().Linked() && s < |sockets|
      modifies `threads, `sockets, `run, runQ, `blocked, blockedQ
      ensures Queues() && Value() == TakenHup(old(Value()), s)
    {
      var _ := HandleReadHup(s);
      SetSocket(s, sockets[s].(rx := sockets[s].rx.ClearEof()));
    }

    /** Replace the record of a coroutine, all but its mark. */
    method SetThread(t: nat, x: Thread)
      requires t < |threads| && Queues() && x.runEnq == threads[t].runEnq
      modifies `threads
      ensures Queues() && Value() == old(Value()).SetThread(t, x)
    {
      SetThreadQueued(Value(), t, x);
      threads := threads[t := x];
    }

    /** `vk_raise_at` */
    method RaiseAt(t: nat)
      requires Queues() && t < |threads|
      modifies `threads, `run, runQ
      ensures Queues()
      ensures var q := old(Value()).EnqueueRun(t);
              Value() == if q.Alive(t) then q.SetThread(t, q.threads[t].(status := Error)) else q
    {
      EnqueueRun(t);
      if threads[t].status != End {
        SetThread(t, threads[t].(status := Error));
      }
    }

    /** A pipe leads to a descriptor or to a socket that exists. */
    predicate Binds(pipe: Pipe)
      reads this
    {
      pipe.OsFd? || pipe.peer < |sockets|
    }

    /** One step of a coroutine's body. */
    method Act(that: nat, a: Action)
      requires Valid()
      modifies this, runQ, blockedQ
      ensures Valid() && running == old(running) && Value() == Scheduler.Act(old(Value()), that, a)
    {
      ActKeeps(Value(), that, a);
      match a {
        case Play(t) =>
          if t < |threads| {
            EnqueueRun(t);
          }
        case RaiseAt(t) =>
          if t < |threads| {
            RaiseAt(t);
          }
        case Again(s) =>
          if s < |sockets| && sockets[s].owner == that && threads[that].status != End {
            EnqueueBlocked(s);
          }
        case Use(s, rx, tx, op) =>
          if s < |sockets| && sockets[s].owner == that && rx.Valid() && tx.Valid() {
            SetSocket(s, sockets[s].(rx := rx, tx := tx, op := op));
          }
        case ReadHupNow(s) =>
          if s < |sockets| && sockets[s].owner == that && threads[that].status != End {
            TakeHup(s);
          }
        case Create(rxPipe, txPipe) =>
          if Binds(rxPipe) && Binds(txPipe) {
            Create(rxPipe, txPipe);
          }
        case Pipeline(parent, child) =>
          if parent < |sockets| && child < |sockets| {
            Pipeline(parent, child);
          }
        case Rebind(s, rxPipe, txPipe) =>
          if s < |sockets| && Binds(rxPipe) && Binds(txPipe) {
            SetSocket(s, sockets[s].(rxPipe := rxPipe, txPipe := txPipe));
          }
      }
    }

    /** How a coroutine yields. */
    method Leave(that: nat, exit: Exit)
      requires Queues() && that < |threads|
      modifies this, runQ
      ensures Queues() && running == old(running) && Value() == Scheduler.Leave(old(Value()), that, exit)
    {
      match exit {
        case Pause =>
          SetThread(that, threads[that].(status := Yield));
        case Listening =>
          SetThread(that, threads[that].(status := Listen));
        case WaitOn(s) =>
          if s < |sockets| {
            SetSocket(s, sockets[s].(owner := that));
            SetThread(that, threads[that].(status := Wait, waiting := Some(s)));
          } else {
            SetThread(that, threads[that].(status := Wait, waiting := None));
          }
        case Raise =>
          EnqueueRun(that);
          SetThread(that, threads[that].(status := Error));
        case Lower =>
          SetThread(that, threads[that].(status := Run));
        case Finish =>
          SetThread(that, threads[that].(status := End));
      }
    }

    /** One call of a coroutine's function. */
    method CallThread(that: nat, turn: Turn)
      requires Valid() && that < |threads|
      modifies this, runQ, blockedQ
      ensures Queues() && running == old(running) && Value() == Call(old(Value()), that, turn)
    {
      var t := threads[that];
      EnterKeeps(Value(), that);
      SetThread(that, t.(status := if t.status == Error then Run else t.status, waiting := None));
      ghost var entered := Value();
      var actions := turn.actions;
      while actions != []
        invariant Valid() && running == old(running) && |threads| >= old(|threads|)
        invariant Acts(Value(), that, actions) == Acts(entered, that, turn.actions)
        decreases |actions|
      {
        Act(that, actions[0]);
        actions := actions[1..];
      }
      Leave(that, turn.exit);
    }

    /** Take an ended coroutine and its sockets off the queues. */
    method ReapThread(that: nat)
      requires Queues() && that < |threads|
      modifies this, runQ, blockedQ
      ensures Queues() && running == old(running) && Value() == Reap(old(Value()), that)
    {
      DropBlockedFor(that);
      if threads[that].runEnq {
        DropRun(that);
      }
    }

    /** `vk_unblock` */
    method UnblockThread(that: nat, io: Io) returns (ok: bool)
      requires Valid() && that < |threads|
      requires threads[that].status == Wait && threads[that].waiting.Some? ==>
                 var s := threads[that].waiting.value; s < |sockets| && sockets[s].owner == that
      modifies this, runQ, blockedQ
      ensures Valid() && running == old(running)
      ensures Handled(Value(), ok) == TryUnblock(old(Value()), that, io)
    {
      if threads[that].status == Wait {
        match threads[that].waiting {
          case Some(s) => ok := Handle(s, io);
          case None => ok := false;
        }
      } else {
        ok := true;
      }
    }

    /** What follows a call: reap an ended coroutine, or apply the operation of a waiting one. */
    method AfterCall(that: nat, ghost before: Local, turn: Turn) returns (ok: bool)
      requires before.Inv() && that < |before.threads| && Value() == Call(before, that, turn) && Queues()
      modifies this, runQ, blockedQ
      ensures running == old(running)
      ensures Valid() && Handled(Value(), ok) == TurnOf(before, that, turn)
    {
      CallKeeps(before, that, turn);
      TurnKeeps(before, that, turn);
      if threads[that].status == End {
        ReapThread(that);
        ok := true;
      } else {
        if threads[that].status == Wait && threads[that].waiting.Some? {
          WaiterOwns(before, that, turn);
        }
        ok := UnblockThread(that, turn.io);
      }
    }

    /** One turn of the inner loop, during which the coroutine is the running one. */
    method TurnThread(that: nat, turn: Turn) returns (ok: bool)
      requires Valid() && running == None && that < |threads|
      modifies this, runQ, blockedQ
      ensures Valid() && running == None && Handled(Value(), ok) == TurnOf(old(Value()), that, turn)
    {
      ghost var before := Value();
      running := Some(that);
      CallThread(that, turn);
      running := None;
      ok := AfterCall(that, before, turn);
    }

    /** After the inner loop a yielding coroutine is made ready again. */
    method SettleThread(that: nat)
      requires Valid() && that < |threads|
      modifies `threads
      ensures Valid() && Value() == Settle(old(Value()), that)
    {
      SettleKeeps(Value(), that);
      if threads[that].status == Yield {
        MarkReady(that);
      }
    }

    /** The inner loop of `vk_proc_local_execute`: run one coroutine for as long as it stays ready. */
    method RunThread(that: nat, script: seq<Turn>) returns (stopped: Option<Verdict>, turns: seq<Turn>)
      requires Valid() && running == None && that < |threads|
      modifies this, runQ, blockedQ
      ensures Valid()
      ensures stopped.Some? ==>
                && stopped.value != Finished
                && Scheduler.Execute(old(Value()), Some(that), script) == Outcome(Value(), Some(that), stopped.value)
      ensures stopped.None? ==>
                && running == None
                && Scheduler.Execute(old(Value()), Some(that), script) == Scheduler.Execute(Value(), None, turns)
                && (|turns| < |script| || (|turns| == |script| && runQ.elems == old(runQ.elems)))
    {
      ghost var start := Value();
      turns := script;
      while threads[that].status.IsReady()
        invariant Valid() && running == None && that < |threads|
        invariant Scheduler.Execute(Value(), Some(that), turns) == Scheduler.Execute(start, Some(that), script)
        invariant |turns| < |script| || (turns == script && runQ.elems == start.runQ)
        decreases |turns|
      {
        if turns == [] {
          return Some(Suspended), turns;
        }
        var ok := TurnThread(that, turns[0]);
        if !ok {
          return Some(Failed), turns;
        }
        turns := turns[1..];
      }
      SettleThread(that);
      stopped := None;
    }

    /**
     `vk_proc_local_execute`: run queued coroutines until none is left. Where the script of turns
     ends the run is suspended.
     */
    method Execute(script: seq<Turn>) returns (verdict: Verdict)
      requires Valid() && running == None
      modifies this, runQ, blockedQ
      ensures Valid()
      ensures var r := Scheduler.Execute(old(Value()), None, script); Value() == r.p && verdict == r.verdict
      ensures verdict == Finished ==> runQ.elems == [] && !run && running == None
    {
      ghost var start := Value();
      var turns := script;
      while true
        invariant Valid() && running == None
        invariant Scheduler.Execute(Value(), None, turns) == Scheduler.Execute(start, None, script)
        decreases |turns|, |runQ.elems|
      {
        ghost var p := Value();
        var next := DequeueRun();
        if next.None? {
          return Finished;
        }
        DequeueKeeps(p);
        var stopped;
        stopped, turns := RunThread(next.value, turns);
        if stopped.Some? {
          return stopped.value;
        }
      }
    }
  }
}
