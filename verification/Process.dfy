/**
 The state of one process and the meaning of its operations: coroutines, their sockets and the two
 local queues. Records live in the memory of the process and are addressed by index, as the C
 structures are addressed by pointer. The class `ProcLocal` is proved against these functions.
 */
module Process {
  import opened Machine
  import opened Fifo
  import opened SList

  /** `enum VK_PROC_STAT` */
  datatype Status = Run | Yield | Listen | Wait | Error | End {
    /** `vk_is_ready` */
    predicate IsReady() { Run? || Error? }

    /** `vk_ready` leaves an ended coroutine ended and one that is catching an error catching. */
    function Readied(): Status {
      if End? || Error? then this else Run
    }
  }

  datatype Op =
    | OpNone | OpRead | OpWrite | OpFlush | OpForward | OpHup | OpReadHup | OpReadable | OpWritable
    | OpTxClose | OpRxClose | OpTxShutdown | OpRxShutdown

  datatype PollBit = In | Out | Fault | Hup | RdHup

  /** The parts of a `struct vk_io_future` that a process sees. */
  datatype Future = Future(fd: int, events: set<PollBit>, revents: set<PollBit>, rxClosed: bool, txClosed: bool)

  /** A future as `vk_io_future_init` leaves it. */
  const IDLE: Future := Future(-1, {}, {}, false, false)

  /** `struct vk_pipe`: a descriptor, which may be a listening one, or one ring of a socket in the same process. */
  datatype Pipe = OsFd(fd: nat, listens: bool) | VkRx(peer: nat) | VkTx(peer: nat) {
    /** `vk_pipe_get_fd` */
    function Fd(): int {
      if OsFd? then fd else -1
    }
  }

  datatype Thread = Thread(status: Status, waiting: Option<nat>, runEnq: bool)

  datatype Socket = Socket(
    rx: Fifo,
    tx: Fifo,
    op: Op,
    owner: nat,
    rxPipe: Pipe,
    txPipe: Pipe,
    rxPre: Future,
    txPre: Future,
    rxRet: Future,
    txRet: Future,
    error: nat,
    blockedEnq: bool)

  /** What the system calls of one handler come back with. */
  datatype Io = Io(read: SysRead, write: SysWrite, closeFailed: Option<nat>)

  /** The system stores no more than the room it was given and takes no more than it was shown. */
  function Given(res: SysRead, f: Fifo): (r: SysRead)
    ensures f.ReadAllowed(r)
  {
    if res.ReadBytes? then ReadBytes(res.data[..Min(|res.data|, f.Free())]) else res
  }

  function Taken(res: SysWrite, f: Fifo): (r: SysWrite)
    ensures f.WriteAllowed(r)
  {
    if res.Wrote? then Wrote(Min(res.count, |f.contents|)) else res
  }

  datatype Local = Local(
    run: bool,
    blocked: bool,
    runQ: seq<nat>,
    blockedQ: seq<nat>,
    threads: seq<Thread>,
    sockets: seq<Socket>)
  {
    /** Every index that a record holds leads to a record, and every ring is a ring. */
    predicate Linked() {
      && (forall t :: 0 <= t < |threads| && threads[t].waiting.Some? ==> threads[t].waiting.value < |sockets|)
      && (forall s :: 0 <= s < |sockets| ==> SocketOk(sockets[s]))
    }

    predicate SocketOk(x: Socket) {
      x.rx.Valid() && x.tx.Valid() && x.owner < |threads| && PipeOk(x.rxPipe) && PipeOk(x.txPipe)
    }

    predicate PipeOk(pipe: Pipe) {
      pipe.OsFd? || pipe.peer < |sockets|
    }

    /** The run flag and the marks on coroutines agree with the run queue. */
    predicate RunQueueOk() {
      && (run <==> runQ != [])
      && Distinct(runQ)
      && (forall t :: t in runQ ==> t < |threads|)
      && (forall t :: 0 <= t < |threads| ==> (threads[t].runEnq <==> t in runQ))
    }

    /** The blocked flag and the marks on sockets agree with the blocked queue. */
    predicate BlockedQueueOk() {
      && (blocked <==> blockedQ != [])
      && Distinct(blockedQ)
      && (forall s :: s in blockedQ ==> s < |sockets|)
      && (forall s :: 0 <= s < |sockets| ==> (sockets[s].blockedEnq <==> s in blockedQ))
    }

    predicate Alive(t: nat) {
      t < |threads| && threads[t].status != End
    }

    /** No ended coroutine is on the run queue or owns a socket on the blocked queue. */
    predicate NoneEnded() {
      && (forall t :: t in runQ ==> Alive(t))
      && (forall s :: s in blockedQ && s < |sockets| ==> Alive(sockets[s].owner))
    }

    predicate Queued() {
      RunQueueOk() && BlockedQueueOk()
    }

    predicate Shaped() {
      Linked() && RunQueueOk() && BlockedQueueOk()
    }

    predicate Inv() {
      Shaped() && NoneEnded()
    }

    /** The same records, whatever they hold. */
    predicate SameShape(q: Local) {
      |q.threads| == |threads| && |q.sockets| == |sockets|
    }

    /** These records, and perhaps more of them. */
    predicate Grown(q: Local) {
      |q.threads| >= |threads| && |q.sockets| >= |sockets|
    }

    function SetThread(t: nat, x: Thread): (q: Local)
      ensures SameShape(q)
    {
      if t < |threads| then this.(threads := threads[t := x]) else this
    }

    function SetSocket(s: nat, x: Socket): (q: Local)
      ensures SameShape(q)
    {
      if s < |sockets| then this.(sockets := sockets[s := x]) else this
    }

    function Ready(t: nat): (q: Local)
      ensures SameShape(q)
    {
      if t < |threads| then SetThread(t, threads[t].(status := threads[t].status.Readied())) else this
    }

    /** A coroutine that has not ended goes to the head of the run queue, at most once. */
    function EnqueueRun(t: nat): (q: Local)
      ensures SameShape(q)
    {
      var p := Ready(t);
      if t < |p.threads| && p.threads[t].status.IsReady() && !p.threads[t].runEnq then
        p.SetThread(t, p.threads[t].(runEnq := true)).(run := true, runQ := [t] + runQ)
      else p
    }

    function EnqueueBlocked(s: nat): (q: Local)
      ensures SameShape(q)
    {
      if s >= |sockets| || sockets[s].blockedEnq then this
      else SetSocket(s, sockets[s].(blockedEnq := true)).(blocked := true, blockedQ := [s] + blockedQ)
    }

    function DropRun(t: nat): (q: Local)
      requires t < |threads|
      ensures SameShape(q)
    {
      var q := if threads[t].runEnq then Without(runQ, t) else runQ;
      SetThread(t, threads[t].(runEnq := false)).(runQ := q, run := run && q != [])
    }

    function DropBlocked(s: nat): (q: Local)
      requires s < |sockets|
      ensures SameShape(q)
    {
      var q := if sockets[s].blockedEnq then Without(blockedQ, s) else blockedQ;
      SetSocket(s, sockets[s].(blockedEnq := false)).(blockedQ := q, blocked := blocked && q != [])
    }

    function SetRx(s: nat, rx: Fifo): (q: Local)
      ensures SameShape(q)
    {
      if s < |sockets| then SetSocket(s, sockets[s].(rx := rx)) else this
    }

    function SetTx(s: nat, tx: Fifo): (q: Local)
      ensures SameShape(q)
    {
      if s < |sockets| then SetSocket(s, sockets[s].(tx := tx)) else this
    }

    /** `vk_socket_enqueue_read` */
    function EnqueueRead(s: nat): (q: Local)
      ensures SameShape(q)
    {
      if s < |sockets| && sockets[s].rx.effect then
        SetRx(s, sockets[s].rx.(effect := false)).Ready(sockets[s].owner)
      else this
    }

    /** `vk_socket_enqueue_write` */
    function EnqueueWrite(s: nat): (q: Local)
      ensures SameShape(q)
    {
      if s < |sockets| && sockets[s].tx.effect then
        SetTx(s, sockets[s].tx.(effect := false)).Ready(sockets[s].owner)
      else this
    }

    /** Run the owner of socket `peer`, then make the owner of socket `s` ready. */
    function WakePeer(s: nat, peer: nat): (q: Local)
      requires s < |sockets| && peer < |sockets|
      ensures SameShape(q)
    {
      EnqueueRun(sockets[peer].owner).Ready(sockets[peer].owner).Ready(sockets[s].owner)
    }

    /** `vk_socket_enqueue_readwriter`: the writer of our reads. */
    function EnqueueReadWriter(s: nat, peer: nat): (q: Local)
      requires s < |sockets|
      ensures SameShape(q)
    {
      if peer < |sockets| && sockets[peer].tx.effect then
        SetTx(peer, sockets[peer].tx.(effect := false)).WakePeer(s, peer)
      else this
    }

    /** `vk_socket_enqueue_writereader`: the reader of our writes. */
    function EnqueueWriteReader(s: nat, peer: nat): (q: Local)
      requires s < |sockets|
      ensures SameShape(q)
    {
      if peer < |sockets| && sockets[peer].rx.effect then
        SetRx(peer, sockets[peer].rx.(effect := false)).WakePeer(s, peer)
      else this
    }

    /** `vk_socket_handle_block` */
    function HandleBlock(s: nat): (q: Local)
      requires s < |sockets|
      ensures SameShape(q)
    {
      var q := SetSocket(s, BlockFutures(sockets[s]));
      if MustPoll(sockets[s]) then q.EnqueueBlocked(s) else q
    }

    /** `vk_vectoring_splice` between a reader's rx ring and a writer's tx ring. */
    function Spliced(reader: nat, writer: nat): (q: Local)
      ensures SameShape(q)
    {
      if reader < |sockets| && writer < |sockets| then
        var rx, tx := sockets[reader].rx, sockets[writer].tx;
        SetRx(reader, SpliceRx(rx, tx, -1)).SetTx(writer, SpliceTx(rx, tx, -1))
      else this
    }
  }

  /** A handler's outcome: the state it leaves, and whether it succeeded. */
  datatype Handled = Handled(p: Local, ok: bool)

  /** The IO futures that `vk_socket_handle_block` writes. */
  function BlockFutures(x: Socket): Socket {
    x.(rxPre := x.rxPre.(
         fd := x.rxPipe.Fd(),
         rxClosed := if x.rxPipe.OsFd? && x.rx.closed then true else x.rxPre.rxClosed,
         events := if x.rxPipe.OsFd? && x.rx.rxBlocked then {In} else {}),
       txPre := x.txPre.(
         fd := x.txPipe.Fd(),
         txClosed := if x.txPipe.OsFd? && x.tx.closed then true else x.txPre.txClosed,
         events := if x.txPipe.OsFd? && x.tx.txBlocked then {Out} else {}))
  }

  /** The socket waits for the poller: one of its descriptors has blocked. */
  predicate MustPoll(x: Socket) {
    (x.rxPipe.OsFd? && x.rx.rxBlocked) || (x.txPipe.OsFd? && x.tx.txBlocked)
  }

  /**
   The socket after a read that came back with `res`. On failure the ring keeps the `errno` and clears it,
   so that the socket's own error becomes zero.
   */
  function ReadSocket(x: Socket, res: SysRead): Socket {
    x.(rx := x.rx.ReadFd(res), error := if res.ReadFailed? then 0 else x.error)
  }

  /** The socket after an accept; no connection is taken while its record does not fit. */
  function AcceptSocket(x: Socket, res: SysRead): Socket {
    x.(rx := x.rx.AcceptFd(res), error := if res.ReadFailed? && x.rx.Free() >= ACCEPTED_SIZE then 0 else x.error)
  }

  /** The socket after it took what a descriptor had to give: a connection or bytes. */
  function Incoming(x: Socket, listens: bool, res: SysRead): Socket {
    if listens then AcceptSocket(x, res) else ReadSocket(x, Given(res, x.rx))
  }

  function WriteSocket(x: Socket, res: SysWrite): Socket
    requires x.tx.WriteAllowed(res)
  {
    x.(tx := x.tx.WriteFd(res), error := if res.WriteFailed? && !x.tx.txBlocked then 0 else x.error)
  }

  /** The socket after its read side or its write side was closed or shut down. */
  function CloseRxSocket(x: Socket, failed: Option<nat>): Socket {
    x.(rx := x.rx.CloseFd(failed), error := if failed.Some? then 0 else x.error)
  }

  function CloseTxSocket(x: Socket, failed: Option<nat>): Socket {
    x.(tx := x.tx.CloseFd(failed), error := if failed.Some? then 0 else x.error)
  }

  /** `vk_socket_handle_read` */
  function HandleRead(p: Local, s: nat, io: Io): (r: Handled)
    requires s < |p.sockets|
    ensures p.SameShape(r.p)
  {
    var x := p.sockets[s];
    match x.rxPipe
    case OsFd(_, listens) =>
      Handled(p.SetSocket(s, Incoming(x, listens, io.read)).EnqueueRead(s).HandleBlock(s), true)
    case VkTx(peer) =>
      Handled(p.Spliced(s, peer).EnqueueRead(s).EnqueueReadWriter(s, peer).HandleBlock(s), true)
    case VkRx(_) => Handled(p.HandleBlock(s), false)
  }

  /** `vk_socket_handle_write` */
  function HandleWrite(p: Local, s: nat, io: Io): (r: Handled)
    requires s < |p.sockets|
    ensures p.SameShape(r.p)
  {
    var x := p.sockets[s];
    match x.txPipe
    case OsFd(_, _) =>
      Handled(p.SetSocket(s, WriteSocket(x, Taken(io.write, x.tx))).EnqueueWrite(s).HandleBlock(s), true)
    case VkRx(peer) =>
      Handled(p.Spliced(peer, s).EnqueueWrite(s).EnqueueWriteReader(s, peer).HandleBlock(s), true)
    case VkTx(_) => Handled(p.HandleBlock(s), false)
  }

  /** The read half of `vk_socket_handle_forward`. */
  function ForwardIn(p: Local, s: nat, io: Io): (r: Handled)
    requires s < |p.sockets|
    ensures p.SameShape(r.p)
  {
    var x := p.sockets[s];
    match x.rxPipe
    case OsFd(_, _) => Handled(p.SetSocket(s, Incoming(x, false, io.read)).EnqueueRead(s), true)
    case VkTx(peer) => Handled(p.Spliced(s, peer).EnqueueRead(s).EnqueueReadWriter(s, peer), true)
    case VkRx(_) => Handled(p, false)
  }

  /**
   The write half. Behind a descriptor a virtual reader is only woken while it is blocked; `fromFd` tells
   whether the read half was one.
   */
  function ForwardOut(p: Local, s: nat, fromFd: bool, io: Io): (r: Handled)
    requires s < |p.sockets|
    ensures p.SameShape(r.p)
  {
    var x := p.sockets[s];
    match x.txPipe
    case OsFd(_, _) => Handled(p.SetSocket(s, WriteSocket(x, Taken(io.write, x.tx))).EnqueueWrite(s), true)
    case VkRx(peer) =>
      var q := p.Spliced(peer, s).EnqueueWrite(s);
      if !fromFd then Handled(q.EnqueueWriteReader(s, peer), true)
      else if peer < |q.sockets| && q.sockets[peer].rx.rxBlocked then
        Handled(q.EnqueueWriteReader(s, peer).EnqueueRun(q.sockets[peer].owner), true)
      else Handled(q, true)
    case VkTx(_) => Handled(p, false)
  }

  /** `vk_socket_handle_forward` */
  function HandleForward(p: Local, s: nat, io: Io): (r: Handled)
    requires s < |p.sockets|
    ensures p.SameShape(r.p)
  {
    var a := ForwardIn(p, s, io);
    if !a.ok then a
    else
      var b := ForwardOut(a.p, s, p.sockets[s].rxPipe.OsFd?, io);
      if b.ok then Handled(b.p.HandleBlock(s), true) else b
  }

  /** `vk_socket_handle_tx_close`; over a virtual pipe it leaves an EOF, and a shutdown leaves nothing. */
  function HandleTxClose(p: Local, s: nat, shutdown: bool, io: Io): (q: Local)
    requires s < |p.sockets|
    ensures p.SameShape(q)
  {
    var x := p.sockets[s];
    var a :=
      if x.txPipe.OsFd? then p.SetSocket(s, CloseTxSocket(x, io.closeFailed)).EnqueueWrite(s)
      else if shutdown then p.EnqueueWrite(s)
      else p.SetTx(s, x.tx.MarkEof()).EnqueueWrite(s).EnqueueWriteReader(s, x.txPipe.peer);
    a.HandleBlock(s).Ready(x.owner)
  }

  /** `vk_socket_handle_rx_close` and `vk_socket_handle_rx_shutdown` */
  function HandleRxClose(p: Local, s: nat, io: Io): (q: Local)
    requires s < |p.sockets|
    ensures p.SameShape(q)
  {
    var x := p.sockets[s];
    var a := if x.rxPipe.OsFd? then p.SetSocket(s, CloseRxSocket(x, io.closeFailed)) else p;
    a.EnqueueRead(s).HandleBlock(s).Ready(x.owner)
  }

  /** `vk_vectoring_forwardhup` from the writer's ring to the reader's. */
  function ForwardedHup(p: Local, reader: nat, writer: nat): (q: Local)
    requires reader < |p.sockets| && writer < |p.sockets|
    ensures p.SameShape(q)
  {
    p.SetTx(writer, p.sockets[writer].tx.ClearEof()).SetRx(reader, p.sockets[reader].rx.MarkEof())
  }

  /** `vk_socket_handle_readhup`: take the EOF off the writer's ring and wake the writer. */
  function HandleReadHup(p: Local, s: nat): (r: Handled)
    requires s < |p.sockets|
    ensures p.SameShape(r.p)
  {
    match p.sockets[s].rxPipe
    case OsFd(_, _) => Handled(p.EnqueueRead(s).HandleBlock(s), true)
    case VkTx(peer) =>
      if peer < |p.sockets| && p.sockets[peer].tx.eof then
        Handled(ForwardedHup(p, s, peer).EnqueueRead(s).EnqueueReadWriter(s, peer).HandleBlock(s), true)
      else Handled(p.HandleBlock(s), true)
    case VkRx(_) => Handled(p, false)
  }

  /** `vk_socket_handle_hup`: nobody is woken while the EOF is still there. */
  function HandleHup(p: Local, s: nat): (r: Handled)
    requires s < |p.sockets|
    ensures p.SameShape(r.p)
  {
    match p.sockets[s].txPipe
    case OsFd(_, _) => Handled(p.EnqueueWrite(s).HandleBlock(s), true)
    case VkRx(peer) =>
      if !p.sockets[s].tx.eof then
        Handled(p.EnqueueWrite(s).EnqueueWriteReader(s, peer).HandleBlock(s), true)
      else Handled(p.HandleBlock(s), true)
    case VkTx(_) => Handled(p, false)
  }

  /** Reading is stuck but bytes wait to be sent: flush them to unblock the other side. */
  predicate LazyFlush(x: Socket) {
    x.rx.rxBlocked && !x.tx.txBlocked && x.tx.contents != []
  }

  /** A read, and the lazy flush that may follow it. */
  function HandleReadFlush(p: Local, s: nat, io: Io): (r: Handled)
    requires s < |p.sockets|
    ensures p.SameShape(r.p)
  {
    var r := HandleRead(p, s, io);
    if r.ok && LazyFlush(r.p.sockets[s]) then HandleWrite(r.p, s, io) else r
  }

  /** `vk_socket_handler` */
  function Handler(p: Local, s: nat, io: Io): (r: Handled)
    requires s < |p.sockets|
    ensures p.SameShape(r.p)
  {
    var x := p.sockets[s];
    match x.op
    case OpNone => Handled(p, true)
    case OpFlush => HandleWrite(p, s, io)
    case OpWrite => HandleWrite(p, s, io)
    case OpRead => HandleReadFlush(p, s, io)
    case OpForward => HandleForward(p, s, io)
    case OpHup => HandleHup(p, s)
    case OpReadHup => HandleReadHup(p, s)
    case OpTxClose => Handled(HandleTxClose(p, s, false, io), true)
    case OpRxClose => Handled(HandleRxClose(p, s, io), true)
    case OpTxShutdown => Handled(HandleTxClose(p, s, true, io), true)
    case OpRxShutdown => Handled(HandleRxClose(p, s, io), true)
    case OpReadable =>
      Handled(p.SetSocket(s, x.(rxPre := x.rxPre.(events := {In}), txPre := x.txPre.(events := {}))), true)
    case OpWritable =>
      Handled(p.SetSocket(s, x.(txPre := x.txPre.(events := {Out}), rxPre := x.rxPre.(events := {}))), true)
  }

  /** What any number of steps by handlers may do: nothing is lost, nobody ends, nobody stops being ready. */
  ghost predicate Progress(p: Local, q: Local) {
    && |q.threads| == |p.threads| && |q.sockets| == |p.sockets|
    && (forall t :: 0 <= t < |p.threads| ==> (q.threads[t].status == End <==> p.threads[t].status == End))
    && (forall t :: 0 <= t < |p.threads| && p.threads[t].status.IsReady() ==> q.threads[t].status.IsReady())
    && (forall t :: 0 <= t < |p.threads| ==> q.threads[t].waiting == p.threads[t].waiting)
    && (forall t :: t in p.runQ ==> t in q.runQ)
    && (forall s :: 0 <= s < |p.sockets| ==> SamePlace(p.sockets[s], q.sockets[s]))
  }

  predicate SamePlace(x: Socket, y: Socket) {
    x.owner == y.owner && x.op == y.op && x.rxPipe == y.rxPipe && x.txPipe == y.txPipe
  }

  /** What keeps the queues sound: every step below is shown to keep the invariant and the progress. */
  ghost predicate Keeps(p: Local, q: Local) {
    q.Inv() && Progress(p, q)
  }

  lemma {:induction false} KeepsTrans(p: Local, q: Local, r: Local)
    requires Keeps(p, q) && Keeps(q, r)
    ensures Keeps(p, r)
  {
  }

  lemma {:induction false} ReadyKeeps(p: Local, t: nat)
    requires p.Inv()
    ensures Keeps(p, p.Ready(t))
  {
  }

  lemma {:induction false} InsertRunKeeps(p: Local, t: nat)
    requires p.Inv() && p.Alive(t) && !p.threads[t].runEnq
    ensures Keeps(p, p.SetThread(t, p.threads[t].(runEnq := true)).(run := true, runQ := [t] + p.runQ))
  {
    DistinctCons(t, p.runQ);
  }

  // ---- the queues alone ----

  lemma {:induction false} ReadyQueued(p: Local, t: nat)
    requires p.Queued()
    ensures p.Ready(t).Queued()
  {
  }

  lemma {:induction false} EnqueueRunQueued(p: Local, t: nat)
    requires p.Queued()
    ensures p.EnqueueRun(t).Queued()
  {
    ReadyQueued(p, t);
    var q := p.Ready(t);
    if t < |q.threads| && q.threads[t].status.IsReady() && !q.threads[t].runEnq {
      DistinctCons(t, q.runQ);
    }
  }

  lemma {:induction false} EnqueueBlockedQueued(p: Local, s: nat)
    requires p.Queued()
    ensures p.EnqueueBlocked(s).Queued()
  {
    if s < |p.sockets| && !p.sockets[s].blockedEnq {
      DistinctCons(s, p.blockedQ);
    }
  }

  lemma {:induction false} DropRunQueued(p: Local, t: nat)
    requires p.Queued() && t < |p.threads|
    ensures p.DropRun(t).Queued()
  {
    WithoutMembers(p.runQ, t);
  }

  lemma {:induction false} DropBlockedQueued(p: Local, s: nat)
    requires p.Queued() && s < |p.sockets|
    ensures p.DropBlocked(s).Queued()
  {
    WithoutMembers(p.blockedQ, s);
  }

  lemma {:induction false} SetSocketQueued(p: Local, s: nat, x: Socket)
    requires p.Queued() && (s < |p.sockets| ==> x.blockedEnq == p.sockets[s].blockedEnq)
    ensures p.SetSocket(s, x).Queued()
  {
  }

  lemma {:induction false} SetThreadQueued(p: Local, t: nat, x: Thread)
    requires p.Queued() && (t < |p.threads| ==> x.runEnq == p.threads[t].runEnq)
    ensures p.SetThread(t, x).Queued()
  {
  }

  /** Afterwards a coroutine that has not ended is on the queue and ready. */
  lemma {:induction false} EnqueueRunKeeps(p: Local, t: nat)
    requires p.Inv()
    ensures Keeps(p, p.EnqueueRun(t))
    ensures p.Alive(t) ==> t in p.EnqueueRun(t).runQ && p.EnqueueRun(t).threads[t].status.IsReady()
    ensures p.EnqueueRun(t).blockedQ == p.blockedQ && p.EnqueueRun(t).sockets == p.sockets
  {
    var q := p.Ready(t);
    ReadyKeeps(p, t);
    if q.Alive(t) && !q.threads[t].runEnq {
      InsertRunKeeps(q, t);
      KeepsTrans(p, q, p.EnqueueRun(t));
    }
  }

  lemma {:induction false} EnqueueBlockedKeeps(p: Local, s: nat)
    requires p.Inv() && s < |p.sockets| && p.Alive(p.sockets[s].owner)
    ensures Keeps(p, p.EnqueueBlocked(s)) && s in p.EnqueueBlocked(s).blockedQ
  {
    if s !in p.blockedQ {
      DistinctCons(s, p.blockedQ);
    }
  }

  lemma {:induction false} DropRunKeeps(p: Local, t: nat)
    requires p.Shaped() && t < |p.threads|
    ensures p.DropRun(t).Shaped()
    ensures p.DropRun(t).runQ == Without(p.runQ, t)
    ensures forall u :: u in p.DropRun(t).runQ <==> u in p.runQ && u != t
  {
    WithoutMembers(p.runQ, t);
  }

  lemma {:induction false} DropBlockedKeeps(p: Local, s: nat)
    requires p.Shaped() && s < |p.sockets|
    ensures p.DropBlocked(s).Shaped() && Progress(p, p.DropBlocked(s))
    ensures p.Inv() ==> p.DropBlocked(s).Inv()
    ensures p.DropBlocked(s).blockedQ == Without(p.blockedQ, s)
    ensures forall r :: r in p.DropBlocked(s).blockedQ <==> r in p.blockedQ && r != s
    ensures p.DropBlocked(s).runQ == p.runQ && p.DropBlocked(s).threads == p.threads
  {
    WithoutMembers(p.blockedQ, s);
    var q := p.DropBlocked(s);
    assert q.Linked() && q.RunQueueOk();
  }

  /** Changing a socket's rings, futures or error keeps the queues. */
  lemma {:induction false} SetSocketKeeps(p: Local, s: nat, x: Socket)
    requires p.Inv() && s < |p.sockets| && SamePlace(p.sockets[s], x) && x.blockedEnq == p.sockets[s].blockedEnq
    requires x.rx.Valid() && x.tx.Valid()
    ensures Keeps(p, p.SetSocket(s, x))
  {
  }

  lemma {:induction false} EnqueueReadKeeps(p: Local, s: nat)
    requires p.Inv() && s < |p.sockets|
    ensures Keeps(p, p.EnqueueRead(s))
    ensures p.EnqueueRead(s).runQ == p.runQ && p.EnqueueRead(s).blockedQ == p.blockedQ
  {
    if p.sockets[s].rx.effect {
      var x := p.sockets[s].(rx := p.sockets[s].rx.(effect := false));
      SetSocketKeeps(p, s, x);
      ReadyKeeps(p.SetSocket(s, x), p.sockets[s].owner);
      KeepsTrans(p, p.SetSocket(s, x), p.EnqueueRead(s));
    }
  }

  lemma {:induction false} EnqueueWriteKeeps(p: Local, s: nat)
    requires p.Inv() && s < |p.sockets|
    ensures Keeps(p, p.EnqueueWrite(s))
    ensures p.EnqueueWrite(s).runQ == p.runQ && p.EnqueueWrite(s).blockedQ == p.blockedQ
  {
    if p.sockets[s].tx.effect {
      var x := p.sockets[s].(tx := p.sockets[s].tx.(effect := false));
      SetSocketKeeps(p, s, x);
      ReadyKeeps(p.SetSocket(s, x), p.sockets[s].owner);
      KeepsTrans(p, p.SetSocket(s, x), p.EnqueueWrite(s));
    }
  }

  /** A wakeup puts a peer that has not ended on the run queue and leaves both owners ready. */
  lemma {:induction false} WakePeerKeeps(p: Local, s: nat, peer: nat)
    requires p.Inv() && s < |p.sockets| && peer < |p.sockets|
    ensures var q := p.WakePeer(s, peer);
            && Keeps(p, q) && q.blockedQ == p.blockedQ && q.sockets == p.sockets
            && (p.Alive(p.sockets[peer].owner) ==> p.sockets[peer].owner in q.runQ)
            && (p.Alive(p.sockets[s].owner) ==> q.threads[p.sockets[s].owner].status.IsReady())
  {
    var a := p.EnqueueRun(p.sockets[peer].owner);
    EnqueueRunKeeps(p, p.sockets[peer].owner);
    var b := a.Ready(p.sockets[peer].owner);
    ReadyKeeps(a, p.sockets[peer].owner);
    ReadyKeeps(b, p.sockets[s].owner);
    KeepsTrans(p, a, b);
    KeepsTrans(p, b, p.WakePeer(s, peer));
  }

  lemma {:induction false} EnqueueReadWriterKeeps(p: Local, s: nat, peer: nat)
    requires p.Inv() && s < |p.sockets| && peer < |p.sockets|
    ensures var q := p.EnqueueReadWriter(s, peer); Keeps(p, q) && q.blockedQ == p.blockedQ
  {
    if p.sockets[peer].tx.effect {
      var x := p.sockets[peer].(tx := p.sockets[peer].tx.(effect := false));
      SetSocketKeeps(p, peer, x);
      WakePeerKeeps(p.SetSocket(peer, x), s, peer);
      KeepsTrans(p, p.SetSocket(peer, x), p.EnqueueReadWriter(s, peer));
    }
  }

  lemma {:induction false} EnqueueWriteReaderKeeps(p: Local, s: nat, peer: nat)
    requires p.Inv() && s < |p.sockets| && peer < |p.sockets|
    ensures var q := p.EnqueueWriteReader(s, peer); Keeps(p, q) && q.blockedQ == p.blockedQ
  {
    if p.sockets[peer].rx.effect {
      var x := p.sockets[peer].(rx := p.sockets[peer].rx.(effect := false));
      SetSocketKeeps(p, peer, x);
      WakePeerKeeps(p.SetSocket(peer, x), s, peer);
      KeepsTrans(p, p.SetSocket(peer, x), p.EnqueueWriteReader(s, peer));
    }
  }

  /** The only socket that a handler can newly block is its own. */
  ghost predicate BlocksOnly(p: Local, q: Local, s: nat) {
    q.blockedQ == p.blockedQ || (s !in p.blockedQ && q.blockedQ == [s] + p.blockedQ)
  }

  /** A descriptor that blocked is on the blocked queue afterwards. */
  lemma {:induction false} HandleBlockKeeps(p: Local, s: nat)
    requires p.Inv() && s < |p.sockets| && p.Alive(p.sockets[s].owner)
    ensures var q := p.HandleBlock(s); Keeps(p, q) && BlocksOnly(p, q, s) && q.runQ == p.runQ && q.threads == p.threads
    ensures MustPoll(p.sockets[s]) ==> s in p.HandleBlock(s).blockedQ
  {
    var q := p.SetSocket(s, BlockFutures(p.sockets[s]));
    SetSocketKeeps(p, s, BlockFutures(p.sockets[s]));
    if MustPoll(p.sockets[s]) {
      EnqueueBlockedKeeps(q, s);
      KeepsTrans(p, q, p.HandleBlock(s));
    }
  }

  /**
   Blocking asks the poller for the direction that is blocked and for nothing else, and the socket
   joins the blocked queue exactly when there is something to ask.
   */
  lemma {:induction false} HandleBlockAsks(p: Local, s: nat)
    requires p.Inv() && s < |p.sockets| && s !in p.blockedQ
    ensures var q, x, y := p.HandleBlock(s), p.sockets[s], p.HandleBlock(s).sockets[s];
      && y.rxPre.events <= {In} && y.txPre.events <= {Out}
      && (In in y.rxPre.events <==> y.rxPre.fd != -1 && x.rx.rxBlocked)
      && (Out in y.txPre.events <==> y.txPre.fd != -1 && x.tx.txBlocked)
      && (s in q.blockedQ <==> y.rxPre.events + y.txPre.events != {})
  {
    assert p.HandleBlock(s).blockedQ == if MustPoll(p.sockets[s]) then [s] + p.blockedQ else p.blockedQ;
    assert In in {In} && Out in {Out};
  }

  lemma {:induction false} SetRingsKeeps(p: Local, reader: nat, writer: nat, rx: Fifo, tx: Fifo)
    requires p.Inv() && reader < |p.sockets| && writer < |p.sockets| && rx.Valid() && tx.Valid()
    ensures var q := p.SetRx(reader, rx).SetTx(writer, tx); Keeps(p, q) && q.runQ == p.runQ && q.blockedQ == p.blockedQ
  {
    SetSocketKeeps(p, reader, p.sockets[reader].(rx := rx));
    var q := p.SetRx(reader, rx);
    SetSocketKeeps(q, writer, q.sockets[writer].(tx := tx));
    KeepsTrans(p, q, q.SetTx(writer, tx));
  }

  /** The steps after a reader's ring operation. */
  lemma {:induction false} ReadTailKeeps(p: Local, s: nat, peer: nat)
    requires p.Inv() && s < |p.sockets| && peer < |p.sockets| && p.Alive(p.sockets[s].owner)
    ensures var q := p.EnqueueRead(s).EnqueueReadWriter(s, peer).HandleBlock(s); Keeps(p, q) && BlocksOnly(p, q, s)
  {
    var a := p.EnqueueRead(s);
    EnqueueReadKeeps(p, s);
    var b := a.EnqueueReadWriter(s, peer);
    EnqueueReadWriterKeeps(a, s, peer);
    KeepsTrans(p, a, b);
    HandleBlockKeeps(b, s);
    KeepsTrans(p, b, b.HandleBlock(s));
  }

  lemma {:induction false} WriteTailKeeps(p: Local, s: nat, peer: nat)
    requires p.Inv() && s < |p.sockets| && peer < |p.sockets| && p.Alive(p.sockets[s].owner)
    ensures var q := p.EnqueueWrite(s).EnqueueWriteReader(s, peer).HandleBlock(s); Keeps(p, q) && BlocksOnly(p, q, s)
  {
    var a := p.EnqueueWrite(s);
    EnqueueWriteKeeps(p, s);
    var b := a.EnqueueWriteReader(s, peer);
    EnqueueWriteReaderKeeps(a, s, peer);
    KeepsTrans(p, a, b);
    HandleBlockKeeps(b, s);
    KeepsTrans(p, b, b.HandleBlock(s));
  }

  lemma {:induction false} FdTailKeeps(p: Local, s: nat)
    requires p.Inv() && s < |p.sockets| && p.Alive(p.sockets[s].owner)
    ensures var q := p.EnqueueRead(s).HandleBlock(s); Keeps(p, q) && BlocksOnly(p, q, s)
    ensures var q := p.EnqueueWrite(s).HandleBlock(s); Keeps(p, q) && BlocksOnly(p, q, s)
  {
    EnqueueReadKeeps(p, s);
    HandleBlockKeeps(p.EnqueueRead(s), s);
    KeepsTrans(p, p.EnqueueRead(s), p.EnqueueRead(s).HandleBlock(s));
    EnqueueWriteKeeps(p, s);
    HandleBlockKeeps(p.EnqueueWrite(s), s);
    KeepsTrans(p, p.EnqueueWrite(s), p.EnqueueWrite(s).HandleBlock(s));
  }

  lemma {:induction false} SplicedKeeps(p: Local, reader: nat, writer: nat)
    requires p.Inv() && reader < |p.sockets| && writer < |p.sockets|
    ensures var q := p.Spliced(reader, writer); Keeps(p, q) && q.runQ == p.runQ && q.blockedQ == p.blockedQ
  {
    var rx, tx := p.sockets[reader].rx, p.sockets[writer].tx;
    SpliceConserves(rx, tx, -1);
    SetRingsKeeps(p, reader, writer, SpliceRx(rx, tx, -1), SpliceTx(rx, tx, -1));
  }

  lemma {:induction false} ForwardedHupKeeps(p: Local, reader: nat, writer: nat)
    requires p.Inv() && reader < |p.sockets| && writer < |p.sockets|
    ensures var q := ForwardedHup(p, reader, writer); Keeps(p, q) && q.runQ == p.runQ && q.blockedQ == p.blockedQ
  {
    var tx, rx := p.sockets[writer].tx.ClearEof(), p.sockets[reader].rx.MarkEof();
    SetSocketKeeps(p, writer, p.sockets[writer].(tx := tx));
    var a := p.SetTx(writer, tx);
    SetSocketKeeps(a, reader, a.sockets[reader].(rx := rx));
    KeepsTrans(p, a, ForwardedHup(p, reader, writer));
  }

  lemma {:induction false} SocketThenFdTail(p: Local, s: nat, x: Socket)
    requires p.Inv() && s < |p.sockets| && SamePlace(p.sockets[s], x) && x.blockedEnq == p.sockets[s].blockedEnq
    requires x.rx.Valid() && x.tx.Valid() && p.Alive(p.sockets[s].owner)
    ensures var q := p.SetSocket(s, x).EnqueueRead(s).HandleBlock(s); Keeps(p, q) && BlocksOnly(p, q, s)
    ensures var q := p.SetSocket(s, x).EnqueueWrite(s).HandleBlock(s); Keeps(p, q) && BlocksOnly(p, q, s)
  {
    var a := p.SetSocket(s, x);
    SetSocketKeeps(p, s, x);
    FdTailKeeps(a, s);
    KeepsTrans(p, a, a.EnqueueRead(s).HandleBlock(s));
    KeepsTrans(p, a, a.EnqueueWrite(s).HandleBlock(s));
  }

  /** No answer of the system, however long, makes a ring invalid. */
  lemma {:induction false} IncomingOk(x: Socket, listens: bool, res: SysRead)
    requires x.rx.Valid() && x.tx.Valid()
    ensures var y := Incoming(x, listens, res);
      y.rx.Valid() && y.tx.Valid() && SamePlace(x, y) && y.blockedEnq == x.blockedEnq
  {
  }

  lemma {:induction false} ReadFdKeeps(p: Local, s: nat, io: Io)
    requires p.Inv() && s < |p.sockets| && p.Alive(p.sockets[s].owner) && p.sockets[s].rxPipe.OsFd?
    ensures var q := HandleRead(p, s, io).p; Keeps(p, q) && BlocksOnly(p, q, s)
  {
    var x := p.sockets[s];
    var y := Incoming(x, x.rxPipe.listens, io.read);
    IncomingOk(x, x.rxPipe.listens, io.read);
    SocketThenFdTail(p, s, y);
    assert HandleRead(p, s, io).p == p.SetSocket(s, y).EnqueueRead(s).HandleBlock(s);
  }

  lemma {:induction false} HandleReadKeeps(p: Local, s: nat, io: Io)
    requires p.Inv() && s < |p.sockets| && p.Alive(p.sockets[s].owner)
    ensures var q := HandleRead(p, s, io).p; Keeps(p, q) && BlocksOnly(p, q, s)
  {
    var x := p.sockets[s];
    match x.rxPipe
    case OsFd(_, _) =>
      ReadFdKeeps(p, s, io);
    case VkTx(peer) =>
      var a := p.Spliced(s, peer);
      SplicedKeeps(p, s, peer);
      ReadTailKeeps(a, s, peer);
      KeepsTrans(p, a, a.EnqueueRead(s).EnqueueReadWriter(s, peer).HandleBlock(s));
    case VkRx(_) =>
      HandleBlockKeeps(p, s);
  }

  lemma {:induction false} WriteFdKeeps(p: Local, s: nat, io: Io)
    requires p.Inv() && s < |p.sockets| && p.Alive(p.sockets[s].owner) && p.sockets[s].txPipe.OsFd?
    ensures var q := HandleWrite(p, s, io).p; Keeps(p, q) && BlocksOnly(p, q, s)
  {
    SocketThenFdTail(p, s, WriteSocket(p.sockets[s], Taken(io.write, p.sockets[s].tx)));
  }

  lemma {:induction false} WritePipeKeeps(p: Local, s: nat, peer: nat)
    requires p.Inv() && s < |p.sockets| && p.Alive(p.sockets[s].owner) && p.sockets[s].txPipe == VkRx(peer)
    ensures var q := p.Spliced(peer, s).EnqueueWrite(s).EnqueueWriteReader(s, peer).HandleBlock(s);
      Keeps(p, q) && BlocksOnly(p, q, s)
  {
    var a := p.Spliced(peer, s);
    SplicedKeeps(p, peer, s);
    WriteTailKeeps(a, s, peer);
    KeepsTrans(p, a, a.EnqueueWrite(s).EnqueueWriteReader(s, peer).HandleBlock(s));
  }

  lemma {:induction false} HandleWriteKeeps(p: Local, s: nat, io: Io)
    requires p.Inv() && s < |p.sockets| && p.Alive(p.sockets[s].owner)
    ensures var q := HandleWrite(p, s, io).p; Keeps(p, q) && BlocksOnly(p, q, s)
  {
    match p.sockets[s].txPipe
    case OsFd(_, _) =>
      WriteFdKeeps(p, s, io);
    case VkRx(peer) =>
      WritePipeKeeps(p, s, peer);
    case VkTx(_) =>
      HandleBlockKeeps(p, s);
  }

  lemma {:induction false} HandleReadHupKeeps(p: Local, s: nat)
    requires p.Inv() && s < |p.sockets| && p.Alive(p.sockets[s].owner)
    ensures var q := HandleReadHup(p, s).p; Keeps(p, q) && BlocksOnly(p, q, s)
  {
    match p.sockets[s].rxPipe
    case OsFd(_, _) =>
      FdTailKeeps(p, s);
    case VkTx(peer) =>
      if p.sockets[peer].tx.eof {
        var a := ForwardedHup(p, s, peer);
        ForwardedHupKeeps(p, s, peer);
        ReadTailKeeps(a, s, peer);
        KeepsTrans(p, a, a.EnqueueRead(s).EnqueueReadWriter(s, peer).HandleBlock(s));
      } else {
        HandleBlockKeeps(p, s);
      }
    case VkRx(_) =>
  }

  lemma {:induction false} HandleHupKeeps(p: Local, s: nat)
    requires p.Inv() && s < |p.sockets| && p.Alive(p.sockets[s].owner)
    ensures var q := HandleHup(p, s).p; Keeps(p, q) && BlocksOnly(p, q, s)
  {
    match p.sockets[s].txPipe
    case OsFd(_, _) =>
      FdTailKeeps(p, s);
    case VkRx(peer) =>
      if !p.sockets[s].tx.eof {
        WriteTailKeeps(p, s, peer);
      } else {
        HandleBlockKeeps(p, s);
      }
    case VkTx(_) =>
  }

  lemma {:induction false} SocketThenEnqueue(p: Local, s: nat, x: Socket)
    requires p.Inv() && s < |p.sockets| && SamePlace(p.sockets[s], x) && x.blockedEnq == p.sockets[s].blockedEnq
    requires x.rx.Valid() && x.tx.Valid()
    ensures var q := p.SetSocket(s, x).EnqueueRead(s); Keeps(p, q) && q.blockedQ == p.blockedQ
    ensures var q := p.SetSocket(s, x).EnqueueWrite(s); Keeps(p, q) && q.blockedQ == p.blockedQ
  {
    var a := p.SetSocket(s, x);
    SetSocketKeeps(p, s, x);
    EnqueueReadKeeps(a, s);
    KeepsTrans(p, a, a.EnqueueRead(s));
    EnqueueWriteKeeps(a, s);
    KeepsTrans(p, a, a.EnqueueWrite(s));
  }

  lemma {:induction false} SpliceInKeeps(p: Local, s: nat, peer: nat)
    requires p.Inv() && s < |p.sockets| && peer < |p.sockets|
    ensures var q := p.Spliced(s, peer).EnqueueRead(s).EnqueueReadWriter(s, peer);
      Keeps(p, q) && q.blockedQ == p.blockedQ
  {
    var a := p.Spliced(s, peer);
    SplicedKeeps(p, s, peer);
    var b := a.EnqueueRead(s);
    EnqueueReadKeeps(a, s);
    KeepsTrans(p, a, b);
    EnqueueReadWriterKeeps(b, s, peer);
    KeepsTrans(p, b, b.EnqueueReadWriter(s, peer));
  }

  lemma {:induction false} ForwardInKeeps(p: Local, s: nat, io: Io)
    requires p.Inv() && s < |p.sockets| && p.Alive(p.sockets[s].owner)
    ensures var q := ForwardIn(p, s, io).p; Keeps(p, q) && q.blockedQ == p.blockedQ
  {
    var x := p.sockets[s];
    match x.rxPipe
    case OsFd(_, _) =>
      IncomingOk(x, false, io.read);
      SocketThenEnqueue(p, s, Incoming(x, false, io.read));
    case VkTx(peer) =>
      SpliceInKeeps(p, s, peer);
    case VkRx(_) =>
  }

  lemma {:induction false} SpliceOutKeeps(p: Local, s: nat, peer: nat)
    requires p.Inv() && s < |p.sockets| && peer < |p.sockets|
    ensures var q := p.Spliced(peer, s).EnqueueWrite(s); Keeps(p, q) && q.blockedQ == p.blockedQ
    ensures var q := p.Spliced(peer, s).EnqueueWrite(s).EnqueueWriteReader(s, peer);
      Keeps(p, q) && q.blockedQ == p.blockedQ
    ensures var q := p.Spliced(peer, s).EnqueueWrite(s);
      var r := q.EnqueueWriteReader(s, peer).EnqueueRun(q.sockets[peer].owner);
      Keeps(p, r) && r.blockedQ == p.blockedQ
  {
    var a := p.Spliced(peer, s);
    SplicedKeeps(p, peer, s);
    var b := a.EnqueueWrite(s);
    EnqueueWriteKeeps(a, s);
    KeepsTrans(p, a, b);
    var c := b.EnqueueWriteReader(s, peer);
    EnqueueWriteReaderKeeps(b, s, peer);
    KeepsTrans(p, b, c);
    EnqueueRunKeeps(c, b.sockets[peer].owner);
    KeepsTrans(p, c, c.EnqueueRun(b.sockets[peer].owner));
  }

  lemma {:induction false} ForwardOutKeeps(p: Local, s: nat, fromFd: bool, io: Io)
    requires p.Inv() && s < |p.sockets| && p.Alive(p.sockets[s].owner)
    ensures var q := ForwardOut(p, s, fromFd, io).p; Keeps(p, q) && q.blockedQ == p.blockedQ
  {
    var x := p.sockets[s];
    match x.txPipe
    case OsFd(_, _) =>
      SocketThenEnqueue(p, s, WriteSocket(x, Taken(io.write, x.tx)));
    case VkRx(peer) =>
      SpliceOutKeeps(p, s, peer);
    case VkTx(_) =>
  }

  lemma {:induction false} HandleForwardKeeps(p: Local, s: nat, io: Io)
    requires p.Inv() && s < |p.sockets| && p.Alive(p.sockets[s].owner)
    ensures var q := HandleForward(p, s, io).p; Keeps(p, q) && BlocksOnly(p, q, s)
  {
    var a := ForwardIn(p, s, io);
    ForwardInKeeps(p, s, io);
    if a.ok {
      assert SamePlace(p.sockets[s], a.p.sockets[s]);
      var b := ForwardOut(a.p, s, p.sockets[s].rxPipe.OsFd?, io);
      ForwardOutKeeps(a.p, s, p.sockets[s].rxPipe.OsFd?, io);
      KeepsTrans(p, a.p, b.p);
      if b.ok {
        assert SamePlace(p.sockets[s], b.p.sockets[s]);
        HandleBlockKeeps(b.p, s);
        KeepsTrans(p, b.p, b.p.HandleBlock(s));
      }
    }
  }

  lemma {:induction false} ThenReadyKeeps(p: Local, a: Local, s: nat)
    requires p.Inv() && Keeps(p, a) && BlocksOnly(p, a, s) && s < |p.sockets|
    ensures var q := a.Ready(p.sockets[s].owner); Keeps(p, q) && BlocksOnly(p, q, s)
  {
    ReadyKeeps(a, p.sockets[s].owner);
    KeepsTrans(p, a, a.Ready(p.sockets[s].owner));
  }

  lemma {:induction false} HandleTxCloseKeeps(p: Local, s: nat, shutdown: bool, io: Io)
    requires p.Inv() && s < |p.sockets| && p.Alive(p.sockets[s].owner)
    ensures var q := HandleTxClose(p, s, shutdown, io); Keeps(p, q) && BlocksOnly(p, q, s)
  {
    var x := p.sockets[s];
    if x.txPipe.OsFd? {
      var y := CloseTxSocket(x, io.closeFailed);
      SocketThenFdTail(p, s, y);
      ThenReadyKeeps(p, p.SetSocket(s, y).EnqueueWrite(s).HandleBlock(s), s);
    } else if shutdown {
      FdTailKeeps(p, s);
      ThenReadyKeeps(p, p.EnqueueWrite(s).HandleBlock(s), s);
    } else {
      var a := p.SetTx(s, x.tx.MarkEof());
      SetSocketKeeps(p, s, x.(tx := x.tx.MarkEof()));
      WriteTailKeeps(a, s, x.txPipe.peer);
      var b := a.EnqueueWrite(s).EnqueueWriteReader(s, x.txPipe.peer).HandleBlock(s);
      KeepsTrans(p, a, b);
      ThenReadyKeeps(p, b, s);
    }
  }

  lemma {:induction false} HandleRxCloseKeeps(p: Local, s: nat, io: Io)
    requires p.Inv() && s < |p.sockets| && p.Alive(p.sockets[s].owner)
    ensures var q := HandleRxClose(p, s, io); Keeps(p, q) && BlocksOnly(p, q, s)
  {
    var x := p.sockets[s];
    if x.rxPipe.OsFd? {
      var y := CloseRxSocket(x, io.closeFailed);
      SocketThenFdTail(p, s, y);
      ThenReadyKeeps(p, p.SetSocket(s, y).EnqueueRead(s).HandleBlock(s), s);
    } else {
      FdTailKeeps(p, s);
      ThenReadyKeeps(p, p.EnqueueRead(s).HandleBlock(s), s);
    }
  }

  lemma {:induction false} HandleReadFlushKeeps(p: Local, s: nat, io: Io)
    requires p.Inv() && s < |p.sockets| && p.Alive(p.sockets[s].owner)
    ensures var q := HandleReadFlush(p, s, io).p; Keeps(p, q) && BlocksOnly(p, q, s)
  {
    var r := HandleRead(p, s, io);
    HandleReadKeeps(p, s, io);
    if r.ok && LazyFlush(r.p.sockets[s]) {
      assert SamePlace(p.sockets[s], r.p.sockets[s]);
      HandleWriteKeeps(r.p, s, io);
      KeepsTrans(p, r.p, HandleWrite(r.p, s, io).p);
    }
  }

  predicate Transfers(op: Op) {
    op in {OpRead, OpWrite, OpFlush, OpForward}
  }

  lemma {:induction false} TransferKeeps(p: Local, s: nat, io: Io)
    requires p.Inv() && s < |p.sockets| && p.Alive(p.sockets[s].owner) && Transfers(p.sockets[s].op)
    ensures var q := Handler(p, s, io).p; Keeps(p, q) && BlocksOnly(p, q, s)
  {
    match p.sockets[s].op
    case OpFlush => HandleWriteKeeps(p, s, io);
    case OpWrite => HandleWriteKeeps(p, s, io);
    case OpRead => HandleReadFlushKeeps(p, s, io);
    case OpForward => HandleForwardKeeps(p, s, io);
  }

  lemma {:induction false} TxCloseKeeps(p: Local, s: nat, io: Io)
    requires p.Inv() && s < |p.sockets| && p.Alive(p.sockets[s].owner)
    requires p.sockets[s].op == OpTxClose || p.sockets[s].op == OpTxShutdown
    ensures var q := Handler(p, s, io).p; Keeps(p, q) && BlocksOnly(p, q, s)
  {
    HandleTxCloseKeeps(p, s, p.sockets[s].op == OpTxShutdown, io);
    HandlerTxCloses(p, s, io);
  }

  lemma {:induction false} HandlerTxCloses(p: Local, s: nat, io: Io)
    requires s < |p.sockets| && (p.sockets[s].op == OpTxClose || p.sockets[s].op == OpTxShutdown)
    ensures Handler(p, s, io).p == HandleTxClose(p, s, p.sockets[s].op == OpTxShutdown, io)
  {
  }

  lemma {:induction false} RxCloseKeeps(p: Local, s: nat, io: Io)
    requires p.Inv() && s < |p.sockets| && p.Alive(p.sockets[s].owner)
    requires p.sockets[s].op == OpRxClose || p.sockets[s].op == OpRxShutdown
    ensures var q := Handler(p, s, io).p; Keeps(p, q) && BlocksOnly(p, q, s)
  {
    HandleRxCloseKeeps(p, s, io);
    assert Handler(p, s, io).p == HandleRxClose(p, s, io);
  }

  lemma {:induction false} AskKeeps(p: Local, s: nat, io: Io)
    requires p.Inv() && s < |p.sockets| && (p.sockets[s].op == OpReadable || p.sockets[s].op == OpWritable)
    ensures var q := Handler(p, s, io).p; Keeps(p, q) && BlocksOnly(p, q, s)
  {
    SetSocketKeeps(p, s, Handler(p, s, io).p.sockets[s]);
  }

  /** Whatever the operation and whatever the system answers, a handler keeps the queues sound. */
  lemma {:induction false} HandlerKeeps(p: Local, s: nat, io: Io)
    requires p.Inv() && s < |p.sockets| && p.Alive(p.sockets[s].owner)
    ensures var q := Handler(p, s, io).p; Keeps(p, q) && BlocksOnly(p, q, s)
  {
    var op := p.sockets[s].op;
    if Transfers(op) {
      TransferKeeps(p, s, io);
    } else if op == OpTxClose || op == OpTxShutdown {
      TxCloseKeeps(p, s, io);
    } else if op == OpRxClose || op == OpRxShutdown {
      RxCloseKeeps(p, s, io);
    } else if op == OpHup {
      HandleHupKeeps(p, s);
    } else if op == OpReadHup {
      HandleReadHupKeeps(p, s);
    } else if op == OpReadable || op == OpWritable {
      AskKeeps(p, s, io);
    }
  }
}
