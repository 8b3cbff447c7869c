# mnvkd, modelled and proved

mnvkd runs coroutines of many processes on one kernel thread. This project models its core in Dafny and
proves what holds over all its runs. `dafny verify dfyconfig.toml` checks everything.

- **Byte transport.** `Ring` is the ring buffer of `vk_vectoring.c`, updated in place and proved equal to the
  bounded queue of `Fifo`; `Newline` is its blockwise newline scan; `IoOp` builds, executes and applies
  readv/writev operations on it. `ThreadIo` holds the resumable read, write and hup loops, and `PipeRun` runs
  a writer and a reader over two rings under every interleaving of their calls and of splices;
  `PipeProgress` proves what each step does and that every message can get through.
- **Scheduling inside a process.** `Process` and `Scheduler` give the meaning of the socket handlers, of the
  local run and blocked queues and of `vk_proc_local_execute`, with coroutine bodies as arbitrary sequences of
  API steps and the system as arbitrary answers. `Effects` says what each operation of a socket does to all
  rings, `Retries` what it registers and wakes and that a poll report gets the blocked operation tried, `Acting`
  that what it moves is acted on at once and what error it leaves, `Turns` what each step of a coroutine does and that whoever is played is called. `ProcLocal` is the class that updates
  these queues step by step, as linked lists, and is proved against them. `SList` is that list on its links, with
  walks that go on from the link of an element they have just removed.
- **Scheduling of processes.** `Kernel` gives the meaning of the kernel's process lists, of the descriptor
  table with its dirty and fresh lists and of a poll round; `KernelInv` and `KernelRun` prove what every step
  and every run keep, `Registration` when exactly what a blocked socket waits for is polled, `Closing` what
  becomes of descriptors and processes that end or start; `Kern` is the class with the loops, its four lists
  linked ones.
- **Both levels.** `System` is the kernel together with the local state of every process: a dispatch applies the
  poll results, runs the coroutines and registers what they leave blocked. `Wakeup` says what joins the levels
  at the table and at the blocked sockets, and `Runs` proves that whole runs from boot are runs of the kernel
  and that every event of every run reaches the coroutine that waits for it. `Watch` proves what stays
  registered with the poller over whole runs.
- **Allocators.** `WrapGuard` (exact overflow tests and rounding), `Stack` (in-band links, on `Memory`), `Pool`.
- **Codecs.** `Hex` and `Chunks` are the chunked transfer coding (section 7.1 of RFC 9112), `Resp` the RESP
  arrays of bulk strings, both over the line reading of `Lines`, which is proved of all schedules of arrival.
  `ChunkErrors` and `RespErrors` say what becomes of streams that are damaged or cut off.

The source's loops and updates are methods proved against functions on values; the laws are lemmas about
those functions. An operating-system call is an arbitrary answer, a coroutine's body an arbitrary script of
API steps. `KernelRun` takes an execution for an arbitrary set of blocked sockets and new processes; `System`
runs it. A run whose script ends is suspended at that point, so a statement about all scripts is one about
every point of every run.

Where the code departs from its comments or from what one would expect, the model follows the code:

- Queues insert at the head, although comments speak of the end of the run queue.
- `vk_fd_table_prepoll_blocked_fd` starts the descriptor's future anew for every socket it registers, so of all
  blocked sockets that name one descriptor only the last of the walk counts (`vk_fd_table.c:211-216`), and the
  waits of the others are lost: `Registration.LastSocketWins` and `Registration.PolledIffLastAsks` are the exact
  law, `Registration.WriteWaitLost` and `Registration.WaitDropped` the inputs. A responder starts with the
  descriptors of its parent (`vk_thread.c:59-64`), so one that writes what the other reads is such an input.
  Within one socket, a descriptor used both ways is asked for its read side only.
- A line that is buffered with its newline is read whole, however small the buffer: `vk_vectoring_tx_line_request`
  returns its length whatever room is left (`vk_vectoring.c:188-199`). `Newline.LongLineLeavesRoom` are the inputs,
  `Ring.Ring.RecvLine` and `Lines.ReadInsideIff` the exact conditions, `Chunks.LongHeadOverruns` and
  `Resp.LongLineOverruns` where it leaves a buffer of 19 and one of 128 bytes. After that nothing is claimed.
- `vk_socket_readline` looks for the newline it has read behind the advanced buffer pointer, at byte `2n - 1` after
  `n` bytes (`vk_thread_io.h:37-59`), so what the memory held before can end a read early: `Lines.ReadEnds` and
  `Lines.EndHappens` are the exact ends, `Resp.CountLineIsStale` is one that every query prepares. The parsers
  take the arrival of each read as an argument: the bytes that end it, and what `atoi` finds behind a header.
- A bulk header with a negative number is not refused: its length becomes a `size_t`, and all that follows is
  stored in the 64 bytes of the argument (`vk_redis.c:232-236`). `Resp.NegativeBulkStoresAll` is the input,
  `Resp.BulkInsideIff` the exact condition, and `Resp.QueryOverrunsIff` that of a whole query.
- The error that a failing read or write leaves in its socket is 0: `vk_vectoring_signed_received` and
  `vk_vectoring_signed_sent` clear `errno` before `vk_socket_handle_error` stores it (`vk_vectoring.c:411-451`).
- Segment lengths of an asynchronous operation go through an `int`: `IoOp.ClipExactIff` says when exactly that
  keeps the view of the ring, `IoOp.ClipOverruns` what can happen otherwise.
- `parse_header` takes any line without a delimiter for the end of a header section, not only the empty line:
  `Chunks.ReadTrailerLine`.
- `vk_stack_push` keeps the length of a block in the block's own last word, for which no room is reserved:
  `Stack.LinkSurvivesIff` states exactly when a client cannot damage it, `Stack.LinkLost` what an empty push does.
- `flsh` shifts by three, which loses bits from 2^61 on: `Hex.HexRoundTripIff` states exactly which sizes survive.
  The reader asks for 17 header bytes; a header of 16 digits has 18, and its newline is left behind unless it is
  buffered in time. `Chunks.EntityRoundTripIff` states exactly which chunks survive which arrival.
- `vk_pool_init` adds its two sizes without a guard and loops on an `int`: `Pool.Pool.Init` says when that is exact.
- `vk_fd_table_process_fd` says that it drops events when any are returned; it does so only when all that were asked for
  are: `Registration.RegisteredUntilReturned`.
- `vk_vectoring_init` does not set `closed`.
- `vk_socket_handle_hup` wakes nobody while the EOF is still set; a reader meets the EOF by reading.

## Model

| member | source | states |
|---|---|---|
| `Ring.WrapIsMod` | vk_vectoring.c:391-437 | reducing a position that is below twice the buffer length is subtracting the length at most once, which is what keeps `tx_cursor` and the free cursor inside the buffer |
| `Ring.ViewsPartition` | vk_vectoring.c:226-260 | for every cursor and length, each buffer position lies in exactly one of the filled and the free view |
| `Ring.SyncReadsSpan` | vk_vectoring.c:226-260 | reading any prefix through a two-segment view gives the bytes from the cursor on, wrapped around the end of the buffer |
| `Ring.SpanDrop` | vk_vectoring.c:423-437 | moving the cursor by the bytes sent drops exactly that prefix of the contents |
| `Ring.PlacedIsAppended` | vk_vectoring.c:659-690 | bytes placed through the free view leave the old contents alone and read back, behind them, in order |
| `Ring.LineInSegments` | vk_vectoring.c:166-199 | a newline found in the first segment, or else in the second, is the first newline of the contents across both |
| `Ring.Ring.constructor` | vk_vectoring.c:29-41 | an initialised ring is an empty queue with the given capacity; `closed` keeps its previous value, because the code does not set it |
| `Ring.Ring.SyncViews` | vk_vectoring.c:245-260 | after a sync both views match cursor and length |
| `Ring.Ring.MarkReceived` | vk_vectoring.c:391-408 | up to the free space the placed bytes are appended to the queue; more sets `ENOBUFS` and moves nothing |
| `Ring.Ring.MarkSent` | vk_vectoring.c:423-437 | up to the filled length a prefix is dropped; more sets `ENOBUFS` and moves nothing |
| `Ring.Ring.Recv` | vk_vectoring.c:630-656 | takes min(len, filled) of the oldest bytes into the caller's buffer, which changes nowhere else; never fails |
| `Ring.Ring.Send` | vk_vectoring.c:659-690 | appends as much as fits, and nothing while an EOF is outstanding; never fails |
| `Ring.Ring.RecvSplice` | vk_vectoring.c:694-729 | for two distinct rings at any cursors and fill levels: moves exactly min(free, filled, len) bytes from the front of one to the back of the other; neither `EINVAL` branch is taken |
| `Ring.Ring.Splice` | vk_vectoring.c:732-755 | the same, and sets each blocked flag by comparing the count with what is still free or filled after the move |
| `Ring.Ring.ReadFd` | vk_vectoring.c:485-520 | refines the read of the queue value for every answer of `readv`, and field by field: a count of zero sets EOF and leaves the contents, bytes go behind the contents and clear EOF, the ring is blocked exactly if fewer came than fit; EAGAIN blocks it, any other error unblocks it, and both leave contents and EOF |
| `Ring.Ring.WriteFd` | vk_vectoring.c:523-549 | refines the write of the queue value for every answer of `writev`, and field by field: nothing is tried while a write is blocked, else exactly the prefix that the system took is gone and the ring is blocked exactly if something is left; EAGAIN blocks it and moves nothing |
| `Ring.Ring.MarkEof` | vk_vectoring.c:365-375 | sets EOF and the effect flag once; reports whether it changed anything |
| `Ring.Ring.Hup` | vk_vectoring.c:758-767 | fails with `EINVAL` exactly if an EOF is already outstanding, otherwise sets it |
| `Ring.Ring.ReadHup` | vk_vectoring.c:770-779 | fails with `EINVAL` exactly if there is no EOF, otherwise clears it |
| `Ring.Ring.ForwardHup` | vk_vectoring.c:782-791 | moves an outstanding EOF from the writer's ring to the reader's, or changes nothing |
| `Ring.Ring.TxLineLen` | vk_vectoring.c:166-186 | position of the first newline of the contents, across both segments, for every combination of vector units |
| `Ring.Ring.TxLineRequest` | vk_vectoring.c:188-199 | the length of the first buffered line, newline included, or the asked length when no line is complete |
| `Ring.Ring.RecvLine` | vk_thread_io.h:40-51 | one pass into the memory from the buffer on: a buffered line is stored whole, whatever room is left of the buffer, else at most that room; what is stored stays within the room if and only if no newline is buffered or the first buffered line fits it; the rest stays in the ring |
| `Fifo.SpliceConserves` | vk_vectoring.c:694-755 | a splice loses, invents and reorders nothing, and one that asks for everything stops only at a full reader or an empty writer |
| `Fifo.ReadFdLeaves` | vk_vectoring.c:485-520 | the same of the queue value: what a read leaves in every field, for every answer |
| `Fifo.WriteFdLeaves` | vk_vectoring.c:523-549 | what a write leaves in every field, for every answer, blocked before or not |
| `Fifo.SendLeaves` | vk_vectoring.c:659-690 | a send leaves exactly what fits behind the contents, and nothing while an EOF is outstanding; the effect is set exactly if a byte came |
| `Fifo.RecvLeaves` | vk_vectoring.c:630-656 | what a receive hands out and what it leaves are together the contents, in order; the effect is set exactly if a byte went |
| `Fifo.SpliceCountIs` | vk_vectoring.c:694-729 | one splice moves the least of the reader's space, the writer's bytes and the length asked |
| `Fifo.AcceptFdLeaves` | vk_vectoring.c:453-482 | what an accept leaves: the whole record of the connection behind the contents, or nothing where it does not fit, an EOF is out or the system refused; blocked exactly on EAGAIN |
| `Fifo.SpliceBlocksRx` | vk_vectoring.c:732-755 | after a splice the reader's ring is blocked exactly if fewer bytes moved than it could still take |
| `Fifo.SpliceBlocksTx` | vk_vectoring.c:732-755 | and the writer's exactly if fewer moved than are left |
| `Newline.MaskFindsFirst` | vk_vectoring.c:111-164 | a zero comparison mask means no newline in the block; otherwise counting trailing zeros gives the first one |
| `Newline.MaskBound` | vk_vectoring.c:111-164 | the mask of a block of n bytes fits n bits |
| `Newline.ScanLanes` | vk_vectoring.c:140-155 | the NEON loop, which looks at a block of 16 lane by lane after its mask is not zero, returns the first newline of the whole blocks or stops behind them |
| `Newline.FindNewline` | vk_vectoring.c:111-164 | the 32-byte, 16-byte, NEON and scalar loops together return the first newline of the range, whichever units are compiled in |
| `Newline.FirstLineIs` | vk_vectoring.c:166-199 | a found newline determines the length of the first line, and no newline means no complete line |
| `Newline.LongLineLeavesRoom` | vk_vectoring.c:188-199 | the inputs at which a pass leaves its buffer: any buffered line that is longer than the room |
| `IoOp.Op.FromView` | vk_io_op.c:49-98 | the built view is the clipping of the given one, in which each segment length goes through an `int`, and EAGAIN exactly if that leaves nothing |
| `IoOp.Op.FromTxRing` | vk_io_op.c:49-72 | of segments that an `int` can count it is exactly the first min(max_len, filled) bytes of the ring, all of it for `max_len` zero, and EAGAIN exactly if there are none |
| `IoOp.Op.FromRxRing` | vk_io_op.c:75-98 | the same for the free space of a ring |
| `IoOp.ClipExactIff` | vk_io_op.c:49-98 | without a limit the operation takes exactly the view of the ring if and only if an `int` can count both segments; with one, if and only if the conversion shows the limited part of each and the two do not cancel out |
| `IoOp.ClipOverruns` | vk_io_op.c:49-98 | two inputs beyond that: a segment of 2^32 bytes counts as none, and one of 2^31 becomes longer than the ring |
| `IoOp.Op.ExecRw` | vk_io_exec.c:11-53 | the state is DONE exactly on a full transfer, NEEDS_POLL exactly on a partial one or EAGAIN, ERROR exactly on any other refusal; other kinds fail with `EINVAL` |
| `IoOp.TxChannel.InFlightReadsPrefix` | vk_io_op.c:49-72 | the bytes an outstanding write hands to the system are a prefix of the ring's contents, however many bytes were sent meanwhile |
| `IoOp.TxChannel.Execute` | vk_io_exec.c:11-53 | whatever count or error `writev` returns, the accepted bytes stay equal to the bytes on the wire followed by what is left of the ring |
| `IoOp.TxChannel.Apply` | vk_io_exec.c:55-59 | taking the moved bytes off the ring keeps that equation over any run of send, build, execute and apply |
| `IoOp.RxChannel.Execute` | vk_io_exec.c:11-53 | dually, whatever `readv` returns, the bytes from the wire stay equal to those taken, the ring and what has landed behind it |
| `IoOp.RxChannel.Apply` | vk_io_exec.c:61-65 | marking the landed bytes received appends them to the ring, in order, and keeps that equation |
| `ThreadIo.ShortReadMeansHup` | vk_thread_io.h:7-28 | a read pass delivers the front of the ring; it completes exactly when the request is met or pollhup holds, and otherwise has drained the ring |
| `ThreadIo.HupAfterRead` | vk_thread_io.h:160-171 | over a descriptor the end of a message is met exactly after a read of zero bytes into an empty ring, or once it is closed and nothing is readable |
| `ThreadIo.WriteKeepsBytes` | vk_thread_io.h:203-222 | a write pass loses nothing; while it is incomplete the ring is full or an EOF is outstanding |
| `ThreadIo.Block.Commit` | vk_socket.c:826-834 | moves the uncommitted part of the block by the count |
| `ThreadIo.Block.CheckHup` | vk_socket.c:763-809 | pollhup on either kind of source: no byte is left here and the writing socket's ring is at its end; or of a descriptor, the ring is at its end or the poller has said closed with nothing readable |
| `ThreadIo.Block.ResumeRead` | vk_thread_io.h:7-28 | one pass of the read loop is the specified pass; its bytes land behind those of earlier passes |
| `ThreadIo.Block.ResumeWrite` | vk_thread_io.h:203-222 | one pass of the write loop is the specified pass on the bytes not yet committed |
| `ThreadIo.Block.ResumeHup` | vk_thread_io.h:181-198 | the wait of a hup completes exactly when its EOF has been taken |
| `PipeRun.StepKeeps` | vk_thread_io.h:7-28 | every step of writer, reader or splice keeps the stream and message invariant |
| `PipeRun.StreamIsPreserved` | vk_thread_io.h:203-222 | at every point of every interleaving the bytes committed by writes are, in order, those delivered by reads, then the reader's ring, then the writer's ring |
| `PipeRun.MessagesArePreserved` | vk_thread_io.h:95-152 | accepted messages are a prefix of closed ones, behind by one exactly while an EOF is outstanding, and never two EOFs; that hups do close them is `PipeProgress.HupSetsEof` |
| `PipeRun.ReadHupMatchesHup` | vk_thread_io.h:160-198 | a successful readhup finds the bytes since the previous readhup equal to those written before the matching hup; afterwards both rings are clear and the hup completes when resumed |
| `PipeRun.ShortReadAtBoundary` | vk_thread_io.h:7-28 | a read that ends, on its first pass or when resumed, has delivered all that it still wanted or has met the end of a message |
| `PipeProgress.HupSetsEof` | vk_thread_io.h:182-198 | a hup on a drained ring, started or resumed after its flush, sets the EOF, closes exactly the message in progress and waits |
| `PipeProgress.FlushWaits` | vk_thread_io.h:244-258 | on a ring that holds bytes it flushes first; a flush alone returns exactly when the ring has drained, and leaves no EOF |
| `PipeProgress.HupReturns` | vk_thread_io.h:182-198 | a waiting hup returns exactly when its EOF has been taken |
| `PipeProgress.WriteCommits` | vk_thread_io.h:203-222 | a write, started or resumed, commits exactly the bytes that fit, in order, and waits with the rest |
| `PipeProgress.SecondRefused` | vk_thread_io.h:181-222 | while an EOF is outstanding a write and a second hup are refused |
| `PipeProgress.SpliceMoves` | vk_vectoring.c:694-755 | a splice step moves bytes from the front of the writer's ring to the back of the reader's until one is exhausted |
| `PipeProgress.ReadTakes` | vk_thread_io.h:7-28 | a read that wants more than is buffered takes all of it and goes on while the message does |
| `PipeProgress.ReadHupAccepts` | vk_thread_io.h:160-171 | a readhup at the end of a message accepts exactly the bytes read since the last one and clears the EOF, and does nothing elsewhere |
| `PipeProgress.MessageArrives` | vk_thread_io.h:95-222 | progress: between messages, for any data and rings of any capacity, some schedule of the two ends and of splices gets the message written, closed, read and accepted, and both calls return |
| `PipeProgress.MessagesArrive` | vk_thread_io.h:95-222 | so any sequence of messages is accepted, one by one and unchanged, from two fresh rings |
| `PipeProgress.OneMessage` | vk_thread_io.h:95-222 | for data that both rings can hold, the schedule write, hup, splice, resume, read, readhup alone does it, and the hup returns when resumed |
| `Process.EnqueueRunKeeps` | vk_proc_local.c:89-108 | keeps the invariant; a coroutine that has not ended is afterwards on the run queue, once, and ready |
| `Process.EnqueueBlockedKeeps` | vk_proc_local.c:110-127 | keeps the invariant and puts the socket on the blocked queue, once |
| `Process.DropRunKeeps` | vk_proc_local.c:129-141 | takes out exactly that coroutine, and the flag follows the queue |
| `Process.DropBlockedKeeps` | vk_proc_local.c:156-172 | takes out exactly that socket, and the flag follows the queue |
| `Process.HandleBlockKeeps` | vk_socket.c:114-164 | keeps the invariant; only this socket may join the blocked queue |
| `Process.HandleBlockAsks` | vk_socket.c:114-164 | the poller is asked for the blocked directions and nothing else, and the socket joins the blocked queue exactly if there is something to ask |
| `Process.HandleReadKeeps` | vk_socket.c:228-271 | on every pipe kind, listening descriptors included, and on every answer of the system: queues stay sound, nobody leaves the run queue, nobody ends, and only this socket may block |
| `Process.HandleWriteKeeps` | vk_socket.c:274-304 | the same for writes |
| `Process.HandleReadHupKeeps` | vk_socket.c:417-438 | the same for readhup |
| `Process.HandleHupKeeps` | vk_socket.c:441-463 | the same for hup |
| `Process.HandleForwardKeeps` | vk_socket.c:307-415 | the same for the two halves of a forward, also when one end is a descriptor and the other a virtual pipe |
| `Process.HandleTxCloseKeeps` | vk_socket.c:465-496 | the same for closing and shutting down the write side, whether or not the system call fails |
| `Process.HandleRxCloseKeeps` | vk_socket.c:498-525 | the same for the read side |
| `Process.HandlerKeeps` | vk_socket.c:604-713 | the same for whichever of all the operations a socket has pending, with the lazy flush of a stuck read |
| `Scheduler.WriteWakesReader` | vk_socket.c:274-304 | when a write over a virtual pipe moves a byte, the reader's coroutine, unless ended, is on the run queue and the writer is ready |
| `Scheduler.ReadWakesWriter` | vk_socket.c:228-271 | when a read over a virtual pipe moves a byte, the writer's coroutine, unless ended, is on the run queue and the reader is ready |
| `Scheduler.ReadHupWakesWriter` | vk_socket.c:417-438 | a readhup that finds the writer's EOF puts the writer's coroutine, unless ended, on the run queue |
| `Effects.OpReadTakes` | vk_socket.c:604-713 | a socket whose operation is a read takes in what its pipe gives, on all rings: the bytes of a descriptor behind its contents, a connection's record if it listens, what a splice moves over a virtual pipe; then a stuck read with bytes to send gives those out, and otherwise nothing more happens |
| `Effects.OpReadReads` | vk_socket.c:228-271 | so over a descriptor the bytes the system gave are behind the read ring's contents, whatever is flushed after |
| `Effects.OpWriteGives` | vk_socket.c:604-713 | one whose operation is a write or a flush gives out what its pipe takes: exactly the prefix the system took is gone from its ring, or what a splice moves, and no other ring changes; it fails exactly on a pipe bound the wrong way |
| `Effects.OpForwardMoves` | vk_socket.c:307-415 | a forward takes in on its read side, and then gives out on its write side from what is in the ring then |
| `Effects.SpliceIs` | vk_vectoring.c:694-755 | over a virtual pipe that is bytes moved from the front of the writer's ring to the back of the reader's until one is exhausted, and every other ring as it was |
| `Effects.OpReadHupTakes` | vk_socket.c:417-438 | a readhup moves an outstanding EOF from the writer's ring to the reader's, and no byte; without one it changes no ring |
| `Effects.OpHupMovesNothing` | vk_socket.c:440-463 | handling a hup changes no ring |
| `Effects.OpTxCloseEnds` | vk_socket.c:465-553 | closing the write side marks a descriptor's ring closed and leaves an EOF in one over a virtual pipe; a shutdown leaves none; contents stay |
| `Effects.OpRxCloseEnds` | vk_socket.c:498-583 | closing the read side marks a descriptor's ring closed and changes nothing else |
| `Effects.OpsThatWait` | vk_socket.c:604-713 | without an operation nothing changes, and waiting for readiness asks for one direction and touches no ring |
| `Acting.HandlerSucceedsIff` | vk_socket.c:604-713 | a handler fails exactly on a pipe that its operation needs and that is bound the wrong way |
| `Acting.OpWriteErrors` | vk_socket.c:274-304 | the error a socket is left with: 0 after a write that the system refused, the old one after any other |
| `Acting.OpReadErrors` | vk_socket.c:228-271 | the same of a read, an accept, and the flush that may follow |
| `Acting.OpCloseErrors` | vk_socket.c:465-583 | and of a close or shutdown that the system refuses |
| `Retries.HandlerRegisters` | vk_socket.c:114-164 | after any operation the socket's futures ask for exactly the directions that are blocked on descriptors, with the closes that are wanted, and a socket that must be polled is on the blocked queue |
| `Retries.OpReadWakes` | vk_socket.c:228-271 | a read that moves bytes makes its coroutine ready, and over a virtual pipe queues the writer's |
| `Retries.OpWriteWakes` | vk_socket.c:274-304 | a write that moves bytes makes its coroutine ready, and over a virtual pipe queues the reader's |
| `Retries.OpCloseWakes` | vk_socket.c:465-580 | a close or shutdown makes its coroutine ready whatever the system answers |
| `Acting.OpForwardWakes` | vk_socket.c:307-415 | a forward that takes bytes in readies its coroutine, and over a virtual pipe queues the writer's; one that moves bytes into a virtual pipe queues the reader's, behind a descriptor exactly while that reader is blocked |
| `Acting.OpHupWakes` | vk_socket.c:441-463 | a hup whose EOF has been taken readies its coroutine if anything had been sent, and queues a reader that has got something |
| `Acting.OpTxCloseWakes` | vk_socket.c:465-497 | closing over a virtual pipe queues a reader that has got something |
| `Acting.OpReadActs` | vk_socket.c:228-271 | every effect is acted on in the same call, and so only once: after a read none is left at either end of what it read, and none appears anywhere else |
| `Acting.OpWriteActs` | vk_socket.c:274-304 | the same of a write or flush |
| `Acting.OpForwardActs` | vk_socket.c:307-415 | and of a forward, but for what a reader that is not blocked has got from a descriptor |
| `Acting.OpReadHupActs` | vk_socket.c:417-438 | and of a readhup, at both ends of the EOF that it takes |
| `Acting.OpHupActs` | vk_socket.c:441-463 | and of a hup, once its EOF is gone |
| `Acting.OpTxCloseActs` | vk_socket.c:465-553 | and of closing or shutting down the write side, at its reader's end too |
| `Acting.OpRxCloseActs` | vk_socket.c:498-583 | and of the read side |
| `Retries.UnblockIs` | vk_proc_local.c:284-291 | what was reported clears the block of the direction that it concerns, and nothing else changes |
| `Retries.RetryWrites` | vk_proc_local.c:268-307 | a retried write of a descriptor is tried exactly if POLLOUT or POLLHUP was reported or it was not blocked: what the system takes is gone from the ring, and the block afterwards tells whether something is left |
| `Retries.ReportedWrite` | vk_proc_local.c:268-307 | after such a report and an answer of n bytes, exactly the n oldest bytes are gone |
| `Retries.RetryReads` | vk_proc_local.c:268-307 | a retried read is tried whatever was reported: the block afterwards depends on the answer alone |
| `Retries.HandlerAlone` | vk_socket.c:604-713 | a handler leaves the rings of every socket that its own is not bound to |
| `Retries.WalkTries` | vk_proc.c:412-420 | the walk over the blocked sockets tries the operation of each with the answer at its place, and no retry of another undoes it |
| `Scheduler.RetryKeeps` | vk_proc_local.c:268-307 | a retry that succeeds takes its socket off the blocked queue, and its coroutine is on the run queue and ready |
| `Scheduler.RetryAllKeeps` | vk_proc.c:412-420 | retrying every socket of the list that the retries are unlinking from visits all of them and empties it |
| `Scheduler.NoLostWakeup` | vk_proc.c:354-423 | when every retry succeeds, the blocked queue is empty before any coroutine runs, and every coroutine that owned a blocked socket is on the run queue exactly once, and ready |
| `Scheduler.HandlerSucceeds` | vk_socket.c:604-713 | a handler fails only on a pipe bound the wrong way round |
| `Scheduler.PostpollSucceedsIff` | vk_proc.c:354-423 | with correctly bound pipes, applying poll results fails exactly if some blocked socket has a descriptor outside the table |
| `Scheduler.ReapKeeps` | vk_proc_local.c:143-154 | an ended coroutine leaves the run queue, and its sockets the blocked queue |
| `Scheduler.WaiterOwns` | vk_thread.c:163-185 | a waiting coroutine owns the socket it waits on, so that unblocking it handles a socket of its own |
| `Scheduler.TakenHupKeeps` | vk_thread_io.h:160-171 | a readhup inside a body keeps the queues sound, with the writer that it wakes queued |
| `Scheduler.CreatedKeeps` | vk_thread.c:15-64 | a new coroutine and its socket leave the invariant and are on no queue |
| `Scheduler.PipedKeeps` | vk_thread.h:152-175 | so does binding the writes of one socket to the reads of another |
| `Turns.PlayAwakes` | vk_thread_exec.h:5 | playing a coroutine that has not ended puts it on the run queue, ready, and one that has stays off it |
| `Turns.RaiseAwakes` | vk_thread_err.h:28-35 | raising an error in one does too, and it is called in its error state |
| `Turns.AgainBlocks` | vk_thread.c:163-185 | `vk_again` on an own socket puts it on the blocked queue and moves no byte |
| `Turns.ReadHupTakes` | vk_thread_io.h:160-171 | an inline readhup takes the writer's EOF and drains it, moves no byte, and wakes the writer |
| `Turns.CreateAdds` | vk_thread.c:15-64 | a new coroutine is ready and on no queue, with a socket of its own and empty rings; all others are as they were |
| `Turns.PipelineBinds` | vk_thread.h:152-158 | both ends of a pipeline are bound to each other, and no other pipe changes |
| `Turns.LeavesAs` | vk_proc_local.c:325-356 | the status that each way of yielding leaves, the socket that a wait takes over, and no other coroutine changed |
| `Turns.WaitWrites` | vk_proc_local.c:325-356 | a wait in the middle of a write gives out what its pipe takes, in the same turn |
| `Turns.WaitReads` | vk_proc_local.c:325-356 | a wait in the middle of a read takes in what the system gives, in the same turn |
| `Acting.WaitNowhereFails` | vk_thread.c:163-185 | a wait on no socket fails the run |
| `Turns.FinishReaps` | vk_proc_local.c:325-356 | a coroutine that ends is on no queue any more, with none of its sockets |
| `Scheduler.TurnKeeps` | vk_proc_local.c:309-359 | one call of a coroutine, whatever sequence of plays, raises, sends, receives, inline readhups, creations of coroutines and bindings of pipes and descriptors its body is and however it yields, and the unblock or reap after it keep the invariant |
| `Scheduler.ExecuteKeeps` | vk_proc_local.c:309-359 | at every point of every run of such calls: flags equal queues, marks equal membership without repetition, no ended coroutine is queued or owns a queued socket; a run that succeeds has an empty run queue and nobody running |
| `Scheduler.TurnStaysAwake` | vk_proc_local.c:325-356 | no turn of another coroutine takes one that is queued and ready off the run queue, or makes it wait |
| `Scheduler.AwakeIsCalled` | vk_proc_local.c:309-359 | a run that returns successfully has called every coroutine that was on the run queue and ready, whatever the others did |
| `Turns.FromMoment` | vk_proc_local.c:309-359 | from the moment before any turn on, a run is the rest of the run and calls the rest of the calls |
| `Turns.CalledAt` | vk_proc_local.c:309-359 | every call of a run is the turn of the coroutine that it calls |
| `Turns.PlayedIsCalled` | vk_thread_exec.h:5 | over every run that finishes: whoever a turn plays, or raises an error in, while alive and not itself, is called after that turn |
| `Turns.HeadIsCalledFirst` | vk_proc_local.c:309-359 | the head of the run queue is called first |
| `ProcLocal.ProcLocal.constructor` | vk_proc_local.c:12-19 | empty queues, cleared flags, nobody running; with unmarked coroutines and sockets the invariant holds |
| `ProcLocal.ProcLocal.MarkReady` | vk_thread.c:151-161 | ended and failed coroutines keep their status, all others become runnable |
| `ProcLocal.ProcLocal.EnqueueRun` | vk_proc_local.c:89-108 | on the linked run queue, refines the step on sequences; insertion is at the head, whatever the comments call the end of the queue |
| `ProcLocal.ProcLocal.EnqueueBlocked` | vk_proc_local.c:110-127 | refines the specified step |
| `ProcLocal.ProcLocal.DropRun` | vk_proc_local.c:129-141 | refines the specified step |
| `ProcLocal.ProcLocal.DropBlocked` | vk_proc_local.c:156-172 | refines the specified step |
| `ProcLocal.ProcLocal.DequeueRun` | vk_proc_local.c:174-196 | none exactly if the queue is empty, otherwise its head, with mark and flag updated |
| `ProcLocal.ProcLocal.DropBlockedFor` | vk_proc_local.c:143-154 | the walk along the links drops every blocked socket of one coroutine from the list it walks |
| `ProcLocal.ProcLocal.EnqueueRead` | vk_socket.c:198-203 | consumes the read ring's effect and readies the owner |
| `ProcLocal.ProcLocal.EnqueueWrite` | vk_socket.c:204-209 | consumes the write ring's effect and readies the owner |
| `ProcLocal.ProcLocal.EnqueueReadWriter` | vk_socket.c:211-217 | consumes the peer's effect, queues the peer's coroutine and readies the owner |
| `ProcLocal.ProcLocal.EnqueueWriteReader` | vk_socket.c:219-225 | the same for the reader of our writes |
| `ProcLocal.ProcLocal.HandleBlock` | vk_socket.c:114-164 | writes both poll futures and queues the socket exactly if a descriptor side is blocked |
| `ProcLocal.ProcLocal.HandleRead` | vk_socket.c:228-271 | refines the specified handler |
| `ProcLocal.ProcLocal.HandleWrite` | vk_socket.c:274-304 | refines the specified handler |
| `ProcLocal.ProcLocal.HandleReadHup` | vk_socket.c:417-438 | refines the specified handler |
| `ProcLocal.ProcLocal.HandleHup` | vk_socket.c:441-463 | refines the specified handler; nobody is woken while the EOF is still set |
| `ProcLocal.ProcLocal.HandleForward` | vk_socket.c:307-415 | refines the specified handler, both halves |
| `ProcLocal.ProcLocal.HandleTxClose` | vk_socket.c:465-496 | refines the specified handler |
| `ProcLocal.ProcLocal.HandleRxClose` | vk_socket.c:498-525 | refines the specified handler |
| `ProcLocal.ProcLocal.Handle` | vk_socket.c:604-713 | refines the dispatch over pending operations, with the lazy flush |
| `ProcLocal.ProcLocal.RetrySocket` | vk_proc_local.c:268-307 | refines the specified retry |
| `ProcLocal.ProcLocal.RetrySockets` | vk_proc.c:412-420 | the walk that reads the link of a socket after the retry has unlinked it retries every socket of the old queue, in order |
| `ProcLocal.ProcLocal.Postpoll` | vk_proc.c:354-423 | both walks along the links of the blocked list refine the specified function |
| `ProcLocal.ProcLocal.Create` | vk_thread.c:15-64 | refines the specified step |
| `ProcLocal.ProcLocal.Pipeline` | vk_thread.h:152-175 | refines the specified step |
| `ProcLocal.ProcLocal.TakeHup` | vk_thread_io.h:160-171 | refines the specified step |
| `ProcLocal.ProcLocal.CallThread` | vk_proc_local.c:309-359 | one call: the waiting mark is cleared, the body's steps are applied, and it leaves a status |
| `ProcLocal.ProcLocal.UnblockThread` | vk_thread.c:163-185 | applies the pending operation of a waiting coroutine |
| `ProcLocal.ProcLocal.RunThread` | vk_proc_local.c:325-356 | the inner loop calls one coroutine for as long as it stays ready |
| `ProcLocal.ProcLocal.Execute` | vk_proc_local.c:309-359 | refines the specified run; success means an empty run queue, a cleared flag and nobody running |
| `SList.ChainUnlink` | vk_proc_local.c:129-172 | making the predecessor skip an element removes exactly it from the linked list |
| `SList.WithoutMembers` | vk_proc_local.c:129-172 | removal takes one element out of a list without repetitions and keeps all others |
| `SList.LinkedList.RemoveHead` | vk_proc_local.c:174-196 | removal of the head, on links |
| `SList.LinkedList.InsertHead` | vk_proc_local.c:89-127 | insertion at the head, on links |
| `SList.LinkedList.Remove` | vk_proc_local.c:129-172 | removal from anywhere, on links; the removed element keeps its link, so that a walk that stands at it has the rest of the list before it |
| `SList.WithoutTail` | vk_proc.c:412-420 | removing an element that a walk has passed leaves the end of the list that is before the walk |
| `SList.DropOne` | vk_fd_table.c:829-845 | one step of a walk: what is kept so far, followed by what is still to come, is the list after the removal |
| `SList.LinkedList.WalkDropping` | vk_fd_table.c:829-845 | a walk that removes any of the elements it visits, and goes on from the link it reads after the removal, visits exactly the old list and leaves exactly the elements it did not remove |
| `Memory.LoadStored` | vk_stack.c:77-78 | the link word that a push stores is read back unchanged |
| `Memory.LoadElsewhere` | vk_stack.c:104-110 | and no store beside the word changes it |
| `Stack.LinkedApart` | vk_stack.c:61-116 | live allocations are page-aligned, in bounds and pairwise disjoint, and each link holds its block's length |
| `Stack.LinkSurvivesIff` | vk_stack.c:77-78 | writes inside the requested bytes can never damage the link exactly if the request leaves a word free at the end of its last page |
| `Stack.LinkedPush` | vk_stack.c:61-90 | a nonempty push keeps every link and adds its own |
| `Stack.LinkLost` | vk_stack.c:77-78 | an empty push overwrites the link of the block underneath |
| `Stack.Stack.Push` | vk_stack.c:61-90 | succeeds exactly if the aligned length is representable and fits; returns the old cursor; keeps the links exactly if the request is not empty; an empty push on an empty stack stores before the memory |
| `Stack.Stack.Write` | vk_stack.c:61-90 | a client's write within its requested bytes, with a word to spare, keeps every link |
| `Stack.Stack.Pop` | vk_stack.c:92-116 | takes the cursor back to where the matching push found it, using only the in-band link; `ERANGE` exactly if nothing is live |
| `Pool.NeededBufferSize` | vk_pool.c:79-101 | table and object area in whole pages, or failure exactly if some product or round-up does not fit |
| `Pool.CarvedApart` | vk_pool.c:103-190 | object slices of a given buffer lie behind the table and inside the buffer, and never overlap |
| `Pool.Pool.Init` | vk_pool.c:103-190 | succeeds exactly if a given buffer has the needed size and no memory or callback fails; all entries are then free; below 2^31 entries the slices of a given buffer fill it exactly, and without one each entry has a mapping of its own, each at least as long as an object |
| `Pool.Pool.Fill` | vk_pool.c:150-190 | the loop from last to first, on an `int` index, leaves the entries free in ascending order, up to the one whose memory or callback fails |
| `Pool.Pool.Alloc` | vk_pool.c:43-58 | fails exactly if every entry is handed out; otherwise hands out one that was not |
| `Pool.Pool.Free` | vk_pool.c:60-77 | takes back an entry that was handed out, to the head of the free list, even when the callback fails; every entry stays free or handed out and never both |
| `WrapGuard.MultFitsIff` | vk_wrapguard.c:35-42 | the guard rejects a product exactly if it exceeds `SIZE_MAX`, for all inputs |
| `WrapGuard.AddFitsIff` | vk_wrapguard.c:45-52 | the guard rejects a sum exactly if it exceeds `SIZE_MAX` |
| `WrapGuard.SafeMult` | vk_wrapguard.c:54-66 | the exact product or failure |
| `WrapGuard.SafeAdd` | vk_wrapguard.c:68-80 | the exact sum or failure |
| `WrapGuard.SafePageLen` | vk_wrapguard.c:82-125 | the exact number of pages or failure |
| `WrapGuard.RoundUpIsPages` | vk_wrapguard.c:82-143 | counting pages by division gives the same length as adding page by page |
| `WrapGuard.RoundUpIsLeast` | vk_wrapguard.c:127-143 | the round-up is the least page multiple not below the length |
| `WrapGuard.AlignedLenExact` | vk_wrapguard.c:127-143 | fails exactly if the product or its round-up exceeds `SIZE_MAX`, otherwise the least page multiple not below the product |
| `WrapGuard.SafeAlignedLen` | vk_wrapguard.c:127-161 | computes that length for every page size, 2 MiB pages included |
| `WrapGuard.HugeAlignedLen` | vk_huge.c:144-163 | agrees with it on every input, although it rounds by remainder |
| `KernelInv.FlushPlaces` | vk_kern.c:482-495 | after a flush a process is on the run list exactly if it has something to run and on the blocked list exactly if a socket is blocked |
| `KernelInv.AllocateOwned` | vk_proc.c:75-90 | allocation keeps every descriptor on the list of its owner and on no other |
| `KernelInv.DeallocateOwned` | vk_proc.c:92-100 | so does deallocation |
| `KernelInv.ReleaseClosedKeeps` | vk_proc.c:313-331 | the walk that deallocates closed descriptors while it reads their list keeps flags equal to membership |
| `KernelInv.PrepollKeeps` | vk_proc.c:303-344 | so does the whole registration, whatever descriptors the sockets name |
| `KernelInv.BuryAllKeeps` | vk_fd_table.c:231-251 | the walk over a zombie's descriptors leaves its list empty, every one dirty and marked |
| `KernelInv.FreeKeeps` | vk_kern.c:690-711 | a freed process is on no list and no descriptor remains allocated to it |
| `KernelRun.DispatchKeeps` | vk_kern.c:670-725 | a dispatch keeps the invariant and frees the process exactly if its execution left no socket blocked |
| `KernelRun.WakeFreshWakes` | vk_kern.c:733-737 | every fresh descriptor puts its live owner on the run list, and nobody leaves it |
| `KernelRun.RunAllDispatches` | vk_kern.c:739-748 | every process on the run list is dispatched, and poll reports stay unchanged until then |
| `KernelRun.RunListMeasuresPass` | vk_kern.c:739-748 | without new processes the length of the run list measures the pass: it completes exactly when as many dispatches have run, each process once, in list order |
| `KernelRun.ExecutionDecidesLife` | vk_kern.c:670-725 | in such a pass a process survives exactly if its own execution left a socket blocked |
| `KernelRun.PassSettles` | vk_kern.c:727-751 | with the run list empty, live processes are exactly those on the blocked list, and those exactly the ones with a blocked socket |
| `KernelRun.CleanKeeps` | vk_fd_table.c:299-331 | cleaning touches one descriptor, keeps the lists, and leaves it to be polled exactly if it is open, no zombie, not asked to close and asks for events |
| `KernelRun.PollArrayIs` | vk_fd_table.c:829-845 | the poll array holds exactly the dirty descriptors that ask for events; each is allocated and no zombie |
| `KernelRun.PollArrayDistinct` | vk_fd_table.c:829-845 | each at most once |
| `KernelRun.ProcessFdReports` | vk_fd_table.c:256-296 | a polled descriptor carries its report, and is fresh if there was one |
| `KernelRun.PollKeeps` | vk_fd_table.c:821-882 | polling keeps the invariant for every answer of the system and moves nothing between processes |
| `KernelRun.FreshIsLive` | vk_fd_table.c:113-127 | zombie safety: what is handed over as fresh is no zombie, and its owner is live |
| `KernelRun.OneOwner` | vk_proc.c:75-100 | no descriptor is on the lists of two processes |
| `KernelRun.EventReachesProcess` | vk_kern.c:727-751 | the owner of any descriptor returned with events is live, is dispatched in the next complete pass, and finds the report in the table |
| `KernelRun.LoopExits` | vk_kern.c:765-794 | over every run the loop exits exactly when no process has a blocked socket |
| `KernelRun.NothingLeft` | vk_kern.c:497-500 | when nothing is pending no process is live and no descriptor is allocated |
| `KernelRun.LoopIsSafe` | vk_kern.c:765-794 | from boot on, for all spawns, reports and executions, all of this holds at every point |
| `Registration.ReleaseClosedReleases` | vk_proc.c:313-331 | the walk takes every closed descriptor off the process and closes none |
| `Registration.PrepollFdRegisters` | vk_fd_table.c:182-228 | a descriptor that is free for the process becomes allocated to it and is asked for exactly the socket's events, whatever was asked before; other descriptors are untouched |
| `Registration.PrepollSocketRegisters` | vk_fd_table.c:151-177 | the same for a socket with both directions; of one descriptor used both ways the read side is asked |
| `Registration.LastSocketWins` | vk_fd_table.c:182-228 | exact law of a registration: a descriptor ends up asked for what the last socket of the walk that names it asks, and dirty if it was or if any of them asks for something |
| `Registration.PolledIffLastAsks` | vk_proc.c:303-344 | after the prepoll a named descriptor is in the next poll array if and only if the last socket of the queue that names it asks for something; a socket has all that it waits for registered if and only if that last one asks for it |
| `Registration.WriteWaitLost` | vk_fd_table.c:211-216 | the input at which a wait is lost: a coroutine writes a descriptor and a later one of the queue reads it, and only the read is asked for |
| `Registration.WaitDropped` | vk_fd_table.c:211-216 | the input at which the descriptor is not even polled: the later socket names it for an idle direction |
| `Registration.RegisteredUntilReturned` | vk_fd_table.c:256-296 | a polled descriptor leaves the dirty list exactly when everything it asked for was returned, and otherwise stays registered for the same events |
| `Registration.IdlePollIgnores` | vk_fd_table.c:821-882 | where nothing is pending no report is taken |
| `Registration.ReportCloses` | vk_fd_table.c:256-296 | hang-ups and errors that are reported close the directions they concern, and nothing opens them again |
| `Closing.CleanIs` | vk_fd_table.c:299-331 | what cleaning leaves of a descriptor in every field: a close that is asked for is done and marked in both directions, a zombie leaves both lists, an owner that lives is to be told |
| `Closing.PollCloses` | vk_fd_table.c:821-882 | a close that is asked for is done by the next poll, which does not wait for the descriptor |
| `Closing.CloseReachesProcess` | vk_kern.c:727-751 | and the process that asked is dispatched in the pass that follows, and finds both directions closed |
| `Closing.DispatchBuries` | vk_kern.c:670-725 | a process that leaves no socket blocked leaves no descriptor behind: each is free, dirty, and closed or to be closed |
| `Closing.EndedIsClosed` | vk_fd_table.c:231-251 | over every pass: when a process ends, every descriptor it has is closed by the poll that follows and free for others, unless another process names it first |
| `Closing.SpawnAllStarts` | vk_kern.c:384-408 | the processes that an execution starts, and no others, become live and are queued to run |
| `Closing.StartedIsDispatched` | vk_kern.c:739-748 | and a pass that completes dispatches them |
| `Kern.Kern.constructor` | vk_kern.c:251-380 | an allocated kernel satisfies the invariant |
| `Kern.Kern.EnqueueRun` | vk_kern.c:410-418 | refines the specified step |
| `Kern.Kern.EnqueueBlocked` | vk_kern.c:420-428 | refines the specified step |
| `Kern.Kern.DropRun` | vk_kern.c:430-438 | refines the specified step |
| `Kern.Kern.DropBlocked` | vk_kern.c:440-448 | refines the specified step |
| `Kern.Kern.DequeueRun` | vk_kern.c:450-464 | none exactly if the list is empty, otherwise its head, with its flag cleared |
| `Kern.Kern.FlushProcQueues` | vk_kern.c:482-495 | refines the specified step |
| `Kern.Kern.IsPending` | vk_kern.c:497-500 | some list is not empty |
| `Kern.Kern.EnqueueDirty` | vk_fd_table.c:57-65 | refines the specified step |
| `Kern.Kern.EnqueueFresh` | vk_fd_table.c:67-75 | refines the specified step |
| `Kern.Kern.DropDirty` | vk_fd_table.c:77-85 | refines the specified step |
| `Kern.Kern.DropFresh` | vk_fd_table.c:87-95 | refines the specified step |
| `Kern.Kern.DequeueFresh` | vk_fd_table.c:113-127 | none exactly if the list is empty, otherwise its head, with its flag cleared |
| `Kern.Kern.AllocateFd` | vk_proc.c:75-90 | refines the specified step; fails exactly if another process holds the descriptor |
| `Kern.Kern.DeallocateFd` | vk_proc.c:92-100 | refines the specified step |
| `Kern.Kern.PrepollFd` | vk_fd_table.c:182-228 | refines the specified registration |
| `Kern.Kern.PrepollSocket` | vk_fd_table.c:151-177 | refines it for both directions |
| `Kern.Kern.Prepoll` | vk_proc.c:303-344 | the two walks refine the specified registration |
| `Kern.Kern.PrepollZombie` | vk_fd_table.c:231-251 | the walk, which reads each link before it is destroyed, refines the specified burial |
| `Kern.Kern.CleanFd` | vk_fd_table.c:299-331 | refines the specified step |
| `Kern.Kern.ProcessFd` | vk_fd_table.c:256-296 | refines the specified step |
| `Kern.Kern.BuildPollArray` | vk_fd_table.c:829-845 | the walk along the links of the dirty list, from which it drops some elements and reads their links afterwards, builds exactly the specified poll array |
| `Kern.Kern.Poll` | vk_fd_table.c:821-882 | refines the specified poll and keeps the invariant |
| `Kern.Kern.DispatchProc` | vk_kern.c:670-725 | refines the specified dispatch and keeps the invariant |
| `Kern.Kern.WakeFresh` | vk_kern.c:733-737 | refines the specified loop |
| `Kern.Kern.Postpoll` | vk_kern.c:727-751 | refines the specified pass and keeps the invariant |
| `Kern.Kern.RunLoop` | vk_kern.c:765-794 | refines the specified loop and keeps the invariant |
| `Wakeup.ExecutionLeaves` | vk_proc_local.c:309-359 | a successful local execution leaves what the kernel assumes: nothing to run, and a blocked flag that tells whether anything is to be registered |
| `Wakeup.ApplyPollStores` | vk_proc.c:371-410 | a blocked socket's futures receive the reports of its own descriptors |
| `Wakeup.PostpollWakes` | vk_proc.c:354-423 | a socket that waits on a descriptor has the report in the directions that wait before it is retried; its write, if POLLOUT or POLLHUP came, has given out what the system took and its read has taken in what the system gave; and after the postpoll its coroutine is on the run queue exactly once, and ready |
| `Wakeup.WokenIsCalled` | vk_proc_local.c:309-359 | an execution that finishes after it has called that coroutine |
| `System.BornTied` | vk_kern.c:384-408 | starting processes inside an execution keeps the kernel's view of every process equal to its local state, and touches no live process |
| `System.DispatchKeepsTies` | vk_kern.c:670-725 | so does a whole dispatch: postpoll on the table, execution of the coroutines, registration of what they leave blocked, flush or release |
| `System.RunAllTies` | vk_kern.c:739-748 | so does a pass, up to the dispatch that fails if one does |
| `System.FirstDispatch` | vk_kern.c:739-748 | until its own dispatch a live process keeps its local state and its poll reports, whatever is dispatched before it; on the run list, a complete pass dispatches it |
| `System.EventRunsCoroutine` | vk_kern.c:727-794 | event to coroutine, in one state with the kernel and all processes: in the pass after a poll result, the owner of the descriptor is first dispatched with the local state it had; before any of its coroutines runs, each blocked socket waiting on the descriptor has the report, the transfer it waited to do has been tried with the system's answer, and its coroutine is on the run queue exactly once, and ready; it is called unless the dispatch fails |
| `Runs.DispatchPolls` | vk_proc.c:303-344 | a dispatch that leaves a descriptor named leaves it registered for what the last socket naming it asks, and in the next poll array exactly if that is something |
| `Runs.BlockedSocketsPolled` | vk_proc.c:303-344 | coroutine to poller, right after a dispatch: of what the coroutines of a process leave blocked the last socket of the queue decides whether its descriptor is polled, and a socket's wait is registered if and only if that last one asks for it |
| `Runs.BlockedRingPolled` | vk_proc.c:303-344 | and in terms of the rings: the descriptor is polled exactly if the ring with which that last socket uses it is blocked, for POLLIN if it reads it and for POLLOUT otherwise, provided its futures are as a handler leaves them (`Retries.HandlerRegisters`) |
| `Runs.PassRefines` | vk_kern.c:727-751 | a pass of both levels in which nothing fails is the kernel's pass over those executions, process by process |
| `Runs.LoopRefines` | vk_kern.c:765-794 | every run of the loop on both levels is a run of the kernel's loop, and keeps the levels tied |
| `Runs.RunsAreTied` | vk_kern.c:765-794 | from boot on, over every run, the levels agree; once the loop has returned no process lives, no descriptor is allocated and no socket is blocked |
| `Runs.EveryEventRunsCoroutine` | vk_kern.c:765-794 | no event is lost in any run: wherever a run from boot waits for the poller, whatever it then returns for a descriptor reaches every socket of the owner that waits on it: its transfer is tried, its coroutine is queued, and if the pass completes that coroutine is called |
| `Watch.DispatchOthers` | vk_kern.c:670-725 | the dispatch of a process that leaves no socket blocked on a descriptor of another leaves that descriptor as it is |
| `Watch.PollWatched` | vk_fd_table.c:821-882 | a poll leaves a descriptor registered for the same events, unless it makes it fresh |
| `Watch.AlwaysRegistered` | vk_kern.c:765-794 | over every run of the kernel from boot, a descriptor on which only one process leaves sockets blocked is registered, wherever the loop waits, for what the last of them asks, and is in the next poll array exactly if that is anything |
| `Runs.BlockedStaysPolled` | vk_kern.c:765-794 | the same over every run of both levels: the last blocked socket of the process that names the descriptor is the one it is registered for, wherever the loop waits |
| `Hex.Flsl` | vk_rfc.c:83-92 | the loop finds the highest set bit: the result brackets the mask between two powers of two |
| `Hex.FlshCounts` | vk_rfc.c:97-98 | the digit count is that of the low 61 bits, and 16 exactly if bit 60 is set, because the shift by three loses the top bits |
| `Hex.ValHexDigits` | vk_rfc.c:95-96 | the branchless formula gives the digit character, for every digit |
| `Hex.HexValInverts` | vk_rfc.c:137-138 | the branchless reading of a digit character inverts the writing |
| `Hex.HexIgnoresCase` | vk_rfc.c:137-153 | small letters are read as the capitals that are written |
| `Hex.SizeHex` | vk_rfc.c:106-135 | the loop writes exactly the counted digits, most significant first and as many as fit, and nothing else; without a digit it reports one unwritten character |
| `Hex.ReadHex` | vk_rfc.c:139-153 | the loop reads at most 16 characters up to the terminator |
| `Hex.HexOfDigits` | vk_rfc.c:139-153 | reading the last k digits of a number gives the number modulo 16^k |
| `Hex.HexRoundTripIff` | vk_rfc.c:106-153 | what is written reads back as the size exactly if the size is below 2^61 or has bit 60 set |
| `Hex.PrefixReadsLess` | vk_rfc.c:139-153 | some of the digits written, but not all, read as a smaller number |
| `Chunks.RTrimEnds` | vk_rfc.c:9-25 | trimming undoes a line end, with or without its newline, whatever the text |
| `Chunks.RTrimInPlace` | vk_rfc.c:9-25 | the in-place version agrees, and bytes behind the line are untouched |
| `Chunks.ReadHeadCarried` | vk_rfc.h:106-119 | a header that is read to its end is read back with its size, for every nonempty size below 2^60 or with bit 60 set |
| `Chunks.ReadHeadWhole` | vk_rfc.h:106-119 | a header of 16 digits whose newline is buffered in time is read whole, all 18 bytes, and so is every shorter one |
| `Chunks.ReadHeadLong` | vk_rfc.h:106-119 | of a header of 16 digits that fills the request before its newline has arrived, 17 bytes are read and the newline is left behind; so it is if the read stops at the return |
| `Chunks.ReadWrittenChunk` | vk_rfc.h:94-136 | a chunk that survives is read back, with the stream at its end |
| `Chunks.ReadOtherChunk` | vk_rfc.h:94-136 | any other chunk is not read back, or only with the line end after it left in the stream, where no header is |
| `Chunks.HeadOverrunsIff` | vk_rfc.h:106-119 | a header line is stored through the end of its 19 bytes if and only if it is buffered in time, its read does not stop early, and it is longer |
| `Chunks.LongHeadOverruns` | vk_rfc.h:106-119 | the inputs: any line of 20 bytes or more, as a chunk extension makes it, that is buffered whole |
| `Chunks.TrailerOverruns` | vk_rfc.h:58-72 | the same law for the lines of the trailer section and their 1024 bytes |
| `Chunks.ReadEndMarker` | vk_http11.c:336-358 | the end marker and the empty line after it are taken from the stream exactly if neither read stops early |
| `Chunks.ReadTrailerLine` | vk_rfc.c:45-75 | a line of the trailer section is taken with its line end, and ends the section exactly if no key can be split off it |
| `ChunkErrors.HasKeyIff` | vk_rfc.c:45-75 | a key can be split off a line exactly if a colon, a blank or a tab comes before any terminator |
| `Chunks.TrailersSkipped` | vk_http11.c:350-378 | any number of trailer fields, and the empty line after them, are taken from the stream and nothing behind them |
| `Chunks.EntityRoundTripIff` | vk_http11.c:336-358 | however the stream arrives, the read loop recovers exactly the chunks written, and leaves exactly what follows the final empty line, if and only if every chunk survives: it is nonempty, of a size that its header carries, and the reads of its header and of the end come to their ends |
| `ChunkErrors.CutEntity` | vk_http11.c:336-378 | over all entities: a stream that is cut off anywhere before its last byte is refused with EPIPE, never taken for a whole one; without its last byte alone it is |
| `ChunkErrors.ChunkCases` | vk_rfc.h:94-136 | behind a whole header: too few bytes raise EPIPE, data without its line end EPROTO, and anything else is the chunk and what follows it |
| `ChunkErrors.HeadLine` | vk_rfc.h:106-119 | of any header line the size is read, or EPROTO is raised: exactly when nothing is left of it, or more than the macro asks for |
| `ChunkErrors.NothingLeft` | vk_rfc.h:58-136 | the end of the stream raises EPIPE wherever a header or a trailer line is expected |
| `Chunks.CarriesBySize` | vk_http11.c:336-358 | by sizes alone, when no read stops early: with every line buffered in time those below 2^60 or with bit 60 set survive, with every line late those below 2^60, and these survive every arrival |
| `Chunks.ChunkHead.UpdateHead` | vk_rfc.c:178-186 | the buffer holds the digits, a line end and a terminator, within its 19 bytes |
| `Chunks.ChunkHead.TakeHead` | vk_rfc.h:106-119 | refines the specified header reading for every arrival, errors and overruns included |
| `Chunks.ChunkHead.TakeFooter` | vk_rfc.h:121-136 | refines the specified footer reading, errors included |
| `Chunks.ChunkHead.WriteAll` | vk_http11.c:104-121 | the write loop produces the specified stream |
| `Chunks.ChunkHead.ReadAll` | vk_http11.c:336-378 | the loop over chunks and the loop over trailer fields are the specified reader, for every arrival |
| `Lines.ReadEnds` | vk_thread_io.h:32-63 | whatever is buffered at each pass, and whatever the memory holds, a read that is over has stored its line whole, or as many bytes as were asked for, or has stopped early, as the arrival says that stands for it |
| `Lines.EndHappens` | vk_thread_io.h:32-63 | and each of these ends is one that some pass comes to |
| `Lines.ReadInsideIff` | vk_vectoring.c:188-199 | what a read stores fits a buffer if and only if it stops early, its newline comes late or not at all, or its line is no longer than the buffer |
| `Lines.ReadLineOf` | vk_thread_io.h:32-63 | the text and the rest of a line with a newline, for every arrival |
| `Lines.LineFromIsFirstLine` | vk_vectoring.c:188-199 | the line read is the one the newline scan finds |
| `Resp.ParseDec` | vk_redis.c:232-232 | parsing printed digits gives the number and stops behind them |
| `Resp.ParseEncodedArg` | vk_redis.c:228-244 | an argument of at most 63 bytes is read back by its length, even when it contains line ends, once its header is read whole; the parser is then behind it exactly if the read of its line end does not stop early |
| `Resp.StoppedArgLags` | vk_redis.c:228-244 | an argument of which a read stops early is not read back, or leaves the parser short of its end and not at a header, whatever number the rest of the buffer makes of the length |
| `Resp.BulkInsideIff` | vk_redis.c:232-241 | the stored bytes and the terminator stay inside the 64 bytes of an argument if and only if the header's number is not negative or too few bytes are there to leave it |
| `Resp.ArgOverrunsIff` | vk_redis.c:228-244 | an argument is stored through the end of a buffer exactly if a line of it is buffered in time and longer than 128 bytes, or its length is negative with more than 64 bytes behind it |
| `Resp.QueryOverrunsIff` | vk_redis.c:212-245 | whatever the input and the arrival, reading a query stores through the end of a buffer if and only if its first line is longer than 127 bytes and buffered in time, or the loop reaches such an argument |
| `Resp.LongLineOverruns` | vk_vectoring.c:188-199 | the inputs: a line of more than 128 bytes that is buffered whole is stored whole in the line buffer |
| `Resp.CountLineIsStale` | vk_thread_io.h:37-59 | the memory and the arrival at which a read stops early: the count line of the query itself is left in the buffer, and of the header behind it two bytes arrive first |
| `Resp.NegativeBulkStoresAll` | vk_redis.c:232-241 | the input: after the header `$-1` every byte that follows, however many, is stored in the one buffer |
| `Resp.ParseArgsFit` | vk_redis.c:227-245 | whatever the input and the arrival, the arguments of a query that is accepted fit their buffers with a terminator |
| `Resp.QueryRoundTripIff` | vk_redis.c:212-245 | however it arrives, a query is read back if and only if it has 1 to 8 arguments of at most 63 bytes without NUL and no read of a line of it stops early |
| `RespErrors.CutQuery` | vk_redis.c:212-245 | over all queries: one that is cut off anywhere before its last byte is refused, and without its last byte alone it is read |
| `RespErrors.CutArgs` | vk_redis.c:227-245 | cut off among its arguments it is refused with EPIPE |
| `RespErrors.StarNeeded` | vk_redis.c:212-226 | a query that does not start with a star is refused |
| `RespErrors.CountRefused` | vk_redis.c:212-226 | one that announces no argument, or more than eight, is refused with EINVAL, and any other count is read |
| `Resp.ThroughFirstClose` | vk_redis.c:246-267 | the queries that are answered are those through the first that is QUIT or SHUTDOWN in any case |
| `RespErrors.ServeEnds` | vk_redis.c:210-267 | whatever the input: a session ends at the end of its input, at a query that is refused, or behind the first that closes it |
| `RespErrors.AskedIs` | vk_redis.c:246-256 | `quit` and `shutdown`, in letters of any case, close the session, and only `shutdown` the server |
| `Resp.SessionRoundTrip` | vk_redis.c:210-267 | when no read of these queries stops early, parsing the concatenated encodings returns the same queries through the first that closes, and leaves the rest of the input untouched, whatever is buffered when |
| `Resp.ClientAndServer` | vk_redis.c:332-355 | a client that stops after the query that closes leaves the server nothing unread |
| `Resp.RedisQuery.Send` | vk_redis.c:341-353 | the encode loop writes the specified encoding |
| `Resp.RedisQuery.ReadArg` | vk_redis.c:228-244 | refines one turn of the parse loop for every arrival, overruns included, with the buffer terminated and all earlier buffers kept |
| `Resp.RedisQuery.ReadBulk` | vk_redis.c:228-244 | the clamp, the read with its length passed as a `size_t`, the terminator and the line end; as far as the bytes stay inside, they are in the buffer |
| `Resp.RedisQuery.ReadQuery` | vk_redis.c:212-256 | refines the specified parse of one query for every arrival, errors and overruns included, with its flags |
| `Resp.RedisQuery.ServeAll` | vk_redis.c:210-267 | the server loop is the specified session, for every arrival |

## Left out

- System calls (`readv`, `writev`, `poll`, `close`, `mmap`, `accept`): their results are parameters; only the poll driver is modelled, not kqueue, epoll or AIO.
- Coroutine resumption by line number, `setjmp` and `longjmp`, signals, isolation and heap protection.
- Threads, sockets, descriptors and processes are records addressed by index, not heap objects reached by pointers. The six queues of the classes are linked lists; the list of a process's descriptors is a sequence, because both walks over it read each link before the element goes.
- A dispatch that fails ends `vk_kern_loop`: `System` and `Runs` say nothing of the state it leaves, and the loops of `KernelRun` and `Kern` take executions that succeed. Failing heap and poll calls are not modelled.
- Process.HandleBlockKeeps: the `readable` and `writable` counts of the futures are not modelled, only events and closures; `ThreadIo.Block.CheckHup` takes the count as an argument.
- Scheduler.ExecuteKeeps: `vk_raise_at` on a coroutine that has ended is taken as no step, because it would revive it; the memory of ended coroutines is not reused. What a body does to the rings of a socket it owns is any valid value, and a future that is sent or resolved is the play of the coroutine that waits.
- Scheduler.NoLostWakeup: speaks of postpolls whose retries succeed; `Scheduler.PostpollSucceedsIff` says when they do. A pending signal skips the postpoll and is not modelled.
- The shutdown branch of `vk_kern_prepoll`: it sets `run_qed` before the flush and so breaks the list invariant.
- PipeRun.ReadHupMatchesHup: proves that the hup completes when it is resumed; `Scheduler.ReadHupWakesWriter` that it is queued. A hup does not wake its reader while the EOF is set.
- PipeProgress.MessageArrives: gives a schedule that gets the message through; it claims nothing of schedules that never splice or never resume one end.
- Wakeup.PostpollWakes: that a transfer was tried is said where no other socket of the process is bound to the same ring, because that one may move bytes too, and of reads and writes of descriptors; `Retries.HandlerRegisters` and `Effects` have the other operations one at a time.
- Closing.EndedIsClosed: for descriptors that no other process names before the poll; one that does takes the descriptor over.
- Fifo.SpliceConserves: a `readv` into a full ring returns zero, which the code takes for EOF; the queue value keeps that behaviour, and the pipe runs read no descriptor.
- IoOp.TxChannel.Execute: the equations over a run of operations are for rings whose segments an `int` can count; `IoOp.ClipExactIff` shows what they lose beyond that. The same for `IoOp.RxChannel.Execute`.
- Stack.Stack.Push: addresses are offsets without an upper end, so a sum of cursor and length cannot wrap; the word before the memory is a word of its own.
- Pool.Pool.Init: nothing is claimed where the count is 2^31 modulo 2^32, because the start of the loop then overflows an `int`. The same for `Pool.Pool.Fill`.
- Runs.BlockedStaysPolled: the condition is one on the run, not on the state, because a process that names a descriptor registers it anew even if another holds it, and what it asked stays when it names it no longer.
- System.EventRunsCoroutine: speaks of sockets on the blocked queue of the descriptor's owner; the code looks nowhere else.
- Chunks.EntityRoundTripIff: values of trailer fields are not interpreted.
- Lines.ReadEnds: where the byte before the buffer is a newline, a read that has found nothing spins instead of waiting, which takes no byte and is not told apart. That a ring holds 16384 bytes bounds what can be buffered at once; the parsers are proved for more.
- Resp.NegativeBulkStoresAll: for streams of less than 2^63 bytes. The client's tokenizing of its input line is not modelled.
- Resp.ClientAndServer: for arrivals at which no read stops early; `Resp.QueryRoundTripIff` has the exact condition of each query.
- Chunks.TrailersSkipped: for such arrivals, and for fields that fit the request; `Chunks.TrailerOverruns` has the others.
- HTTP request and response text, SQLite handling, fetch, servers, clients and TLS set-up, logging, `vk_enum.h`, `vk_io_queue.c`, getters and setters.
- `ltrim`, and the value that `parse_header` splits off.
- `sys/queue.h` is not part of this model; `SList` states what its macros do.
