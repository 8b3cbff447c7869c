/**
 Two coroutines joined by a virtual pipe, run under every interleaving. The writer calls
 `vk_socket_write`, `vk_socket_flush` and `vk_socket_hup` one after the other; the reader calls
 `vk_socket_read` and `vk_socket_readhup`. Splices may be driven from either end between any two
 steps, and either coroutine may be resumed at any time.
 */
module PipeRun {
  import opened Machine
  import opened Fifo
  import opened ThreadIo

  /** The call that the writer is in the middle of. */
  datatype Writer = WriterIdle | Writing(rest: bytes) | Flushing(thenHup: bool) | HupWait

  /** The call that the reader is in the middle of. */
  datatype Reader = ReaderIdle | Reading(want: nat)

  /**
   What has happened so far: all bytes committed by writes and by reads; the messages that hups
   have closed and those that readhups have accepted; and the bytes of the message in progress at
   either end.
   */
  datatype Log = Log(
    written: bytes,
    delivered: bytes,
    closed: seq<bytes>,
    accepted: seq<bytes>,
    open: bytes,
    partial: bytes)

  datatype Pipe = Pipe(tx: Fifo, rx: Fifo, writer: Writer, reader: Reader, log: Log)

  datatype Step =
    | StartWrite(data: bytes)
    | StartFlush
    | StartHup
    | ResumeWriter
    | StartRead(want: nat)
    | ResumeReader
    | ReadHup
    | Splice

  /** One pass of the writer's loop; the bytes it commits are written. */
  function WriterPass(p: Pipe, rest: bytes): Pipe
    requires p.tx.Valid()
  {
    var r := WriteBody(p.tx, rest);
    var sent := rest[..|rest| - |r.rest|];
    p.(tx := r.tx,
       writer := if r.rest == [] then WriterIdle else Writing(r.rest),
       log := p.log.(written := p.log.written + sent, open := p.log.open + sent))
  }

  /** The loop of `vk_socket_flush`, and the EOF that a hup sets once the ring has drained. */
  function FlushPass(p: Pipe, thenHup: bool): Pipe {
    if p.tx.contents != [] then p.(writer := Flushing(thenHup))
    else if !thenHup then p.(writer := WriterIdle)
    else if p.tx.eof then p.(writer := WriterIdle)
    else p.(tx := p.tx.MarkEof(), writer := HupWait,
            log := p.log.(closed := p.log.closed + [p.log.open], open := []))
  }

  /** One pass of the reader's loop; the bytes it commits are delivered. */
  function ReaderPass(p: Pipe, want: nat): Pipe {
    var r := ReadBody(p.rx, Virtual(p.tx), want);
    p.(rx := r.rx,
       reader := if r.done then ReaderIdle else Reading(r.want),
       log := p.log.(delivered := p.log.delivered + r.got, partial := p.log.partial + r.got))
  }

  /**
   `vk_socket_readhup`: refused unless the end of a message is next; otherwise the EOF moves to the
   read ring and is drained from it.
   */
  function ReadHupPass(p: Pipe): Pipe {
    if !PollHup(p.rx, Virtual(p.tx)) then p
    else
      p.(tx := p.tx.ClearEof(), rx := p.rx.MarkEof().ClearEof(),
         log := p.log.(accepted := p.log.accepted + [p.log.partial], partial := []))
  }

  /** A step that its coroutine is not ready to take leaves the pipe as it is. */
  function Next(p: Pipe, step: Step): Pipe
    requires p.tx.Valid()
  {
    match step
    case StartWrite(data) =>
      // a write raises EPIPE while an EOF is outstanding
      if p.writer != WriterIdle || p.tx.eof then p else WriterPass(p, data)
    case StartFlush => if p.writer != WriterIdle then p else FlushPass(p, false)
    case StartHup => if p.writer != WriterIdle then p else FlushPass(p, true)
    case ResumeWriter =>
      (match p.writer
       case WriterIdle => p
       case Writing(rest) => WriterPass(p, rest)
       case Flushing(thenHup) => FlushPass(p, thenHup)
       case HupWait => if p.tx.eof then p else p.(writer := WriterIdle))
    case StartRead(want) => if p.reader != ReaderIdle then p else ReaderPass(p, want)
    case ResumeReader =>
      (match p.reader
       case ReaderIdle => p
       case Reading(want) => ReaderPass(p, want))
    case ReadHup => if p.reader != ReaderIdle then p else ReadHupPass(p)
    case Splice => p.(rx := SpliceRx(p.rx, p.tx, -1), tx := SpliceTx(p.rx, p.tx, -1))
  }

  /** Bytes on their way from the writer to the reader. */
  function InPipe(p: Pipe): bytes {
    p.rx.contents + p.tx.contents
  }

  ghost predicate Inv(p: Pipe) {
    && p.tx.Valid() && p.rx.Valid()
    // the stream: written, then delivered, with the difference in the two rings
    && p.log.written == p.log.delivered + InPipe(p)
    // at most one EOF, on the writer's ring, and only while its hup waits
    && !p.rx.eof
    && (p.tx.eof ==> p.writer == HupWait && p.tx.contents == [] && p.log.open == [])
    // the messages: all closed ones are accepted, or one is still being read
    && (if p.tx.eof then p.log.closed == p.log.accepted + [p.log.partial + InPipe(p)]
        else p.log.closed == p.log.accepted && p.log.open == p.log.partial + InPipe(p))
  }

  lemma WriterPassKeeps(p: Pipe, rest: bytes)
    requires Inv(p) && !p.tx.eof
    ensures Inv(WriterPass(p, rest))
  {
    var r := WriteBody(p.tx, rest);
    WriteKeepsBytes(p.tx, rest);
    var sent := rest[..|rest| - |r.rest|];
    assert r.tx.contents == p.tx.contents + sent;
    assert InPipe(WriterPass(p, rest)) == InPipe(p) + sent;
  }

  lemma FlushPassKeeps(p: Pipe, thenHup: bool)
    requires Inv(p) && p.writer != HupWait
    ensures Inv(FlushPass(p, thenHup))
  {
    var q := FlushPass(p, thenHup);
    assert InPipe(q) == InPipe(p);
  }

  lemma ReaderPassKeeps(p: Pipe, want: nat)
    requires Inv(p)
    ensures Inv(ReaderPass(p, want))
  {
    var q := ReaderPass(p, want);
    var r := ReadBody(p.rx, Virtual(p.tx), want);
    ShortReadMeansHup(p.rx, Virtual(p.tx), want);
    assert InPipe(p) == r.got + InPipe(q);
    Regroup(p.log.partial, r.got, InPipe(q));
    Regroup(p.log.delivered, r.got, InPipe(q));
  }

  lemma Regroup(a: bytes, b: bytes, c: bytes)
    ensures a + (b + c) == (a + b) + c
  {
  }

  lemma ReadHupPassKeeps(p: Pipe)
    requires Inv(p)
    ensures Inv(ReadHupPass(p))
  {
    if PollHup(p.rx, Virtual(p.tx)) {
      assert p.log.partial + InPipe(p) == p.log.partial;
      assert InPipe(ReadHupPass(p)) == [];
    }
  }

  lemma SpliceKeeps(p: Pipe)
    requires Inv(p)
    ensures Inv(Next(p, Splice))
  {
    SpliceConserves(p.rx, p.tx, -1);
    assert InPipe(Next(p, Splice)) == InPipe(p);
  }

  /** Every step of either coroutine, and every splice, keeps the invariant. */
  lemma StepKeeps(p: Pipe, step: Step)
    requires Inv(p)
    ensures Inv(Next(p, step))
  {
    match step
    case StartWrite(data) => if p.writer == WriterIdle && !p.tx.eof { WriterPassKeeps(p, data); }
    case StartFlush => if p.writer == WriterIdle { FlushPassKeeps(p, false); }
    case StartHup => if p.writer == WriterIdle { FlushPassKeeps(p, true); }
    case ResumeWriter =>
      match p.writer {
        case WriterIdle =>
        case Writing(rest) => WriterPassKeeps(p, rest);
        case Flushing(thenHup) => FlushPassKeeps(p, thenHup);
        case HupWait =>
      }
    case StartRead(want) => if p.reader == ReaderIdle { ReaderPassKeeps(p, want); }
    case ResumeReader => if p.reader.Reading? { ReaderPassKeeps(p, p.reader.want); }
    case ReadHup => if p.reader == ReaderIdle { ReadHupPassKeeps(p); }
    case Splice => SpliceKeeps(p);
  }

  /** The states a run passes through, in order. */
  predicate IsRun(states: seq<Pipe>, steps: seq<Step>) {
    && |states| == |steps| + 1
    && forall i :: 0 <= i < |steps| ==> states[i].tx.Valid() && states[i + 1] == Next(states[i], steps[i])
  }

  /** Two empty rings of any sizes, and two coroutines that have not done anything yet. */
  predicate Initial(p: Pipe) {
    && p.tx.Valid() && p.rx.Valid()
    && p.tx.contents == [] && p.rx.contents == [] && !p.tx.eof && !p.rx.eof
    && p.writer == WriterIdle && p.reader == ReaderIdle
    && p.log == Log([], [], [], [], [], [])
  }

  lemma RunStep(states: seq<Pipe>, steps: seq<Step>, i: nat)
    requires IsRun(states, steps) && i < |steps| && states[i].tx.Valid()
    ensures states[i + 1] == Next(states[i], steps[i])
  {
  }

  lemma {:induction false} RunKeeps(states: seq<Pipe>, steps: seq<Step>, i: nat)
    requires IsRun(states, steps) && Initial(states[0]) && i <= |steps|
    ensures Inv(states[i])
  {
    if i > 0 {
      RunKeeps(states, steps, i - 1);
      RunStep(states, steps, i - 1);
      StepKeeps(states[i - 1], steps[i - 1]);
    }
  }

  /**
   End-to-end stream: at every point of every run the bytes committed by writes are, in order, the
   bytes delivered by reads, then the reader's ring, then the writer's ring.
   */
  lemma StreamIsPreserved(states: seq<Pipe>, steps: seq<Step>, i: nat)
    requires IsRun(states, steps) && Initial(states[0]) && i <= |steps|
    ensures states[i].log.written == states[i].log.delivered + states[i].rx.contents + states[i].tx.contents
  {
    RunKeeps(states, steps, i);
    var p := states[i];
    assert p.log.delivered + InPipe(p) == p.log.delivered + p.rx.contents + p.tx.contents;
  }

  /**
   Message boundaries: readhups accept exactly the messages that hups closed, in order; at most one
   closed message is still to be accepted, and at most one EOF is outstanding.
   */
  lemma MessagesArePreserved(states: seq<Pipe>, steps: seq<Step>, i: nat)
    requires IsRun(states, steps) && Initial(states[0]) && i <= |steps|
    ensures var p := states[i];
            && p.log.accepted <= p.log.closed
            && |p.log.closed| - |p.log.accepted| == (if p.tx.eof then 1 else 0)
            && !(p.tx.eof && p.rx.eof)
  {
    RunKeeps(states, steps, i);
  }

  /**
   A readhup that succeeds finds that the bytes received since the previous one are the bytes
   written before the matching hup; afterwards both rings are empty of bytes and of EOF, and the
   writer, which was waiting in its hup, goes on when it is resumed.
   */
  lemma ReadHupMatchesHup(states: seq<Pipe>, steps: seq<Step>, i: nat)
    requires IsRun(states, steps) && Initial(states[0]) && i < |steps|
    requires steps[i] == ReadHup && states[i].reader == ReaderIdle && PollHup(states[i].rx, Virtual(states[i].tx))
    ensures var p, q := states[i], states[i + 1];
            && p.log.closed == p.log.accepted + [p.log.partial]
            && q.log.accepted == q.log.closed
            && !q.tx.eof && !q.rx.eof && InPipe(q) == []
            && q.writer == HupWait && Next(q, ResumeWriter).writer == WriterIdle
  {
    RunKeeps(states, steps, i);
    var p := states[i];
    assert p.log.partial + InPipe(p) == p.log.partial;
  }

  /**
   A read that ends, whether on its first pass or when it is resumed, has delivered all that it still
   wanted or has met the end of a message.
   */
  lemma ShortReadAtBoundary(states: seq<Pipe>, steps: seq<Step>, i: nat)
    requires IsRun(states, steps) && Initial(states[0]) && i < |steps|
    requires if states[i].reader.Reading? then steps[i] == ResumeReader else steps[i].StartRead?
    requires states[i + 1].reader == ReaderIdle
    ensures var p, q := states[i], states[i + 1];
            var want := if p.reader.Reading? then p.reader.want else steps[i].want;
            || |q.log.delivered| == |p.log.delivered| + want
            || (PollHup(q.rx, Virtual(q.tx)) && q.log.closed == q.log.accepted + [q.log.partial])
  {
    RunKeeps(states, steps, i + 1);
    var p, q := states[i], states[i + 1];
    ShortReadMeansHup(p.rx, Virtual(p.tx), if p.reader.Reading? then p.reader.want else steps[i].want);
    assert PollHup(q.rx, Virtual(q.tx)) ==> q.log.partial + InPipe(q) == q.log.partial;
  }
}
