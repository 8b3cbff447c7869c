/**
 What the steps of a pipe achieve: what each of them leaves, and that every message, whatever its length
 and the sizes of the rings, can be brought through the pipe and accepted.
 */
module PipeProgress {
  import opened Machine
  import opened Fifo
  import opened ThreadIo
  import opened PipeRun

  // ---- one step ----

  /** A hup on a drained ring closes the message, sets EOF and waits. */
  predicate HasHup(p: Pipe, n: Pipe) {
    && n.tx.eof && n.tx.contents == [] && n.writer == HupWait
    && n.log == p.log.(closed := p.log.closed + [p.log.open], open := [])
    && n.rx == p.rx && n.reader == p.reader
  }

  lemma HupSetsEof(p: Pipe)
    requires Inv(p) && p.tx.contents == [] && !p.tx.eof
    ensures p.writer == WriterIdle ==> HasHup(p, Next(p, StartHup))
    ensures p.writer == Flushing(true) ==> HasHup(p, Next(p, ResumeWriter))
  {
  }

  /** Otherwise it flushes first; a flush returns when the ring has drained, and leaves no EOF. */
  lemma FlushWaits(p: Pipe)
    requires Inv(p)
    ensures p.writer == WriterIdle && p.tx.contents != [] ==>
              && Next(p, StartHup) == p.(writer := Flushing(true))
              && Next(p, StartFlush) == p.(writer := Flushing(false))
    ensures p.writer.Flushing? && p.tx.contents != [] ==> Next(p, ResumeWriter) == p
    ensures p.writer == Flushing(false) && p.tx.contents == [] ==> Next(p, ResumeWriter) == p.(writer := WriterIdle)
    ensures p.writer == WriterIdle && p.tx.contents == [] ==> Next(p, StartFlush) == p
  {
  }

  /** A hup returns when its EOF has been taken, and not before. */
  lemma HupReturns(p: Pipe)
    requires Inv(p) && p.writer == HupWait
    ensures Next(p, ResumeWriter) == if p.tx.eof then p else p.(writer := WriterIdle)
  {
  }

  /** A write commits the bytes that fit, in order, and waits with the rest. */
  lemma WriteCommits(p: Pipe, data: bytes)
    requires Inv(p) && !p.tx.eof
    ensures var k := Min(|data|, p.tx.Free());
      p.writer == WriterIdle ==> Commits(p, Next(p, StartWrite(data)), data, k)
    ensures var k := Min(|data|, p.tx.Free());
      data != [] && p.writer == Writing(data) ==> Commits(p, Next(p, ResumeWriter), data, k)
  {
    var k := p.tx.Accepts(|data|);
    assert k == Min(|data|, p.tx.Free());
    assert data[..|data| - |data[k..]|] == data[..k];
    assert k == 0 ==> p.tx.contents + data[..k] == p.tx.contents;
  }

  /** While an EOF is outstanding a write is refused, and so is a second hup. */
  lemma SecondRefused(p: Pipe, data: bytes)
    requires p.tx.Valid() && p.tx.eof && p.writer == WriterIdle
    ensures Next(p, StartWrite(data)) == p && (p.tx.contents == [] ==> Next(p, StartHup) == p)
  {
  }

  /** No run gets there: where nobody writes, no EOF is outstanding. */
  lemma NeverRefused(p: Pipe, steps: seq<Step>)
    requires Initial(p)
    ensures Inv(p) && (Play(p, steps).writer == WriterIdle ==> !Play(p, steps).tx.eof)
  {
  }

  /** A readhup is refused while a byte is left in either ring, or no end of a message is in sight. */
  lemma ReadHupRefused(p: Pipe)
    requires p.tx.Valid() && (p.rx.contents != [] || p.tx.contents != [] || !p.tx.eof)
    ensures Next(p, ReadHup) == p
  {
  }

  predicate Commits(p: Pipe, n: Pipe, data: bytes, k: nat)
    requires k <= |data|
  {
    && n.tx.contents == p.tx.contents + data[..k] && n.tx.eof == p.tx.eof && n.tx.capacity == p.tx.capacity
    && n.writer == (if k == |data| then WriterIdle else Writing(data[k..]))
    && n.log == p.log.(written := p.log.written + data[..k], open := p.log.open + data[..k])
    && n.rx == p.rx && n.reader == p.reader
  }

  /** A splice moves bytes from the front of one ring to the back of the other until one is exhausted. */
  lemma SpliceMoves(p: Pipe)
    requires Inv(p)
    ensures var n := Next(p, Splice);
      && InPipe(n) == InPipe(p) && p.rx.contents <= n.rx.contents
      && (n.rx.Free() == 0 || n.tx.contents == [])
      && n == p.(rx := n.rx, tx := n.tx) && n.tx.eof == p.tx.eof && n.rx.eof == p.rx.eof
      && n.tx.capacity == p.tx.capacity && n.rx.capacity == p.rx.capacity
      && (InPipe(p) != [] ==> n.rx.contents != [])
  {
    SpliceConserves(p.rx, p.tx, -1);
    SpliceBlocksRx(p.rx, p.tx, -1);
  }

  /** A read that wants more than there is takes all of it, and goes on while the message does. */
  lemma ReadTakes(p: Pipe, want: nat)
    requires Inv(p) && !p.tx.eof && want > |p.rx.contents|
    ensures p.reader == ReaderIdle ==> Takes(p, Next(p, StartRead(want)), want)
    ensures p.reader == Reading(want) ==> Takes(p, Next(p, ResumeReader), want)
  {
  }

  predicate Takes(p: Pipe, n: Pipe, want: nat) {
    && n.rx.contents == [] && n.rx.capacity == p.rx.capacity && n.rx.eof == p.rx.eof
    && n.reader == (if want >= |p.rx.contents| then Reading(want - |p.rx.contents|) else ReaderIdle)
    && n.log == p.log.(delivered := p.log.delivered + p.rx.contents, partial := p.log.partial + p.rx.contents)
    && n.tx == p.tx && n.writer == p.writer
  }

  /** A readhup accepts the message read so far exactly at its end, and otherwise does nothing. */
  lemma ReadHupAccepts(p: Pipe)
    requires Inv(p) && p.reader == ReaderIdle
    ensures var n := Next(p, ReadHup);
      if p.tx.eof && InPipe(p) == [] then
        !n.tx.eof && n.log == p.log.(accepted := p.log.accepted + [p.log.partial], partial := [])
        && n.writer == p.writer && n.reader == p.reader && InPipe(n) == []
      else n == p
  {
    assert InPipe(p) == [] <==> p.rx.contents == [] && p.tx.contents == [];
  }

  // ---- a schedule ----

  /** The pipe after some steps. */
  ghost function Play(p: Pipe, steps: seq<Step>): (q: Pipe)
    requires Inv(p)
    ensures Inv(q)
    decreases |steps|
  {
    if steps == [] then p
    else
      StepKeeps(p, steps[0]);
      Play(Next(p, steps[0]), steps[1..])
  }

  lemma {:induction false} PlayThen(p: Pipe, first: seq<Step>, second: seq<Step>)
    requires Inv(p)
    ensures Play(p, first + second) == Play(Play(p, first), second)
    decreases |first|
  {
    if first == [] {
      assert first + second == second;
    } else {
      StepKeeps(p, first[0]);
      PlayThen(Next(p, first[0]), first[1..], second);
      assert (first + second)[1..] == first[1..] + second;
    }
  }

  lemma PlayOne(p: Pipe, step: Step)
    requires Inv(p)
    ensures Inv(Next(p, step)) && Play(p, [step]) == Next(p, step)
  {
    StepKeeps(p, step);
    assert Play(p, [step]) == Play(Next(p, step), []);
  }

  /** What a write that is in progress has still to commit. */
  function Rest(p: Pipe): bytes {
    if p.writer.Writing? then p.writer.rest else []
  }

  /** The message `data` is being written and read; `earlier` messages were closed before it. */
  ghost predicate Busy(p: Pipe, data: bytes, earlier: seq<bytes>) {
    && Inv(p) && !p.tx.eof && p.log.open + Rest(p) == data && p.log.closed == earlier
    && (p.writer.Writing? ==> p.writer.rest != []) && p.writer != HupWait && p.writer != Flushing(false)
    && p.reader.Reading? && p.reader.want > |Rest(p)| + |InPipe(p)|
  }

  /** It has been written and closed, and all of it has been read. */
  ghost predicate Closed(p: Pipe, data: bytes, earlier: seq<bytes>) {
    && Inv(p) && p.tx.eof && p.writer == HupWait && InPipe(p) == [] && p.log.closed == earlier + [data]
    && p.reader.Reading? && p.reader.want > 0
  }

  /** How far the message has still to go. */
  function Distance(p: Pipe): nat {
    2 * |Rest(p)| + |InPipe(p)|
  }

  /** A splice and a read take something out of the pipe, if anything is in it. */
  lemma {:induction false} Drained(p: Pipe, data: bytes, earlier: seq<bytes>) returns (n: Pipe)
    requires Busy(p, data, earlier)
    ensures Play(p, [Splice, ResumeReader]) == n && Busy(n, data, earlier) && n.rx.contents == []
    ensures Rest(n) == Rest(p) && n.writer == p.writer
    ensures |InPipe(n)| <= |InPipe(p)| && (InPipe(p) != [] ==> |InPipe(n)| < |InPipe(p)|)
  {
    PlayOne(p, Splice);
    SpliceMoves(p);
    var a := Next(p, Splice);
    PlayOne(a, ResumeReader);
    ReadTakes(a, a.reader.want);
    n := Next(a, ResumeReader);
    PlayThen(p, [Splice], [ResumeReader]);
    assert [Splice] + [ResumeReader] == [Splice, ResumeReader];
  }

  /** The writer then gets on: it commits something, flushes, or closes the message. */
  lemma {:induction false} Advanced(p: Pipe, data: bytes, earlier: seq<bytes>) returns (n: Pipe)
    requires Busy(p, data, earlier) && p.rx.contents == []
    ensures Play(p, [ResumeWriter, StartHup]) == n
    ensures Closed(n, data, earlier) || (Busy(n, data, earlier) && Distance(n) <= Distance(p))
    ensures InPipe(p) == [] ==> Closed(n, data, earlier) || Distance(n) < Distance(p)
  {
    PlayOne(p, ResumeWriter);
    var a := Next(p, ResumeWriter);
    PlayOne(a, StartHup);
    n := Next(a, StartHup);
    PlayThen(p, [ResumeWriter], [StartHup]);
    assert [ResumeWriter] + [StartHup] == [ResumeWriter, StartHup];
    assert InPipe(p) == p.tx.contents && p.log.open + [] == p.log.open;
    if p.writer.Writing? {
      WrittenOn(p, data, earlier);
    } else if p.tx.contents == [] {
      HupSetsEof(p);
      assert InPipe(n) == [];
    } else {
      FlushWaits(p);
      assert n == p.(writer := Flushing(true));
    }
  }

  lemma {:induction false} WrittenOn(p: Pipe, data: bytes, earlier: seq<bytes>)
    requires Busy(p, data, earlier) && p.rx.contents == [] && p.writer.Writing?
    ensures var n := Next(p, ResumeWriter);
      && Busy(n, data, earlier) && n.rx.contents == [] && Distance(n) <= Distance(p)
      && (InPipe(p) == [] ==> Distance(n) < Distance(p))
    ensures var n := Next(Next(p, ResumeWriter), StartHup);
      Closed(n, data, earlier) || (Busy(n, data, earlier) && Distance(n) == Distance(Next(p, ResumeWriter)))
  {
    var rest := p.writer.rest;
    var k := Min(|rest|, p.tx.Free());
    WriteCommits(p, rest);
    StepKeeps(p, ResumeWriter);
    var n := Next(p, ResumeWriter);
    assert rest == rest[..k] + rest[k..];
    assert n.log.open + Rest(n) == p.log.open + rest;
    StepKeeps(n, StartHup);
    if n.writer == WriterIdle {
      if n.tx.contents == [] {
        HupSetsEof(n);
      } else {
        FlushWaits(n);
      }
    }
  }

  /** Going round, the message is eventually closed and read to its end. */
  lemma {:induction false} Delivered(p: Pipe, data: bytes, earlier: seq<bytes>) returns (steps: seq<Step>)
    requires Busy(p, data, earlier)
    ensures Closed(Play(p, steps), data, earlier)
    decreases Distance(p)
  {
    var a := Drained(p, data, earlier);
    var b := Advanced(a, data, earlier);
    var round := [Splice, ResumeReader] + [ResumeWriter, StartHup];
    PlayThen(p, [Splice, ResumeReader], [ResumeWriter, StartHup]);
    if Closed(b, data, earlier) {
      steps := round;
    } else {
      var more := Delivered(b, data, earlier);
      PlayThen(p, round, more);
      steps := round + more;
    }
  }

  /** Between messages: nobody is in a call, and nothing is on its way. */
  ghost predicate Between(p: Pipe) {
    Inv(p) && p.writer == WriterIdle && p.reader == ReaderIdle && !p.tx.eof && p.log.open == []
  }

  lemma {:induction false} WriteStarts(p: Pipe, data: bytes, a: Pipe)
    requires Between(p) && a == Next(p, StartWrite(data)) && Inv(a)
    ensures !a.tx.eof && a.rx.contents == [] && a.reader == ReaderIdle
    ensures a.writer == WriterIdle || (a.writer.Writing? && a.writer.rest != [])
    ensures a.log.open + Rest(a) == data && |Rest(a)| + |InPipe(a)| <= |data|
    ensures a.log.closed == p.log.closed && a.log.accepted == p.log.accepted
  {
    assert InPipe(p) == [];
    WriteCommits(p, data);
    var k := Min(|data|, p.tx.Free());
    assert data == data[..k] + data[k..];
  }

  /** A message is started at both ends. */
  lemma {:induction false} Started(p: Pipe, data: bytes) returns (n: Pipe)
    requires Between(p)
    ensures Play(p, [StartWrite(data), StartRead(|data| + 1)]) == n && Busy(n, data, p.log.closed)
    ensures n.log.accepted == p.log.accepted
  {
    PlayOne(p, StartWrite(data));
    var a := Next(p, StartWrite(data));
    PlayOne(a, StartRead(|data| + 1));
    n := Next(a, StartRead(|data| + 1));
    WriteStarts(p, data, a);
    ReadTakes(a, |data| + 1);
    PlayThen(p, [StartWrite(data)], [StartRead(|data| + 1)]);
    assert [StartWrite(data)] + [StartRead(|data| + 1)] == [StartWrite(data), StartRead(|data| + 1)];
  }

  /** Its end is accepted, and both calls return. */
  lemma {:induction false} Accepted(p: Pipe, data: bytes, earlier: seq<bytes>) returns (n: Pipe)
    requires Closed(p, data, earlier)
    ensures Play(p, [ResumeReader, ReadHup, ResumeWriter]) == n && Between(n)
    ensures n.log.accepted == earlier + [data] && n.log.closed == earlier + [data]
  {
    PlayOne(p, ResumeReader);
    var a := Next(p, ResumeReader);
    assert a.log.partial == p.log.partial && a.reader == ReaderIdle;
    PlayOne(a, ReadHup);
    ReadHupAccepts(a);
    var b := Next(a, ReadHup);
    PlayOne(b, ResumeWriter);
    HupReturns(b);
    n := Next(b, ResumeWriter);
    PlayThen(p, [ResumeReader], [ReadHup]);
    PlayThen(p, [ResumeReader] + [ReadHup], [ResumeWriter]);
    assert [ResumeReader] + [ReadHup] + [ResumeWriter] == [ResumeReader, ReadHup, ResumeWriter];
  }

  /**
   From any point between messages, every message can be brought through the pipe, whatever its length
   and the sizes of the rings: some schedule of the same steps ends with exactly this message accepted.
   */
  lemma {:induction false} MessageArrives(p: Pipe, data: bytes) returns (steps: seq<Step>)
    requires Between(p)
    ensures var q := Play(p, steps);
      Between(q) && q.log.accepted == p.log.accepted + [data] && q.log.closed == q.log.accepted
  {
    var start := [StartWrite(data), StartRead(|data| + 1)];
    var a := Started(p, data);
    var middle := Delivered(a, data, p.log.closed);
    var b := Play(a, middle);
    var end := [ResumeReader, ReadHup, ResumeWriter];
    var c := Accepted(b, data, p.log.closed);
    PlayThen(p, start, middle);
    PlayThen(p, start + middle, end);
    steps := start + middle + end;
  }

  /** And so does any sequence of messages, one after the other, from two fresh rings. */
  lemma {:induction false} MessagesArrive(p: Pipe, messages: seq<bytes>) returns (steps: seq<Step>)
    requires Initial(p)
    ensures Inv(p) && var q := Play(p, steps); Between(q) && q.log.accepted == messages && q.log.closed == messages
    decreases |messages|
  {
    if messages == [] {
      steps := [];
    } else {
      var init, last := messages[..|messages| - 1], messages[|messages| - 1];
      var first := MessagesArrive(p, init);
      var more := MessageArrives(Play(p, first), last);
      PlayThen(p, first, more);
      assert init + [last] == messages;
      steps := first + more;
    }
  }

  lemma {:induction false} PlayLast(p: Pipe, steps: seq<Step>, step: Step) returns (q: Pipe)
    requires Inv(p)
    ensures q == Next(Play(p, steps), step) && q == Play(p, steps + [step]) && Inv(q)
  {
    q := Next(Play(p, steps), step);
    PlayOne(Play(p, steps), step);
    PlayThen(p, steps, [step]);
  }

  /** Its first half puts the message and its end into the reader's ring and the pipe. */
  lemma {:induction false} OneMessageSent(p: Pipe, data: bytes) returns (d: Pipe)
    requires Initial(p) && 0 < |data| <= p.tx.capacity && |data| <= p.rx.capacity
    ensures Inv(p) && Inv(d) && d == Play(p, [StartWrite(data), StartHup, Splice, ResumeWriter])
    ensures d.tx.contents == [] && d.tx.eof && d.rx.contents == data && d.writer == HupWait
    ensures d.reader == ReaderIdle && d.log.partial == [] && d.log.accepted == []
  {
    var s1 := [StartWrite(data)];
    PlayOne(p, StartWrite(data));
    var a := Play(p, s1);
    WriteCommits(p, data);
    assert data[..|data|] == data && a.tx.contents == data && a.log.open == data;
    FlushWaits(a);
    var b := PlayLast(p, s1, StartHup);
    SpliceMoves(b);
    assert SpliceCount(b.rx, b.tx, -1) == |data|;
    var c := PlayLast(p, s1 + [StartHup], Splice);
    HupSetsEof(c);
    d := PlayLast(p, s1 + [StartHup] + [Splice], ResumeWriter);
    assert s1 + [StartHup] + [Splice] + [ResumeWriter] == [StartWrite(data), StartHup, Splice, ResumeWriter];
  }

  lemma {:induction false} OneMessageReceived(d: Pipe, data: bytes, want: nat) returns (q: Pipe)
    requires Inv(d) && d.tx.contents == [] && d.tx.eof && d.rx.contents == data && d.writer == HupWait
    requires d.reader == ReaderIdle && d.log.partial == [] && d.log.accepted == [] && want >= |data|
    ensures Inv(q) && q == Play(d, [StartRead(want), ReadHup])
    ensures q.log.accepted == [data] && q.writer == HupWait && Next(q, ResumeWriter).writer == WriterIdle
  {
    assert d.rx.contents[..|data|] == data;
    PlayOne(d, StartRead(want));
    var e := Next(d, StartRead(want));
    assert e.log.partial == data && e.rx.contents == [] && e.reader == ReaderIdle;
    ReadHupAccepts(e);
    q := PlayLast(d, [StartRead(want)], ReadHup);
    assert [StartRead(want)] + [ReadHup] == [StartRead(want), ReadHup];
  }

  /** The shortest schedule, for a message that both rings can hold: write, hup, splice, resume, read, readhup. */
  lemma {:induction false} OneMessage(p: Pipe, data: bytes, want: nat)
    requires Initial(p) && 0 < |data| <= p.tx.capacity && |data| <= p.rx.capacity && want >= |data|
    ensures Inv(p)
    ensures var q := Play(p, [StartWrite(data), StartHup, Splice, ResumeWriter, StartRead(want), ReadHup]);
      q.log.accepted == [data] && q.writer == HupWait && Next(q, ResumeWriter).writer == WriterIdle
  {
    var d := OneMessageSent(p, data);
    var q := OneMessageReceived(d, data, want);
    PlayThen(p, [StartWrite(data), StartHup, Splice, ResumeWriter], [StartRead(want), ReadHup]);
    assert [StartWrite(data), StartHup, Splice, ResumeWriter] + [StartRead(want), ReadHup] ==
           [StartWrite(data), StartHup, Splice, ResumeWriter, StartRead(want), ReadHup];
  }
}
