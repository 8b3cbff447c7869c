/**
 The abstract value of a `struct vk_vectoring`: a bounded queue of bytes and its status flags.
 The functions are the specification that the class `Ring` is proved against, and the value that
 the sockets, the scheduler and the pipe runs carry where the C structures embed a ring.
 */
module Fifo {
  import opened Machine

  /** What one `readv` or `writev` came back with. */
  datatype SysRead = ReadBytes(data: bytes) | ReadFailed(errno: nat)

  datatype SysWrite = Wrote(count: nat) | WriteFailed(errno: nat)

  /** The size of a `struct vk_accepted`, on a 64-bit Linux target. */
  const ACCEPTED_SIZE: nat := 216

  /** The record of an accepted connection, as far as the system has filled it in. */
  function Record(data: bytes): (r: bytes)
    ensures |r| == ACCEPTED_SIZE
  {
    seq(ACCEPTED_SIZE, i requires 0 <= i < ACCEPTED_SIZE => if i < |data| then data[i] else 0)
  }

  datatype Fifo = Fifo(
    capacity: nat,
    contents: bytes,
    error: nat,
    eof: bool,
    closed: bool,
    rxBlocked: bool,
    txBlocked: bool,
    effect: bool)
  {
    predicate Valid() {
      0 < capacity <= SSIZE_MAX && |contents| <= capacity
    }

    function Free(): nat {
      if |contents| <= capacity then capacity - |contents| else 0
    }

    /** EOF is set and every byte has been taken. */
    predicate NoData() {
      eof && contents == []
    }

    /** Bytes have been placed in the free space and marked received. */
    function Append(data: bytes): Fifo {
      if data == [] then this else this.(contents := contents + data, effect := true)
    }

    /** The first `n` bytes have been taken and marked sent. */
    function Drop(n: nat): Fifo
      requires n <= |contents|
    {
      if n == 0 then this else this.(contents := contents[n..], effect := true)
    }

    /** How many of `len` bytes a send accepts: none while EOF is outstanding. */
    function Accepts(len: nat): nat {
      if len > 0 && eof then 0 else Min(len, Free())
    }

    function Send(data: bytes): Fifo {
      Append(data[..Accepts(|data|)])
    }

    function Recv(len: nat): Fifo {
      Drop(Min(len, |contents|))
    }

    function Received(len: nat): bytes {
      contents[..Min(len, |contents|)]
    }

    /** The system filled at most the free space. */
    predicate ReadAllowed(res: SysRead) {
      res.ReadBytes? ==> |res.data| <= Free()
    }

    /** The system took at most the filled bytes. */
    predicate WriteAllowed(res: SysWrite) {
      res.Wrote? ==> res.count <= |contents|
    }

    /** `vk_vectoring_read`. A count of zero reads as EOF, even when no space was free. */
    function ReadFd(res: SysRead): Fifo {
      match res
      case ReadFailed(e) =>
        if e == EAGAIN then this.(rxBlocked := true, effect := false, error := e)
        else this.(rxBlocked := false, error := e)
      case ReadBytes(data) =>
        this.(rxBlocked := |data| < Free(), eof := data == []).Append(data)
    }

    /** `vk_vectoring_write`. Nothing is tried while a prior write is blocked. */
    function WriteFd(res: SysWrite): Fifo
      requires WriteAllowed(res)
    {
      if txBlocked then this
      else match res
        case WriteFailed(e) =>
          if e == EAGAIN then this.(txBlocked := true, effect := false, error := e)
          else this.(error := e)
        case Wrote(n) => this.(txBlocked := n < |contents|).Drop(n)
    }

    /**
     `vk_vectoring_accept` on a listening descriptor: nothing is tried without room for a whole record,
     and the record of an accepted connection is sent into the ring.
     */
    function AcceptFd(res: SysRead): Fifo {
      var f := this.(rxBlocked := false);
      if Free() < ACCEPTED_SIZE then f
      else match res
        case ReadFailed(e) =>
          if e == EAGAIN then f.(rxBlocked := true, effect := false, error := e) else f.(error := e)
        case ReadBytes(data) => f.Send(Record(data))
    }

    /** `vk_vectoring_close` and the shutdowns: closed whatever the system answers. */
    function CloseFd(failed: Option<nat>): Fifo {
      this.(closed := true, effect := true, error := if failed.Some? then failed.value else error)
    }

    function MarkEof(): Fifo {
      if eof then this else this.(eof := true, effect := true)
    }

    function ClearEof(): Fifo {
      if eof then this.(eof := false, effect := true) else this
    }
  }

  /** What a read leaves, field by field: only a count of zero sets EOF, and only bytes clear it. */
  lemma ReadFdLeaves(f: Fifo, res: SysRead)
    requires f.Valid() && f.ReadAllowed(res)
    ensures var g := f.ReadFd(res);
      && g.Valid() && g.capacity == f.capacity && g.closed == f.closed && g.txBlocked == f.txBlocked
      && match res
         case ReadFailed(e) =>
           && g.contents == f.contents && g.eof == f.eof && g.error == e
           && (g.rxBlocked <==> e == EAGAIN) && (g.effect <==> f.effect && e != EAGAIN)
         case ReadBytes(data) =>
           && g.contents == f.contents + data && (g.eof <==> data == [])
           && (g.rxBlocked <==> |data| < f.Free()) && g.error == f.error && (g.effect <==> f.effect || data != [])
  {
    assert f.contents + [] == f.contents;
  }

  /** What a write leaves: nothing changes while the ring is blocked, and what the system took is gone. */
  lemma WriteFdLeaves(f: Fifo, res: SysWrite)
    requires f.Valid() && f.WriteAllowed(res)
    ensures var g := f.WriteFd(res);
      && g.Valid() && g.capacity == f.capacity && g.closed == f.closed && g.rxBlocked == f.rxBlocked && g.eof == f.eof
      && (f.txBlocked ==> g.contents == f.contents && g.txBlocked)
      && (!f.txBlocked ==>
            match res
            case WriteFailed(e) =>
              && g.contents == f.contents && g.error == e
              && (g.txBlocked <==> e == EAGAIN) && (g.effect <==> f.effect && e != EAGAIN)
            case Wrote(n) =>
              && g.contents == f.contents[n..] && (g.txBlocked <==> n < |f.contents|)
              && g.error == f.error && (g.effect <==> f.effect || n > 0))
  {
    assert f.contents[0..] == f.contents;
  }

  /** What an accept leaves: the record of a connection behind the contents, if it fits and no EOF is out. */
  lemma AcceptFdLeaves(f: Fifo, res: SysRead)
    requires f.Valid()
    ensures var g := f.AcceptFd(res);
      && g.Valid() && g.eof == f.eof && g.closed == f.closed && g.txBlocked == f.txBlocked
      && (f.Free() < ACCEPTED_SIZE || f.eof || res.ReadFailed? ==> g.contents == f.contents)
      && (f.Free() >= ACCEPTED_SIZE && !f.eof && res.ReadBytes? ==>
            g.contents == f.contents + Record(res.data) && g.effect)
      && (g.rxBlocked <==> f.Free() >= ACCEPTED_SIZE && res.ReadFailed? && res.errno == EAGAIN)
  {
    if res.ReadBytes? {
      assert Record(res.data)[..ACCEPTED_SIZE] == Record(res.data);
    }
  }

  /** A closed ring keeps its bytes and its EOF. */
  lemma CloseFdLeaves(f: Fifo, failed: Option<nat>)
    ensures var g := f.CloseFd(failed); g.closed && g.effect && g.contents == f.contents && g.eof == f.eof
  {
  }

  /** An EOF is set once and cleared once, and only that is an effect. */
  lemma EofLeaves(f: Fifo)
    ensures var g := f.MarkEof();
      g.eof && (g.effect <==> f.effect || !f.eof) && g == f.(eof := g.eof, effect := g.effect)
    ensures var g := f.ClearEof();
      !g.eof && (g.effect <==> f.effect || f.eof) && g == f.(eof := g.eof, effect := g.effect)
  {
  }

  /** A send appends what fits and nothing else; while an EOF is outstanding it appends nothing. */
  lemma SendLeaves(f: Fifo, data: bytes)
    requires f.Valid()
    ensures var n, g := if f.eof then 0 else Min(|data|, f.Free()), f.Send(data);
      g.Valid() && g == f.(contents := f.contents + data[..n], effect := f.effect || n > 0)
  {
    assert f.contents + [] == f.contents;
  }

  /** A receive takes the oldest bytes, as many as there are or are asked for. */
  lemma RecvLeaves(f: Fifo, len: nat)
    requires f.Valid()
    ensures var g := f.Recv(len);
      && f.Received(len) + g.contents == f.contents && |f.Received(len)| == Min(len, |f.contents|)
      && g == f.(contents := g.contents, effect := f.effect || f.Received(len) != [])
  {
    var n := Min(len, |f.contents|);
    assert f.contents == f.contents[..n] + f.contents[n..];
  }

  lemma DropTwice(f: Fifo, m: nat, n: nat)
    requires m + n <= |f.contents|
    ensures f.Drop(m).Drop(n) == f.Drop(m + n)
  {
  }

  /** How many bytes one splice moves; a negative `len` asks for everything. */
  function SpliceCount(rx: Fifo, tx: Fifo, len: int): nat {
    var fit := Min(rx.Free(), |tx.contents|);
    if 0 <= len < fit then len else fit
  }

  /** That is the least of the space, the bytes and, if it is not negative, the length. */
  lemma SpliceCountIs(rx: Fifo, tx: Fifo, len: int)
    ensures var n := SpliceCount(rx, tx, len);
      && n <= rx.Free() && n <= |tx.contents| && (0 <= len ==> n <= len)
      && (n == rx.Free() || n == |tx.contents| || n == len)
  {
  }

  /** `vk_vectoring_splice`: move bytes from `tx` to `rx`, then note which side was left wanting. */
  function SpliceRx(rx: Fifo, tx: Fifo, len: int): Fifo {
    var n := SpliceCount(rx, tx, len);
    var moved := rx.Append(tx.contents[..n]);
    moved.(rxBlocked := n < moved.Free())
  }

  function SpliceTx(rx: Fifo, tx: Fifo, len: int): Fifo {
    var n := SpliceCount(rx, tx, len);
    var moved := tx.Drop(n);
    moved.(txBlocked := n < |moved.contents|)
  }

  /**
   A side is blocked after a splice exactly if fewer bytes moved than it could still take, or give, after
   the move: the code compares the count with what is left.
   */
  lemma SpliceBlocksRx(rx: Fifo, tx: Fifo, len: int)
    requires rx.Valid() && tx.Valid()
    ensures var n, r := SpliceCount(rx, tx, len), SpliceRx(rx, tx, len);
      && n <= rx.Free() && n <= |tx.contents| && |r.contents| == |rx.contents| + n
      && (r.rxBlocked <==> n < rx.Free() - n) && r.eof == rx.eof && r.txBlocked == rx.txBlocked && (n > 0 ==> r.effect)
  {
    assert |tx.contents[..SpliceCount(rx, tx, len)]| == SpliceCount(rx, tx, len);
  }

  lemma SpliceBlocksTx(rx: Fifo, tx: Fifo, len: int)
    requires rx.Valid() && tx.Valid()
    ensures var n, t := SpliceCount(rx, tx, len), SpliceTx(rx, tx, len);
      && |t.contents| == |tx.contents| - n
      && (t.txBlocked <==> n < |tx.contents| - n) && t.eof == tx.eof && t.rxBlocked == tx.rxBlocked
      && (n > 0 ==> t.effect)
  {
    assert |tx.contents[SpliceCount(rx, tx, len)..]| == |tx.contents| - SpliceCount(rx, tx, len);
  }

  /** A splice loses, invents and reorders nothing, and it stops only when one side is exhausted. */
  lemma SpliceConserves(rx: Fifo, tx: Fifo, len: int)
    requires rx.Valid() && tx.Valid()
    ensures SpliceRx(rx, tx, len).Valid() && SpliceTx(rx, tx, len).Valid()
    ensures SpliceRx(rx, tx, len).contents + SpliceTx(rx, tx, len).contents == rx.contents + tx.contents
    ensures rx.contents <= SpliceRx(rx, tx, len).contents
    ensures len < 0 ==> SpliceRx(rx, tx, len).Free() == 0 || SpliceTx(rx, tx, len).contents == []
  {
    var n := SpliceCount(rx, tx, len);
    assert tx.contents == tx.contents[..n] + tx.contents[n..];
    assert SpliceRx(rx, tx, len).contents == rx.contents + tx.contents[..n];
    assert SpliceTx(rx, tx, len).contents == tx.contents[n..];
  }
}
