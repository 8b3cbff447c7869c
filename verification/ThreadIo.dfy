/**
 The resumable loops of `vk_thread_io.h`. Each runs until it completes or has to wait; its progress
 is kept in a `struct vk_block`, so that the next call of the coroutine goes on where it stopped.
 */
module ThreadIo {
  import opened Machine
  import opened Memory
  import opened Fifo
  import opened Ring

  /**
   Where a socket reads from: the writing socket's ring, or a descriptor, of which the poller last said
   whether it is closed for reading and how many bytes it still holds.
   */
  datatype Source = Virtual(tx: Fifo) | Physical(closed: bool, readable: nat)

  /** `vk_socket_pollhup`: no byte is left, and none will come before the end of the message is taken. */
  predicate PollHup(rx: Fifo, source: Source) {
    rx.contents == []
    && match source
       case Virtual(tx) => tx.NoData()
       case Physical(closed, readable) => rx.NoData() || (closed && readable == 0)
  }

  /** Where one pass over the loop of `vk_socket_read` leaves the read ring and the request. */
  datatype ReadPass = ReadPass(rx: Fifo, want: nat, got: bytes, done: bool)

  function ReadBody(rx: Fifo, source: Source, want: nat): ReadPass {
    if PollHup(rx, source) || want == 0 then ReadPass(rx, want, [], true)
    else
      var got := rx.Received(want);
      var after := rx.Recv(want);
      ReadPass(after, want - |got|, got, PollHup(after, source) || want == |got|)
  }

  /** Where one pass over the loop of `vk_socket_write` leaves the write ring and the rest. */
  datatype WritePass = WritePass(tx: Fifo, rest: bytes)

  function WriteBody(tx: Fifo, rest: bytes): WritePass
    requires tx.Accepts(|rest|) <= |rest|
  {
    WritePass(tx.Send(rest), rest[tx.Accepts(|rest|)..])
  }

  /** A read that completes short of its request has met the end of a message. */
  lemma ShortReadMeansHup(rx: Fifo, source: Source, want: nat)
    ensures var r := ReadBody(rx, source, want);
            && r.want + |r.got| == want
            && rx.contents == r.got + r.rx.contents
            && (r.done <==> r.want == 0 || PollHup(r.rx, source))
            && (!r.done ==> r.rx.contents == [])
  {
  }

  /**
   Over a descriptor the end of a message is met exactly after a read of zero bytes into an empty ring that
   has room, or once it is closed and reports nothing readable.
   */
  lemma HupAfterRead(rx: Fifo, res: SysRead, closed: bool, readable: nat)
    requires rx.Valid() && rx.ReadAllowed(res) && !rx.eof
    ensures PollHup(rx.ReadFd(res), Physical(closed, readable)) <==>
            rx.contents == [] && (res == ReadBytes([]) || (closed && readable == 0 && res.ReadFailed?))
  {
    ReadFdLeaves(rx, res);
  }

  /** A write pass loses nothing; while it is incomplete its ring is full or holds an EOF. */
  lemma WriteKeepsBytes(tx: Fifo, rest: bytes)
    requires tx.Valid()
    ensures var r := WriteBody(tx, rest);
            && r.tx.Valid()
            && r.tx.contents + r.rest == tx.contents + rest
            && (r.rest != [] ==> r.tx.Free() == 0 || tx.eof)
  {
    var n := tx.Accepts(|rest|);
    assert rest == rest[..n] + rest[n..];
    assert WriteBody(tx, rest).tx.contents == tx.contents + rest[..n];
  }

  /** `struct vk_block`: the uncommitted part of the caller's buffer and the count committed so far. */
  class Block {
    var buf: array<byte>
    var pos: nat
    var len: nat
    var copied: nat

    ghost predicate Valid()
      reads this
    {
      pos + len <= buf.Length
    }

    /** `vk_block_init` */
    constructor (buf: array<byte>, len: nat)
      requires len <= buf.Length
      ensures Valid() && this.buf == buf && pos == 0 && this.len == len && copied == 0
    {
      this.buf := buf;
      pos := 0;
      this.len := len;
      copied := 0;
    }

    /** `vk_block_commit` */
    method Commit(rc: nat)
      requires Valid() && rc <= len
      modifies `pos, `len, `copied
      ensures Valid() && pos == old(pos) + rc && len == old(len) - rc && copied == old(copied) + rc
    {
      len := len - rc;
      pos := pos + rc;
      copied := copied + rc;
    }

    /** What `peer`, when there is one, and the futures of the socket say of its source. */
    ghost function SourceOf(peer: Ring?, closed: bool, readable: nat): Source
      reads peer, if peer != null then {peer.buf} else {}
      requires peer != null ==> peer.Valid()
    {
      if peer == null then Physical(closed, readable) else Virtual(peer.Value())
    }

    /** `vk_socket_pollhup`, with `vk_socket_get_reader_nodata` */
    method CheckHup(rx: Ring, peer: Ring?, closed: bool, readable: nat) returns (hup: bool)
      requires rx.Valid() && (peer != null ==> peer.Valid())
      ensures hup == PollHup(rx.Value(), SourceOf(peer, closed, readable))
    {
      if rx.vectorTx.Len() != 0 {
        return false;
      }
      if peer == null {
        if rx.eof && rx.vectorTx.Len() == 0 {
          return true;
        }
        return closed && readable == 0;
      }
      hup := peer.eof && peer.vectorTx.Len() == 0;
    }

    /**
     The loop of `vk_socket_read`, from its head to the next wait or to its end. The bytes land
     behind those that earlier passes delivered.
     */
    method ResumeRead(rx: Ring, peer: Ring?, closed: bool, readable: nat) returns (done: bool)
      requires Valid() && rx.Valid() && buf != rx.buf
      requires peer != null ==> peer.Valid() && rx != peer && buf != peer.buf
      modifies `pos, `len, `copied, buf, rx
      ensures Valid() && rx.Valid() && (peer != null ==> peer.Valid())
      ensures SourceOf(peer, closed, readable) == old(SourceOf(peer, closed, readable))
      ensures var r := old(ReadBody(rx.Value(), SourceOf(peer, closed, readable), len));
              && done == r.done && rx.Value() == r.rx && len == r.want
              && pos == old(pos) + |r.got| && copied == old(copied) + |r.got|
              && old(pos + |r.got|) <= buf.Length
              && buf[..] == Store(old(buf[..]), old(pos), r.got)
    {
      StoreNothing(buf[..], pos);
      var hup := CheckHup(rx, peer, closed, readable);
      if hup || len == 0 {
        return true;
      }
      var n := rx.Recv(buf, pos, len);
      Commit(n);
      hup := CheckHup(rx, peer, closed, readable);
      done := hup || len == 0;
    }

    /** The loop of `vk_socket_write`, from its head to the next wait or to its end. */
    method ResumeWrite(tx: Ring) returns (done: bool)
      requires Valid() && tx.Valid() && buf != tx.buf
      modifies `pos, `len, `copied, tx, tx.buf
      ensures Valid() && tx.Valid() && buf[..] == old(buf[..])
      ensures var r := WriteBody(old(tx.Value()), old(buf[pos..pos + len]));
              && done == (r.rest == []) && tx.Value() == r.tx && buf[pos..pos + len] == r.rest
              && copied == old(copied) + old(len) - |r.rest|
    {
      if len == 0 {
        assert tx.Value().Send([]) == tx.Value();
        return true;
      }
      var n := tx.Send(buf[pos..pos + len]);
      Commit(n);
      done := len == 0;
    }

    /** The loop of `vk_socket_hup` after the EOF was set: complete once a reader has taken it. */
    method ResumeHup(tx: Ring) returns (done: bool)
      requires Valid() && tx.Valid() && len == 1
      modifies `pos, `len, `copied
      ensures done == !tx.eof && len == if done then 0 else 1
    {
      Commit(if tx.eof then 0 else 1);
      done := len == 0;
    }
  }
}
