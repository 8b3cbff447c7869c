/**
 `vk_vectoring.c`: a ring buffer kept as a cursor and a length, mirrored into two-segment views of
 its filled and of its free part. Every operation is proved against the bounded queue `Fifo`.
 */
module Ring {
  import opened Machine
  import opened Fifo
  import opened Memory
  import opened Newline
  import WrapGuard

  /** A `struct iovec` into the ring's own buffer. The base of an empty view does not matter. */
  datatype IoVec = IoVec(base: nat, len: nat)

  datatype View = View(first: IoVec, second: IoVec) {
    function Len(): nat { first.len + second.len }

    predicate Within(n: nat) {
      first.base + first.len <= n && second.base + second.len <= n
    }

    /** The buffer position `k` lies in one of the two segments. */
    predicate Covers(k: nat) {
      first.base <= k < first.base + first.len || second.base <= k < second.base + second.len
    }

    /** The buffer position of the view's byte `i`. */
    function Pos(i: nat): nat {
      if i < first.len then first.base + i else second.base + (i - first.len)
    }

    /** The first `n` bytes of the view. */
    function Read(b: bytes, n: nat): bytes
      requires Within(|b|) && n <= Len()
    {
      seq(n, i requires 0 <= i < n => b[Pos(i)])
    }
  }

  /** `vk_iovec_sync` */
  function Sync(bufLen: nat, cursor: nat, len: nat): View
    requires cursor <= bufLen && len <= bufLen
  {
    if cursor + len > bufLen then
      View(IoVec(cursor, bufLen - cursor), IoVec(0, len - (bufLen - cursor)))
    else
      View(IoVec(cursor, len), IoVec(0, 0))
  }

  /** The ring position of `pos`, which is at most one lap ahead. */
  function Wrap(bufLen: nat, pos: nat): nat
    requires pos < 2 * bufLen
  {
    if pos < bufLen then pos else pos - bufLen
  }

  /** One conditional subtraction is the `%` of the C code. */
  lemma WrapIsMod(bufLen: nat, pos: nat)
    requires pos < 2 * bufLen
    ensures pos % bufLen == Wrap(bufLen, pos)
  {
    if bufLen <= pos {
      assert pos == 1 * bufLen + (pos - bufLen);
      assert pos / bufLen == 1;
    }
  }

  /** `pos % bufLen` */
  method Modulo(bufLen: nat, pos: nat) returns (r: nat)
    requires pos < 2 * bufLen
    ensures r == Wrap(bufLen, pos)
  {
    WrapIsMod(bufLen, pos);
    r := pos % bufLen;
  }

  /** The `len` bytes that start at `cursor`: what `vk_vectoring_tx_pos` reads for each position. */
  function Span(b: bytes, cursor: nat, len: nat): bytes
    requires cursor < |b| && len <= |b|
  {
    seq(len, i requires 0 <= i < len => b[Wrap(|b|, cursor + i)])
  }

  /** The two segments of a synced view hold the span, byte by byte. */
  lemma SyncReadsSpan(b: bytes, cursor: nat, len: nat, n: nat)
    requires cursor < |b| && n <= len <= |b|
    ensures var v := Sync(|b|, cursor, len);
            && v.Within(|b|) && v.Len() == len
            && (forall i :: 0 <= i < len ==> v.Pos(i) == Wrap(|b|, cursor + i))
            && v.Read(b, n) == Span(b, cursor, n)
  {
  }

  /** A span cut in two at any point is two spans. */
  lemma SpanSplit(b: bytes, cursor: nat, m: nat, n: nat)
    requires cursor < |b| && m + n <= |b|
    ensures Span(b, cursor, m + n) == Span(b, cursor, m) + Span(b, Wrap(|b|, cursor + m), n)
  {
    var right := Span(b, Wrap(|b|, cursor + m), n);
    forall i | 0 <= i < m + n
      ensures Span(b, cursor, m + n)[i] == (Span(b, cursor, m) + right)[i]
    {
      if i < m {
        assert Span(b, cursor, m)[i] == b[Wrap(|b|, cursor + i)];
      } else {
        assert right[i - m] == b[Wrap(|b|, Wrap(|b|, cursor + m) + (i - m))];
        assert Wrap(|b|, Wrap(|b|, cursor + m) + (i - m)) == Wrap(|b|, cursor + i);
      }
    }
  }

  lemma SpanPrefix(b: bytes, cursor: nat, len: nat, n: nat)
    requires cursor < |b| && n <= len <= |b|
    ensures Span(b, cursor, len)[..n] == Span(b, cursor, n)
  {
  }

  /** Advancing the cursor drops a prefix. */
  lemma SpanDrop(b: bytes, cursor: nat, len: nat, sent: nat)
    requires cursor < |b| && sent <= len <= |b|
    ensures Span(b, Wrap(|b|, cursor + sent), len - sent) == Span(b, cursor, len)[sent..]
  {
    SpanSplit(b, cursor, sent, len - sent);
  }

  /** Changing bytes outside a span leaves the span as it was. */
  lemma SpanFrame(b: bytes, c: bytes, cursor: nat, len: nat)
    requires |b| == |c| && cursor < |b| && len <= |b|
    requires forall k :: 0 <= k < |b| && Sync(|b|, cursor, len).Covers(k) ==> b[k] == c[k]
    ensures Span(b, cursor, len) == Span(c, cursor, len)
  {
    forall i | 0 <= i < len
      ensures Span(b, cursor, len)[i] == Span(c, cursor, len)[i]
    {
      assert Sync(|b|, cursor, len).Covers(Wrap(|b|, cursor + i));
    }
  }

  /** The filled and the free view cover every buffer position exactly once. */
  lemma ViewsPartition(bufLen: nat, cursor: nat, len: nat, k: nat)
    requires cursor < bufLen && len <= bufLen && k < bufLen
    ensures var tx := Sync(bufLen, cursor, len);
            var rx := Sync(bufLen, Wrap(bufLen, cursor + len), bufLen - len);
            && tx.Covers(k) != rx.Covers(k)
            && tx.Len() + rx.Len() == bufLen
            && tx.Len() == len
            && tx.Within(bufLen) && rx.Within(bufLen)
  {
  }

  /** `vk_vectoring_request`: how much of each segment serves a request for `len` bytes. */
  function Request(v: View, len: nat): (r: (nat, nat))
    ensures r.0 <= v.first.len && r.1 <= v.second.len
    ensures r.0 + r.1 == Min(len, v.Len())
    ensures r.1 > 0 ==> r.0 == v.first.len
  {
    if len <= v.first.len then (len, 0)
    else if len <= v.Len() then (v.first.len, len - v.first.len)
    else (v.first.len, v.second.len)
  }

  /** The buffer after `data` was stored at the start of a view, segment by segment. */
  function Place(b: bytes, v: View, data: bytes): (c: bytes)
    requires v.Within(|b|) && |data| <= v.Len()
    ensures |c| == |b|
  {
    var (first, second) := Request(v, |data|);
    Store(Store(b, v.first.base, data[..first]), v.second.base, data[first..])
  }

  /** Placing changes nothing outside the view and puts `data` at the view's positions in order. */
  lemma PlaceAt(b: bytes, v: View, data: bytes, k: nat)
    requires v.Within(|b|) && |data| <= v.Len() && k < |b|
    requires v.second.len == 0 || v.second.base + v.second.len <= v.first.base
    ensures !v.Covers(k) ==> Place(b, v, data)[k] == b[k]
    ensures v.first.base <= k < v.first.base + Min(|data|, v.first.len) ==>
              Place(b, v, data)[k] == data[k - v.first.base]
    ensures |data| > v.first.len && v.second.base <= k < v.second.base + |data| - v.first.len ==>
              Place(b, v, data)[k] == data[k - v.second.base + v.first.len]
  {
    var (first, second) := Request(v, |data|);
    assert second == |data[first..]|;
  }

  /** Storing into the free view leaves the filled span alone and becomes the span after it. */
  lemma PlacedIsAppended(b: bytes, cursor: nat, len: nat, data: bytes)
    requires cursor < |b| && len + |data| <= |b|
    ensures var v := Sync(|b|, Wrap(|b|, cursor + len), |b| - len);
            && v.Within(|b|) && v.Len() == |b| - len
            && Span(Place(b, v, data), cursor, len) == Span(b, cursor, len)
            && Span(Place(b, v, data), Wrap(|b|, cursor + len), |data|) == data
  {
    var rx := Wrap(|b|, cursor + len);
    var v := Sync(|b|, rx, |b| - len);
    var c := Place(b, v, data);
    forall k | 0 <= k < |b| && Sync(|b|, cursor, len).Covers(k)
      ensures b[k] == c[k]
    {
      ViewsPartition(|b|, cursor, len, k);
      PlaceAt(b, v, data, k);
    }
    SpanFrame(b, c, cursor, len);
    forall i | 0 <= i < |data|
      ensures Span(c, rx, |data|)[i] == data[i]
    {
      PlaceAt(b, v, data, Wrap(|b|, rx + i));
    }
  }

  /** Store `data` into a view, segment by segment. */
  method Scatter(buf: array<byte>, v: View, data: bytes, first: nat, second: nat)
    requires v.Within(buf.Length) && (first, second) == Request(v, |data|) && |data| <= v.Len()
    modifies buf
    ensures buf[..] == Place(old(buf[..]), v, data)
  {
    ghost var b := buf[..];
    StoreNothing(b, v.first.base);
    if first > 0 {
      MemPut(buf, v.first.base, data[..first]);
    }
    StoreNothing(buf[..], v.second.base);
    if second > 0 {
      MemPut(buf, v.second.base, data[first..]);
    }
  }

  /** Storing the two clipped segments one after the other stores what the view reads. */
  lemma GatherStores(d: bytes, at: nat, b: bytes, v: View, n: nat)
    requires v.Within(|b|) && n <= v.Len() && at + n <= |d|
    ensures var (first, second) := Request(v, n);
            Store(Store(d, at, b[v.first.base..v.first.base + first]), at + first,
                  b[v.second.base..v.second.base + second])
            == Store(d, at, v.Read(b, n))
  {
    var (first, second) := Request(v, n);
    StoreTwice(d, at, b[v.first.base..v.first.base + first], b[v.second.base..v.second.base + second]);
    assert v.Read(b, n) == b[v.first.base..v.first.base + first] + b[v.second.base..v.second.base + second];
  }

  /** Fetch the beginning of a view into `dst`, segment by segment. */
  method Gather(dst: array<byte>, at: nat, buf: array<byte>, v: View, first: nat, second: nat)
    requires dst != buf && v.Within(buf.Length) && (first, second) == Request(v, first + second)
    requires first + second <= v.Len() && at + first + second <= dst.Length
    modifies dst
    ensures dst[..] == Store(old(dst[..]), at, v.Read(buf[..], first + second))
  {
    GatherStores(dst[..], at, buf[..], v, first + second);
    CopySegment(dst, at, buf, v.first.base, first);
    CopySegment(dst, at + first, buf, v.second.base, second);
  }

  /** `memcpy` behind a test for a nonzero length. */
  method CopySegment(dst: array<byte>, at: nat, src: array<byte>, from: nat, n: nat)
    requires dst != src && at + n <= dst.Length && from + n <= src.Length
    modifies dst
    ensures dst[..] == Store(old(dst[..]), at, src[..][from..from + n])
  {
    StoreNothing(dst[..], at);
    if n > 0 {
      MemCpy(dst, at, src, from, n);
    }
  }

  /** The scans of the two segments of a synced view find the first newline of the span. */
  lemma LineInSegments(b: bytes, cursor: nat, len: nat, r: Option<nat>, s: Option<nat>)
    requires cursor < |b| && len <= |b|
    requires var v := Sync(|b|, cursor, len);
             && IsFirstNewline(b, v.first.base, v.first.base + v.first.len, r)
             && (r.None? ==> IsFirstNewline(b, v.second.base, v.second.base + v.second.len, s))
    ensures var v := Sync(|b|, cursor, len);
            IsFirstNewline(Span(b, cursor, len), 0, len,
                           if r.Some? then r else if s.Some? then Some(v.first.len + s.value) else None)
  {
    SyncReadsSpan(b, cursor, len, len);
    var v := Sync(|b|, cursor, len);
    forall k | 0 <= k < len
      ensures Span(b, cursor, len)[k] == b[v.Pos(k)]
    {
      assert Span(b, cursor, len)[k] == v.Read(b, len)[k];
    }
  }

  class Ring {
    const buf: array<byte>
    var txCursor: nat
    var txLen: nat
    var vectorTx: View
    var vectorRx: View
    var error: nat
    var eof: bool
    var closed: bool
    var rxBlocked: bool
    var txBlocked: bool
    var effect: bool

    ghost predicate Valid()
      reads this
    {
      && 0 < buf.Length <= SSIZE_MAX
      && txCursor < buf.Length
      && txLen <= buf.Length
      && vectorTx == Sync(buf.Length, txCursor, txLen)
      && vectorRx == Sync(buf.Length, RxCursor(), buf.Length - txLen)
    }

    /** The filled bytes, oldest first. */
    ghost function Contents(): bytes
      requires Valid()
      reads this, buf
    {
      Span(buf[..], txCursor, txLen)
    }

    ghost function Value(): (f: Fifo)
      requires Valid()
      reads this, buf
      ensures f.Valid() && |f.contents| == txLen
    {
      Fifo(buf.Length, Contents(), error, eof, closed, rxBlocked, txBlocked, effect)
    }

    /** `vk_vectoring_init`. It leaves `closed` as it found it. */
    constructor (start: array<byte>, closedBefore: bool)
      requires 0 < start.Length <= SSIZE_MAX
      ensures Valid() && buf == start
      ensures Value() == Fifo(start.Length, [], 0, false, closedBefore, false, false, false)
    {
      buf := start;
      txCursor := 0;
      txLen := 0;
      vectorRx := Sync(start.Length, 0, start.Length);
      vectorTx := Sync(start.Length, 0, 0);
      error := 0;
      eof := false;
      closed := closedBefore;
      rxBlocked := false;
      txBlocked := false;
      effect := false;
    }

    function RxCursor(): (r: nat)
      requires txCursor < buf.Length && txLen <= buf.Length
      ensures r < buf.Length
      reads this
    {
      Wrap(buf.Length, txCursor + txLen)
    }

    /** `vk_vectoring_sync` */
    method SyncViews()
      requires 0 < buf.Length <= SSIZE_MAX && txCursor < buf.Length && txLen <= buf.Length
      modifies `vectorTx, `vectorRx
      ensures Valid()
    {
      vectorRx := Sync(buf.Length, RxCursor(), buf.Length - txLen);
      vectorTx := Sync(buf.Length, txCursor, txLen);
    }

    /** `vk_vectoring_mark_received`, after `received` bytes were placed in the free view. */
    method MarkReceived(received: nat)
      requires Valid()
      modifies `txLen, `vectorTx, `vectorRx, `error, `effect
      ensures Valid()
      ensures received <= old(buf.Length - txLen) ==>
                Value() == old(Value().Append(Span(buf[..], RxCursor(), received)))
      ensures received > old(buf.Length - txLen) ==>
                Value() == old(Value()).(error := ENOBUFS, effect := true)
    {
      if received == 0 {
        return;
      }
      if received <= buf.Length - txLen {
        Grow(received);
      } else {
        error := ENOBUFS;
      }
      effect := true;
    }

    /** The new length is `(txLen + received) % bufLen`, or the buffer length when the ring fills up. */
    method Grow(received: nat)
      requires Valid() && received <= buf.Length - txLen
      modifies `txLen, `vectorTx, `vectorRx
      ensures Valid() && txLen == old(txLen) + received
      ensures Contents() == old(Contents() + Span(buf[..], RxCursor(), received))
    {
      SpanSplit(buf[..], txCursor, txLen, received);
      if received < buf.Length - txLen {
        txLen := Modulo(buf.Length, txLen + received);
      } else {
        txLen := buf.Length;
      }
      SyncViews();
    }

    /** `vk_vectoring_mark_sent` */
    method MarkSent(sent: nat)
      requires Valid()
      modifies `txCursor, `txLen, `vectorTx, `vectorRx, `error, `effect
      ensures Valid()
      ensures txCursor == (if sent <= old(txLen) then Wrap(buf.Length, old(txCursor) + sent) else old(txCursor))
      ensures sent <= old(txLen) ==> Value() == old(Value()).Drop(sent)
      ensures sent > old(txLen) ==> Value() == old(Value()).(error := ENOBUFS, effect := true)
    {
      if sent == 0 {
        return;
      }
      ghost var before := Value();
      if sent <= txLen {
        SpanDrop(buf[..], txCursor, txLen, sent);
        txCursor := Modulo(buf.Length, txCursor + sent);
        txLen := txLen - sent;
        SyncViews();
        assert Contents() == before.contents[sent..];
      } else {
        error := ENOBUFS;
      }
      effect := true;
    }

    /** `vk_size_return`. The field `error` only holds `errno` values, so its test for -1 never fires. */
    method SizeReturn(size: nat) returns (r: int)
      modifies `error
      ensures size <= SSIZE_MAX ==> r == size && error == old(error)
      ensures size > SSIZE_MAX ==> r == -1 && error == EINVAL
    {
      if error as int == -1 {
        return -1;
      }
      if size > SSIZE_MAX {
        error := EINVAL;
        return -1;
      }
      return size;
    }

    /** The copying half of `vk_vectoring_recv`. */
    method CopyOut(dst: array<byte>, at: nat, len: nat) returns (first: nat, second: nat)
      requires Valid() && dst != buf && at + Min(len, txLen) <= dst.Length
      modifies dst
      ensures first + second == Min(len, txLen)
      ensures dst[..] == old(Store(dst[..], at, Contents()[..Min(len, txLen)]))
    {
      var lengths := Request(vectorTx, len);
      first, second := lengths.0, lengths.1;
      SyncReadsSpan(buf[..], txCursor, txLen, first + second);
      SpanPrefix(buf[..], txCursor, txLen, first + second);
      Gather(dst, at, buf, vectorTx, first, second);
    }

    /** `vk_vectoring_recv`: take up to `len` of the oldest bytes into `dst`. */
    method Recv(dst: array<byte>, at: nat, len: nat) returns (sent: int)
      requires Valid() && dst != buf && at + Min(len, txLen) <= dst.Length
      modifies `txCursor, `txLen, `vectorTx, `vectorRx, `error, `effect, dst
      ensures Valid() && sent == Min(len, old(txLen))
      ensures txCursor == Wrap(buf.Length, old(txCursor) + sent)
      ensures Value() == old(Value()).Recv(len)
      ensures dst[..] == old(Store(dst[..], at, Value().Received(len)))
    {
      var first, second := CopyOut(dst, at, len);
      if !WrapGuard.AddFits(first, second) {
        return -1;
      }
      MarkSent(first + second);
      sent := SizeReturn(first + second);
    }

    /** The copying half of `vk_vectoring_send`. */
    method CopyIn(src: bytes) returns (first: nat, second: nat)
      requires Valid()
      modifies buf
      ensures first + second == Min(|src|, buf.Length - txLen)
      ensures Contents() == old(Contents())
      ensures Span(buf[..], RxCursor(), first + second) == src[..first + second]
    {
      var lengths := Request(vectorRx, |src|);
      first, second := lengths.0, lengths.1;
      PlacedIsAppended(buf[..], txCursor, txLen, src[..first + second]);
      Scatter(buf, vectorRx, src[..first + second], first, second);
    }

    /** `vk_vectoring_send`: store as much of `src` as fits, nothing while EOF is outstanding. */
    method Send(src: bytes) returns (received: int)
      requires Valid()
      modifies `txLen, `vectorTx, `vectorRx, `error, `effect, buf
      ensures Valid() && received == old(Value()).Accepts(|src|)
      ensures Value() == old(Value()).Send(src)
    {
      if |src| > 0 && eof {
        return 0;
      }
      var first, second := CopyIn(src);
      if !WrapGuard.AddFits(first, second) {
        return -1;
      }
      MarkReceived(first + second);
      received := SizeReturn(first + second);
    }

    /** One receive of `vk_vectoring_recv_splice`, straight into this ring's buffer. */
    method TransferSegment(tx: Ring, at: nat, n: nat) returns (ok: bool)
      requires tx.Valid() && tx != this && tx.buf != buf && at + n <= buf.Length && n <= tx.txLen
      modifies buf, tx`txCursor, tx`txLen, tx`vectorTx, tx`vectorRx, tx`error, tx`effect
      ensures ok && tx.Valid()
      ensures tx.Value() == old(tx.Value()).Drop(n)
      ensures buf[..] == old(Store(buf[..], at, tx.Contents()[..n]))
    {
      StoreNothing(buf[..], at);
      if n > 0 {
        var received := tx.Recv(buf, at, n);
        if received != n {
          return false;
        }
      }
      return true;
    }

    /** The two receives of `vk_vectoring_recv_splice`. */
    method Transfer(tx: Ring, first: nat, second: nat) returns (ok: bool)
      requires vectorRx.Within(buf.Length) && tx.Valid() && tx != this && tx.buf != buf
      requires (first, second) == Request(vectorRx, first + second) && first + second <= Min(vectorRx.Len(), tx.txLen)
      modifies buf, tx`txCursor, tx`txLen, tx`vectorTx, tx`vectorRx, tx`error, tx`effect
      ensures ok && tx.Valid()
      ensures tx.Value() == old(tx.Value()).Drop(first + second)
      ensures buf[..] == old(Place(buf[..], vectorRx, tx.Contents()[..first + second]))
    {
      ghost var data := tx.Contents()[..first + second];
      DropTwice(tx.Value(), first, second);
      assert data[..first] == tx.Contents()[..first];
      ok := TransferSegment(tx, vectorRx.first.base, first);
      if !ok {
        return;
      }
      assert tx.Contents()[..second] == data[first..];
      ok := TransferSegment(tx, vectorRx.second.base, second);
    }

    method TransferIn(tx: Ring, n: nat) returns (ok: bool)
      requires Valid() && tx.Valid() && tx != this && tx.buf != buf
      requires n <= Min(buf.Length - txLen, tx.txLen)
      modifies buf, tx`txCursor, tx`txLen, tx`vectorTx, tx`vectorRx, tx`error, tx`effect
      ensures ok && tx.Valid()
      ensures tx.Value() == old(tx.Value()).Drop(n)
      ensures Contents() == old(Contents())
      ensures Span(buf[..], RxCursor(), n) == old(tx.Contents()[..n])
    {
      var lengths := Request(vectorRx, n);
      PlacedIsAppended(buf[..], txCursor, txLen, tx.Contents()[..n]);
      ok := Transfer(tx, lengths.0, lengths.1);
    }

    /**
     `vk_vectoring_recv_splice` into this ring. The result is never -1: neither the two `EINVAL`
     branches nor the size checks can be taken.
     */
    method RecvSplice(tx: Ring, len: int) returns (r: int)
      requires Valid() && tx.Valid() && tx != this && tx.buf != buf
      modifies `txLen, `vectorTx, `vectorRx, `error, `effect, buf
      modifies tx`txCursor, tx`txLen, tx`vectorTx, tx`vectorRx, tx`error, tx`effect
      ensures Valid() && tx.Valid()
      ensures r == old(SpliceCount(Value(), tx.Value(), len))
      ensures Value() == old(Value().Append(tx.Contents()[..SpliceCount(Value(), tx.Value(), len)]))
      ensures tx.Value() == old(tx.Value().Drop(SpliceCount(Value(), tx.Value(), len)))
    {
      ghost var rx0, tx0 := Value(), tx.Value();
      ghost var n := SpliceCount(rx0, tx0, len);
      var lenRx, lenTx := ViewLens(tx);
      var final := if lenRx < lenTx then lenRx else lenTx;
      if 0 <= len < final {
        final := len;
      }
      assert final == n;
      var ok := TransferIn(tx, final);
      if !ok {
        return -1;
      }
      MarkReceived(final);
      r := SizeReturn(final);
    }

    /** The lengths of this ring's free view and of the other ring's filled view. */
    method ViewLens(tx: Ring) returns (rxLen: nat, txFilled: nat)
      requires Valid() && tx.Valid()
      ensures rxLen == vectorRx.Len() == Value().Free()
      ensures txFilled == tx.vectorTx.Len() == |tx.Contents()|
    {
      rxLen, txFilled := vectorRx.Len(), tx.vectorTx.Len();
    }

    /** `vk_vectoring_splice` into this ring. */
    method Splice(tx: Ring, len: int) returns (r: int)
      requires Valid() && tx.Valid() && tx != this && tx.buf != buf
      modifies this, buf, tx
      ensures Valid() && tx.Valid()
      ensures r == old(SpliceCount(Value(), tx.Value(), len))
      ensures Value() == old(SpliceRx(Value(), tx.Value(), len))
      ensures tx.Value() == old(SpliceTx(Value(), tx.Value(), len))
    {
      r := RecvSplice(tx, len);
      var free, filled := ViewLens(tx);
      SetRxBlocked(r < free);
      tx.SetTxBlocked(r < filled);
    }

    /** `vk_vectoring_set_rx_blocked` */
    method SetRxBlocked(blocked: bool)
      requires Valid()
      modifies `rxBlocked
      ensures Valid() && Value() == old(Value()).(rxBlocked := blocked)
    {
      rxBlocked := blocked;
    }

    /** `vk_vectoring_set_tx_blocked` */
    method SetTxBlocked(blocked: bool)
      requires Valid()
      modifies `txBlocked
      ensures Valid() && Value() == old(Value()).(txBlocked := blocked)
    {
      txBlocked := blocked;
    }

    /** `vk_vectoring_read`, given what `readv` into the free view came back with. */
    method ReadFd(res: SysRead) returns (r: int)
      requires Valid() && Value().ReadAllowed(res)
      modifies this, buf
      ensures Valid() && r == if res.ReadBytes? then |res.data| else -1
      ensures Value() == old(Value()).ReadFd(res)
      ensures match res
              case ReadFailed(e) => Contents() == old(Contents()) && eof == old(eof) && (rxBlocked <==> e == EAGAIN)
              case ReadBytes(data) =>
                && Contents() == old(Contents()) + data && (eof <==> data == [])
                && (rxBlocked <==> |data| < buf.Length - old(txLen))
    {
      ReadFdLeaves(Value(), res);
      if rxBlocked {
        SetRxBlocked(false);
      }
      match res {
        case ReadFailed(e) =>
          ReadRefused(e);
          r := -1;
        case ReadBytes(data) =>
          SetRxBlocked(|data| < vectorRx.Len());
          SetEof(|data| == 0);
          Deposit(data);
          r := |data|;
      }
    }

    method SetEof(eof: bool)
      requires Valid()
      modifies `eof
      ensures Valid() && Value() == old(Value()).(eof := eof)
    {
      this.eof := eof;
    }

    method ReadRefused(errno: nat)
      requires Valid()
      modifies `rxBlocked, `effect, `error
      ensures Valid()
      ensures Value() == if errno == EAGAIN then old(Value()).(rxBlocked := true, effect := false, error := errno)
                         else old(Value()).(error := errno)
    {
      if errno == EAGAIN {
        rxBlocked := true;
        effect := false;
      }
      error := errno;
    }

    /** The bytes `readv` stored in the free view, and their `vk_vectoring_signed_received`. */
    method Deposit(data: bytes)
      requires Valid() && |data| <= buf.Length - txLen
      modifies `txLen, `vectorTx, `vectorRx, `error, `effect, buf
      ensures Valid() && Value() == old(Value()).Append(data)
    {
      var first, second := CopyIn(data);
      assert first + second == |data| && data[..|data|] == data;
      MarkReceived(|data|);
    }

    /** `vk_vectoring_write`, given what `writev` from the filled view came back with. */
    method WriteFd(res: SysWrite) returns (r: int)
      requires Valid() && Value().WriteAllowed(res)
      modifies this
      ensures Valid()
      ensures r == if old(txBlocked) then 0 else if res.Wrote? then res.count else -1
      ensures Value() == old(Value()).WriteFd(res)
      ensures eof == old(eof) && (old(txBlocked) ==> Contents() == old(Contents()) && txBlocked)
      ensures !old(txBlocked) ==>
                match res
                case WriteFailed(e) => Contents() == old(Contents()) && (txBlocked <==> e == EAGAIN)
                case Wrote(n) => Contents() == old(Contents())[n..] && (txBlocked <==> n < old(txLen))
    {
      WriteFdLeaves(Value(), res);
      if txBlocked {
        return 0;
      }
      match res {
        case WriteFailed(e) =>
          if e == EAGAIN {
            txBlocked := true;
            effect := false;
          }
          error := e;
          r := -1;
        case Wrote(n) =>
          txBlocked := n < vectorTx.Len();
          MarkSent(n);
          r := n;
      }
    }

    /** `vk_vectoring_mark_eof` */
    method MarkEof() returns (changed: bool)
      requires Valid()
      modifies `eof, `effect
      ensures Valid() && changed == !old(eof) && Value() == old(Value()).MarkEof()
    {
      if !eof {
        effect := true;
        eof := true;
        return true;
      }
      return false;
    }

    /** `vk_vectoring_clear_eof` */
    method ClearEof()
      requires Valid()
      modifies `eof, `effect
      ensures Valid() && Value() == old(Value()).ClearEof()
    {
      if eof {
        eof := false;
        effect := true;
      }
    }

    /** `vk_vectoring_hup` */
    method Hup() returns (r: Result<nat>)
      requires Valid()
      modifies `eof, `effect
      ensures Valid() && Value() == old(Value()).MarkEof()
      ensures r == if old(eof) then Err(EINVAL) else Ok(1)
    {
      if eof {
        return Err(EINVAL);
      }
      var _ := MarkEof();
      return Ok(1);
    }

    /** `vk_vectoring_readhup` */
    method ReadHup() returns (r: Result<nat>)
      requires Valid()
      modifies `eof, `effect
      ensures Valid() && Value() == old(Value()).ClearEof()
      ensures r == if old(eof) then Ok(1) else Err(EINVAL)
    {
      if eof {
        ClearEof();
        return Ok(1);
      }
      return Err(EINVAL);
    }

    /** `vk_vectoring_forwardhup`: move EOF from this ring to `rx`. */
    method ForwardHup(rx: Ring) returns (moved: bool)
      requires Valid() && rx.Valid() && rx != this
      modifies `eof, `effect, rx`eof, rx`effect
      ensures Valid() && rx.Valid() && moved == old(eof)
      ensures Value() == old(Value()).ClearEof()
      ensures rx.Value() == if old(eof) then old(rx.Value()).MarkEof() else old(rx.Value())
    {
      if eof {
        ClearEof();
        var _ := rx.MarkEof();
        return true;
      }
      return false;
    }

    /** `vk_vectoring_tx_line_len`: the first line may straddle the two segments. */
    method TxLineLen(units: Units) returns (r: Option<nat>)
      requires Valid()
      ensures r.Some? ==> r.value > 0
      ensures IsFirstNewline(Contents(), 0, txLen, if r.None? then None else Some(r.value - 1 as nat))
    {
      var found := FindNewline(buf, vectorTx.first.base, vectorTx.first.len, units);
      if found.Some? {
        LineInSegments(buf[..], txCursor, txLen, found, None);
        return Some(found.value + 1);
      }
      found := FindNewline(buf, vectorTx.second.base, vectorTx.second.len, units);
      LineInSegments(buf[..], txCursor, txLen, None, found);
      if found.Some? {
        return Some(vectorTx.first.len + found.value + 1);
      }
      return None;
    }

    /** `vk_vectoring_tx_line_request` */
    method TxLineRequest(len: nat, units: Units) returns (request: nat)
      requires Valid()
      ensures request == FirstLine(Contents(), len)
    {
      var r := TxLineLen(units);
      FirstLineIs(Contents(), if r.None? then None else Some(r.value - 1), len);
      request := if r.Some? then r.value else len;
    }

    /**
     One pass of `vk_socket_readline`. `mem` is the memory from the caller's buffer on, of which the
     `room` bytes that are left of the buffer are only the beginning.
     */
    method RecvLine(mem: array<byte>, room: nat, units: Units) returns (sent: int)
      requires Valid() && mem != buf && |Contents()| <= mem.Length
      modifies `txCursor, `txLen, `vectorTx, `vectorRx, `error, `effect, mem
      ensures Valid() && sent == PassStores(old(Contents()), room)
      ensures sent <= mem.Length && old(Contents()) == mem[..sent] + Contents()
      ensures forall k :: sent <= k < mem.Length ==> mem[k] == old(mem[k])
      ensures sent <= room <==> LF !in old(Contents()) || LineLen(old(Contents())) <= room
      ensures LF in old(Contents()) ==> sent > 0 && mem[sent - 1] == LF && NoNewline(mem[..], 0, sent - 1)
    {
      ghost var c, was := Contents(), mem[..];
      var request := TxLineRequest(room, units);
      PassInsideIff(c, room);
      sent := Recv(mem, 0, request);
      StoredInFront(was, c[..sent]);
      assert c == c[..sent] + c[sent..];
      if LF in c {
        NewlineMoved(c, mem[..], sent);
      }
    }
  }

  /** Bytes stored at the beginning of a memory. */
  lemma {:induction false} StoredInFront(mem: bytes, data: bytes)
    requires |data| <= |mem|
    ensures var r := Store(mem, 0, data);
      |r| == |mem| && r[..|data|] == data && forall k :: |data| <= k < |mem| ==> r[k] == mem[k]
  {
  }

  lemma {:induction false} NewlineMoved(c: bytes, mem: bytes, n: nat)
    requires LF in c && n == LineLen(c) <= |mem| && mem[..n] == c[..n]
    ensures n > 0 && mem[n - 1] == LF && NoNewline(mem, 0, n - 1)
  {
    assert forall k :: 0 <= k < n ==> mem[k] == mem[..n][k] == c[..n][k] == c[k];
  }
}
