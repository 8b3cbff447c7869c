/**
 `vk_io_op.c` and `vk_io_exec.c`: an I/O operation is built from a view of a ring, executed by one
 non-blocking system call that may transfer less than was asked, and applied to the ring.
 */
module IoOp {
  import opened Machine
  import opened Ring
  import opened WrapGuard

  const INT_MAX: nat := 0x7FFF_FFFF

  datatype Kind = Read | Write | Forward | Flush | Hup

  datatype State = Pending | Staged | Submitted | Done | Eagain | NeedsPoll | Failed | Canceled

  /** The result of the system call: a count, or an errno. */
  datatype SysResult = Moved(count: nat) | Refused(errno: nat)

  /** A segment length on its way through an `int` and back to a `size_t`. */
  function ThroughInt(n: size_t): size_t {
    var i := AsInt(n);
    if i < 0 then TWO_TO_THE_64 + i else i
  }

  /** The segments that both builders put into the operation, if they find any byte. */
  function Clip(v: View, maxLen: size_t): Option<View>
    requires v.first.len <= SIZE_MAX && v.second.len <= SIZE_MAX
  {
    var b1, b2 := ThroughInt(v.first.len), ThroughInt(v.second.len);
    if Add64(b1, b2) == 0 then None
    else
      var need := if maxLen > 0 then maxLen else Add64(b1, b2);
      Some(View(IoVec(v.first.base, Min(b1, need)), IoVec(v.second.base, Min(b2, need - Min(b1, need)))))
  }

  /** An `int` can count both segments. */
  predicate Counted(v: View) {
    v.first.len <= INT_MAX && v.second.len <= INT_MAX
  }

  lemma ThroughIntKeeps(n: size_t)
    requires n <= INT_MAX
    ensures ThroughInt(n) == n
  {
  }

  /** Of countable segments the operation takes the first bytes of the ring's view. */
  lemma ClipExact(bufLen: nat, cursor: nat, len: nat, maxLen: size_t)
    requires cursor < bufLen <= SSIZE_MAX && len <= bufLen && Counted(Sync(bufLen, cursor, len))
    ensures var r := Clip(Sync(bufLen, cursor, len), maxLen);
            && (r.None? <==> len == 0)
            && (r.Some? ==> r.value == Sync(bufLen, cursor, if maxLen > 0 then Min(maxLen, len) else len))
  {
    var v := Sync(bufLen, cursor, len);
    ThroughIntKeeps(v.first.len);
    ThroughIntKeeps(v.second.len);
  }

  /** Of a segment of `n` bytes the conversion shows at least `max`, or all of them. */
  predicate Shown(n: size_t, max: nat) {
    n <= INT_MAX || (max <= n && (n % 0x1_0000_0000 > INT_MAX || max <= n % 0x1_0000_0000))
  }

  lemma ThroughIntIff(n: size_t)
    requires n <= SSIZE_MAX
    ensures ThroughInt(n) == n <==> n <= INT_MAX
    ensures n % 0x1_0000_0000 > INT_MAX ==> ThroughInt(n) > SSIZE_MAX
    ensures n % 0x1_0000_0000 <= INT_MAX ==> ThroughInt(n) == n % 0x1_0000_0000 <= n
  {
  }

  lemma ShownIff(n: size_t, max: nat)
    requires n <= SSIZE_MAX
    ensures Min(ThroughInt(n), max) == Min(n, max) <==> Shown(n, max)
  {
    ThroughIntIff(n);
  }

  lemma SumIsZero(a: size_t, b: size_t)
    ensures Add64(ThroughInt(a), ThroughInt(b)) == 0 <==> AsInt(a) + AsInt(b) == 0
  {
  }

  /**
   Of any segments: without a limit the operation takes the ring's view exactly if an `int` can count both;
   with one, exactly if the limited part of each is shown and they do not cancel out.
   */
  lemma ClipExactIff(bufLen: nat, cursor: nat, len: nat, maxLen: size_t)
    requires cursor < bufLen <= SSIZE_MAX && 0 < len <= bufLen
    ensures var v := Sync(bufLen, cursor, len);
      Clip(v, maxLen) == Some(Sync(bufLen, cursor, if maxLen > 0 then Min(maxLen, len) else len)) <==>
      if maxLen == 0 then Counted(v)
      else
        && AsInt(v.first.len) + AsInt(v.second.len) != 0
        && Shown(v.first.len, maxLen) && Shown(v.second.len, maxLen - Min(v.first.len, maxLen))
  {
    var v := Sync(bufLen, cursor, len);
    if maxLen == 0 {
      ThroughIntIff(v.first.len);
      ThroughIntIff(v.second.len);
    } else {
      SumIsZero(v.first.len, v.second.len);
      ShownIff(v.first.len, maxLen);
      ShownIff(v.second.len, maxLen - Min(v.first.len, maxLen));
    }
  }

  /** What can happen to others: a segment of 2^32 bytes looks empty, one of 2^31 bytes overruns the ring. */
  lemma ClipOverruns()
    ensures Clip(Sync(0x1_0000_0000, 0, 0x1_0000_0000), 0) == None
    ensures var r := Clip(Sync(0x8000_0000, 0, 0x8000_0000), 0); r.Some? && r.value.Len() > SSIZE_MAX
  {
    assert AsInt(0x1_0000_0000) == 0;
    assert AsInt(0x8000_0000) == -0x8000_0000;
  }

  class Op {
    var kind: Kind
    var iov: View
    var len: nat
    var state: State
    var res: int
    var err: nat

    constructor (kind: Kind)
      ensures this.kind == kind && state == Pending && len == 0 && iov == View(IoVec(0, 0), IoVec(0, 0))
    {
      this.kind := kind;
      iov := View(IoVec(0, 0), IoVec(0, 0));
      len := 0;
      state := Pending;
      res := 0;
      err := 0;
    }

    /** Clip a view to `maxLen` bytes, or take all of it when `maxLen` is zero. */
    method FromView(v: View, maxLen: size_t) returns (r: Result<nat>)
      requires v.first.len <= SIZE_MAX && v.second.len <= SIZE_MAX
      modifies `iov, `len
      ensures r == if Clip(v, maxLen).None? then Err(EAGAIN) else Ok(0)
      ensures r.Err? ==> iov == old(iov) && len == old(len)
      ensures r.Ok? ==> iov == Clip(v, maxLen).value && len == iov.Len()
    {
      var b1, b2 := ThroughInt(v.first.len), ThroughInt(v.second.len);
      if Add64(b1, b2) == 0 {
        return Err(EAGAIN);
      }
      var need := if maxLen > 0 then maxLen else Add64(b1, b2);
      var l1 := Min(b1, need);
      var remaining := need - l1;
      var l2 := if remaining > 0 then Min(b2, remaining) else 0;
      iov := View(IoVec(v.first.base, l1), IoVec(v.second.base, l2));
      len := l1 + l2;
      return Ok(0);
    }

    /** `vk_io_op_from_tx_ring`; it is exact on segments that an `int` can count. */
    method FromTxRing(ring: Ring, maxLen: size_t) returns (r: Result<nat>)
      requires ring.Valid()
      modifies `iov, `len
      ensures r == if Clip(ring.vectorTx, maxLen).None? then Err(EAGAIN) else Ok(0)
      ensures r.Err? ==> iov == old(iov) && len == old(len)
      ensures r.Ok? ==> iov == Clip(ring.vectorTx, maxLen).value && len == iov.Len()
      ensures Counted(ring.vectorTx) ==> (r.Err? <==> ring.txLen == 0)
      ensures Counted(ring.vectorTx) && r.Ok? ==>
                && 0 < len == (if maxLen > 0 then Min(maxLen, ring.txLen) else ring.txLen)
                && iov == Sync(ring.buf.Length, ring.txCursor, len)
    {
      if Counted(ring.vectorTx) {
        ClipExact(ring.buf.Length, ring.txCursor, ring.txLen, maxLen);
      }
      r := FromView(ring.vectorTx, maxLen);
    }

    /** `vk_io_op_from_rx_ring` */
    method FromRxRing(ring: Ring, maxLen: size_t) returns (r: Result<nat>)
      requires ring.Valid()
      modifies `iov, `len
      ensures r == if Clip(ring.vectorRx, maxLen).None? then Err(EAGAIN) else Ok(0)
      ensures r.Err? ==> iov == old(iov) && len == old(len)
      ensures r.Ok? ==> iov == Clip(ring.vectorRx, maxLen).value && len == iov.Len()
      ensures Counted(ring.vectorRx) ==> (r.Err? <==> ring.txLen == ring.buf.Length)
      ensures Counted(ring.vectorRx) && r.Ok? ==>
                && 0 < len == (if maxLen > 0 then Min(maxLen, ring.buf.Length - ring.txLen)
                              else ring.buf.Length - ring.txLen)
                && iov == Sync(ring.buf.Length, ring.RxCursor(), len)
    {
      if Counted(ring.vectorRx) {
        ClipExact(ring.buf.Length, ring.RxCursor(), ring.buf.Length - ring.txLen, maxLen);
      }
      r := FromView(ring.vectorRx, maxLen);
    }

    /**
     `vk_io_exec_rw`, given what the system call came back with. `Done` means every requested byte
     moved; a partial transfer and a refusal with EAGAIN both wait for the poller.
     */
    method ExecRw(result: SysResult) returns (r: Result<nat>)
      requires result.Moved? ==> result.count <= len
      modifies `state, `res, `err
      ensures r == if kind == Read || kind == Write then Ok(0) else Err(EINVAL)
      ensures r.Err? ==> state == old(state) && res == old(res) && err == old(err)
      ensures r.Ok? ==>
                && res == (if result.Moved? then result.count else -1)
                && (state == Done <==> result == Moved(len))
                && (state == NeedsPoll <==> (result.Moved? && result.count < len) || result == Refused(EAGAIN))
                && (state == Failed <==> result.Refused? && result.errno != EAGAIN)
                && err == (if result.Refused? then result.errno else if result.count < len then EAGAIN else 0)
    {
      if kind != Read && kind != Write {
        return Err(EINVAL);
      }
      res := if result.Moved? then result.count else -1;
      if res >= 0 {
        err := 0;
        if res < len {
          state := NeedsPoll;
          err := EAGAIN;
        } else {
          state := Done;
        }
        return Ok(0);
      }
      if result.errno == EAGAIN {
        err := result.errno;
        state := NeedsPoll;
        return Ok(0);
      }
      err := result.errno;
      state := Failed;
      return Ok(0);
    }
  }

  /** Where the one outstanding operation of a channel stands. */
  datatype Phase = Idle | Built | Executed

  /** A ring that drains to the operating system through one outstanding write at a time. */
  class TxChannel {
    const ring: Ring
    const op: Op
    var phase: Phase
    ghost var accepted: bytes
    ghost var wire: bytes

    /** How many bytes have moved but are not yet taken off the ring. */
    ghost function Unapplied(): nat
      reads this, op
    {
      if phase == Executed && op.res > 0 then op.res else 0
    }

    /** Every accepted byte is on the wire or still in the ring, in order and exactly once. */
    ghost predicate Valid()
      reads this, ring, ring.buf, op
    {
      && ring.Valid() && ring.buf.Length <= INT_MAX
      && op.kind == Write
      && (phase != Idle ==> op.len <= ring.txLen && op.iov == Sync(ring.buf.Length, ring.txCursor, op.len))
      && Unapplied() <= op.len
      && accepted == wire + ring.Contents()[Unapplied()..]
    }

    constructor (ring: Ring, op: Op)
      requires ring.Valid() && ring.buf.Length <= INT_MAX && ring.txLen == 0 && op.kind == Write
      ensures Valid() && this.ring == ring && this.op == op && accepted == [] && wire == []
    {
      this.ring := ring;
      this.op := op;
      phase := Idle;
      accepted := [];
      wire := [];
    }

    /** A coroutine sends, whether or not an operation is in flight. */
    method Send(src: bytes) returns (n: int)
      requires Valid()
      modifies this`accepted, ring, ring.buf
      ensures Valid() && 0 <= n <= |src| && accepted == old(accepted) + src[..n]
    {
      ghost var before := ring.Contents();
      n := ring.Send(src);
      assert ring.Contents() == before + src[..n];
      accepted := accepted + src[..n];
    }

    method Build(maxLen: size_t) returns (r: Result<nat>)
      requires Valid() && phase == Idle
      modifies `phase, op
      ensures Valid() && (r.Err? <==> ring.txLen == 0)
      ensures phase == if r.Ok? then Built else Idle
    {
      r := op.FromTxRing(ring, maxLen);
      if r.Ok? {
        phase := Built;
      }
    }

    /** The system takes a prefix of what the operation's segments hold at that moment. */
    method Execute(result: SysResult)
      requires Valid() && phase == Built
      requires result.Moved? ==> result.count <= op.len
      modifies `phase, `wire, op
      ensures Valid() && phase == Executed
      ensures wire == old(wire) + if result.Moved? then ring.Contents()[..result.count] else []
      ensures op.state == Done <==> result == Moved(op.len)
      ensures op.state == NeedsPoll <==> (result.Moved? && result.count < op.len) || result == Refused(EAGAIN)
    {
      var _ := op.ExecRw(result);
      phase := Executed;
      if result.Moved? {
        ghost var c := ring.Contents();
        assert c == c[..result.count] + c[result.count..];
        wire := wire + c[..result.count];
      }
    }

    /** The segments of the operation in flight hold a prefix of the ring, whatever was sent meanwhile. */
    lemma InFlightReadsPrefix()
      requires Valid() && phase != Idle
      ensures op.iov.Within(ring.buf.Length) && op.iov.Len() == op.len
      ensures op.iov.Read(ring.buf[..], op.len) == ring.Contents()[..op.len]
    {
      SyncReadsSpan(ring.buf[..], ring.txCursor, op.len, op.len);
      SpanPrefix(ring.buf[..], ring.txCursor, ring.txLen, op.len);
    }

    /** `vk_io_apply_tx` */
    method Apply()
      requires Valid() && phase == Executed
      modifies `phase, ring
      ensures Valid() && phase == Idle
      ensures old(op.res) >= 0 ==> |ring.Contents()| == old(|ring.Contents()|) - op.res
    {
      if op.res < 0 {
        ring.error := op.err;
      } else {
        ring.MarkSent(op.res);
      }
      phase := Idle;
    }
  }

  /** A ring that the operating system fills through one outstanding read at a time. */
  class RxChannel {
    const ring: Ring
    const op: Op
    var phase: Phase
    ghost var arrived: bytes
    ghost var taken: bytes
    ghost var landed: bytes

    /** Every arrived byte was taken, is in the ring, or has landed behind it, in order and once. */
    ghost predicate Valid()
      reads this, ring, ring.buf, op
    {
      && ring.Valid() && ring.buf.Length <= INT_MAX
      && op.kind == Read
      && (phase != Idle ==>
            op.len <= ring.buf.Length - ring.txLen && op.iov == Sync(ring.buf.Length, ring.RxCursor(), op.len))
      && (phase == Executed ==>
            && op.res <= op.len
            && landed == if op.res > 0 then Span(ring.buf[..], ring.RxCursor(), op.res) else [])
      && (phase != Executed ==> landed == [])
      && arrived == taken + ring.Contents() + landed
    }

    constructor (ring: Ring, op: Op)
      requires ring.Valid() && ring.buf.Length <= INT_MAX && ring.txLen == 0 && op.kind == Read
      ensures Valid() && this.ring == ring && this.op == op && arrived == [] && taken == []
    {
      this.ring := ring;
      this.op := op;
      phase := Idle;
      arrived := [];
      taken := [];
      landed := [];
    }

    method TakeInto(dst: array<byte>, len: nat) returns (n: int)
      requires ring.Valid() && dst != ring.buf && Min(len, ring.txLen) <= dst.Length
      modifies ring, dst
      ensures ring.Valid() && n == old(Min(len, ring.txLen)) && ring.txLen == old(ring.txLen) - n
      ensures ring.RxCursor() == old(ring.RxCursor())
      ensures old(ring.Contents()) == dst[..n] + ring.Contents()
    {
      ghost var c := ring.Contents();
      n := ring.Recv(dst, 0, len);
      assert dst[..n] == c[..n];
      assert c == c[..n] + c[n..];
    }

    /** A coroutine receives into its own buffer, whether or not an operation is in flight. */
    method Recv(dst: array<byte>, len: nat) returns (n: int)
      requires Valid() && dst != ring.buf && Min(len, ring.txLen) <= dst.Length
      modifies this`taken, ring, dst
      ensures Valid() && 0 <= n <= dst.Length && taken == old(taken) + dst[..n]
      ensures n == old(Min(len, ring.txLen))
    {
      ghost var c := ring.Contents();
      n := TakeInto(dst, len);
      assert taken + c + landed == (taken + dst[..n]) + ring.Contents() + landed;
      taken := taken + dst[..n];
    }

    method Build(maxLen: size_t) returns (r: Result<nat>)
      requires Valid() && phase == Idle
      modifies `phase, op
      ensures Valid() && (r.Err? <==> ring.txLen == ring.buf.Length)
      ensures phase == if r.Ok? then Built else Idle
    {
      r := op.FromRxRing(ring, maxLen);
      if r.Ok? {
        phase := Built;
      }
    }

    /** The system stores `data` through the operation's segments. */
    method Execute(data: bytes, result: SysResult)
      requires Valid() && phase == Built
      requires match result { case Moved(n) => n == |data| <= op.len case Refused(_) => data == [] }
      modifies `phase, `arrived, `landed, op, ring.buf
      ensures Valid() && phase == Executed && arrived == old(arrived) + data
      ensures op.state == Done <==> result == Moved(op.len)
      ensures op.state == NeedsPoll <==> (result.Moved? && result.count < op.len) || result == Refused(EAGAIN)
    {
      Land(data);
      var _ := op.ExecRw(result);
      phase := Executed;
      landed := data;
      arrived := arrived + data;
    }

    method Land(data: bytes)
      requires ring.Valid() && |data| <= op.len <= ring.buf.Length - ring.txLen
      requires op.iov == Sync(ring.buf.Length, ring.RxCursor(), op.len)
      modifies ring.buf
      ensures ring.Contents() == old(ring.Contents())
      ensures Span(ring.buf[..], ring.RxCursor(), |data|) == data
    {
      PlacedPrefix(ring.buf[..], ring.txCursor, ring.txLen, op.len, data);
      var (first, second) := Request(op.iov, |data|);
      Scatter(ring.buf, op.iov, data, first, second);
    }

    /** `vk_io_apply_rx` */
    method Apply()
      requires Valid() && phase == Executed
      modifies `phase, `landed, ring
      ensures Valid() && phase == Idle && ring.Contents() == old(ring.Contents() + landed)
    {
      if op.res < 0 {
        ring.error := op.err;
      } else {
        ghost var c := ring.Contents();
        ring.MarkReceived(op.res);
        assert ring.Contents() == c + landed;
      }
      phase := Idle;
      landed := [];
    }
  }

  /** A view clipped to `n` bytes places data exactly where the whole free view would. */
  lemma PlacedPrefix(b: bytes, cursor: nat, len: nat, n: nat, data: bytes)
    requires cursor < |b| && len + n <= |b| && |data| <= n
    ensures var rx := Wrap(|b|, cursor + len);
            var v := Sync(|b|, rx, n);
            && v.Within(|b|) && v.Len() == n
            && Span(Place(b, v, data), cursor, len) == Span(b, cursor, len)
            && Span(Place(b, v, data), rx, |data|) == data
  {
    var rx := Wrap(|b|, cursor + len);
    var v, w := Sync(|b|, rx, n), Sync(|b|, rx, |b| - len);
    assert Request(v, |data|) == Request(w, |data|);
    PlacedIsAppended(b, cursor, len, data);
  }
}
