/** The newline scan of `vk_vectoring.c`: a blockwise search by comparison masks, and its scalar tail. */
module Newline {
  import opened Machine

  predicate NoNewline(b: bytes, from: nat, to: nat) {
    forall k :: from <= k < to && k < |b| ==> b[k] != LF
  }

  /** `r` is the distance from `from` to the first newline before `to`, if there is one. */
  predicate IsFirstNewline(b: bytes, from: nat, to: nat, r: Option<nat>) {
    match r
    case None => NoNewline(b, from, to)
    case Some(i) => from + i < to && from + i < |b| && b[from + i] == LF && NoNewline(b, from, from + i)
  }

  /** The byte-equality mask of a block of `n` bytes: bit `i` is set when byte `i` is a newline. */
  function MoveMask(b: bytes, at: nat, n: nat): nat
    requires at + n <= |b|
    decreases n
  {
    if n == 0 then 0
    else (if b[at] == LF then 1 else 0) + 2 * MoveMask(b, at + 1, n - 1)
  }

  /** Count trailing zeros. */
  function Ctz(mask: nat): nat
    requires mask > 0
  {
    if mask % 2 == 1 then 0 else 1 + Ctz(mask / 2)
  }

  lemma CtzDouble(n: nat)
    ensures Ctz(1 + 2 * n) == 0
    ensures n > 0 ==> Ctz(2 * n) == 1 + Ctz(n)
  {
    assert (2 * n) / 2 == n;
  }

  /** A zero mask means no newline; otherwise the lowest set bit is the first one. */
  lemma {:induction false} MaskFindsFirst(b: bytes, at: nat, n: nat)
    requires at + n <= |b|
    ensures var mask := MoveMask(b, at, n);
            IsFirstNewline(b, at, at + n, if mask == 0 then None else Some(Ctz(mask)))
    decreases n
  {
    if n > 0 {
      MaskFindsFirst(b, at + 1, n - 1);
      CtzDouble(MoveMask(b, at + 1, n - 1));
    }
  }

  function Pow2(n: nat): nat {
    if n == 0 then 1 else 2 * Pow2(n - 1)
  }

  /** The mask of a block of `n` bytes fits `n` bits. */
  lemma {:induction false} MaskBound(b: bytes, at: nat, n: nat)
    requires at + n <= |b|
    ensures MoveMask(b, at, n) < Pow2(n)
    decreases n
  {
    if n > 0 {
      MaskBound(b, at + 1, n - 1);
    }
  }

  /** The vector units that the scan is compiled for. */
  datatype Units = Units(avx2: bool, sse2: bool, neon: bool)

  /** One vector loop of the scan: blocks of `width` bytes while that many are left. */
  method ScanBlocks(buf: array<byte>, base: nat, start: nat, end: nat, width: nat) returns (r: Option<nat>, pos: nat)
    requires base <= start <= end <= buf.Length && 0 < width && NoNewline(buf[..], base, start)
    ensures r.Some? ==> IsFirstNewline(buf[..], base, end, r)
    ensures r.None? ==> start <= pos <= end && NoNewline(buf[..], base, pos)
  {
    pos := start;
    while end - pos >= width
      invariant start <= pos <= end
      invariant NoNewline(buf[..], base, pos)
    {
      var mask := MoveMask(buf[..], pos, width);
      MaskFindsFirst(buf[..], pos, width);
      if mask != 0 {
        return Some(pos - base + Ctz(mask)), pos;
      }
      pos := pos + width;
    }
    r := None;
  }

  /** The loop for a unit without a mask: blocks of 16 bytes, whose lanes are tested one by one. */
  method ScanLanes(buf: array<byte>, base: nat, start: nat, end: nat) returns (r: Option<nat>, pos: nat)
    requires base <= start <= end <= buf.Length && NoNewline(buf[..], base, start)
    ensures r.Some? ==> IsFirstNewline(buf[..], base, end, r)
    ensures r.None? ==> start <= pos <= end && NoNewline(buf[..], base, pos)
  {
    pos := start;
    while end - pos >= 16
      invariant start <= pos <= end && NoNewline(buf[..], base, pos)
    {
      for i := 0 to 16
        invariant NoNewline(buf[..], base, pos + i)
      {
        if buf[pos + i] == LF {
          return Some(pos + i - base), pos;
        }
      }
      pos := pos + 16;
    }
    r := None;
  }

  /**
   `vk_vectoring_find_newline` on the `len` bytes at `base`, for every combination of compiled-in
   vector units: 32-byte blocks, then 16-byte blocks by mask, then by lanes, then single bytes.
   */
  method FindNewline(buf: array<byte>, base: nat, len: nat, units: Units) returns (r: Option<nat>)
    requires base + len <= buf.Length
    ensures IsFirstNewline(buf[..], base, base + len, r)
  {
    var end, pos := base + len, base;
    if units.avx2 {
      r, pos := ScanBlocks(buf, base, pos, end, 32);
      if r.Some? {
        return;
      }
    }
    if units.sse2 {
      r, pos := ScanBlocks(buf, base, pos, end, 16);
      if r.Some? {
        return;
      }
    }
    if units.neon {
      r, pos := ScanLanes(buf, base, pos, end);
      if r.Some? {
        return;
      }
    }
    while pos < end
      invariant base <= pos <= end
      invariant NoNewline(buf[..], base, pos)
    {
      if buf[pos] == LF {
        return Some(pos - base);
      }
      pos := pos + 1;
    }
    return None;
  }

  /** The length of the first line of `s`, newline included, or `other` when no line is complete. */
  function FirstLine(s: bytes, other: nat): nat {
    if LF !in s then other else LineLen(s)
  }

  /** How many bytes one pass of a line read stores: a buffered line whole, whatever room is left. */
  function PassStores(buffered: bytes, room: nat): (n: nat)
    ensures n <= |buffered| && n <= FirstLine(buffered, room)
  {
    Min(FirstLine(buffered, room), |buffered|)
  }

  /** They stay within the room exactly if no newline is buffered or the first buffered line fits it. */
  lemma {:induction false} PassInsideIff(buffered: bytes, room: nat)
    ensures PassStores(buffered, room) <= room <==> LF !in buffered || LineLen(buffered) <= room
  {
  }

  /** The inputs at which they do not: any line that is buffered with its newline and exceeds the room. */
  lemma {:induction false} LongLineLeavesRoom(text: bytes, after: bytes, room: nat)
    requires LF !in text && |text| >= room
    ensures PassStores(text + [LF] + after, room) == |text| + 1 > room
  {
    var s := text + [LF] + after;
    assert s[|text|] == LF;
    assert forall k :: 0 <= k < |text| ==> s[k] == text[k];
  }

  function LineLen(s: bytes): (n: nat)
    requires LF in s
    ensures 0 < n <= |s| && s[n - 1] == LF && NoNewline(s, 0, n - 1)
  {
    if s[0] == LF then 1 else
      assert s == [s[0]] + s[1..];
      var n := 1 + LineLen(s[1..]);
      assert forall k :: 0 < k < n - 1 ==> s[k] == s[1..][k - 1];
      n
  }

  /** There is only one first newline. */
  lemma FirstLineIs(s: bytes, r: Option<nat>, other: nat)
    requires IsFirstNewline(s, 0, |s|, r)
    ensures FirstLine(s, other) == if r.None? then other else r.value + 1
  {
    assert LF in s <==> r.Some?;
  }
}
