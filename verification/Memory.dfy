/** Byte buffers: what a store leaves behind, and machine words kept in memory. */
module Memory {
  import opened Machine

  /** The buffer after `data` was stored at `at`. */
  function Store(b: bytes, at: nat, data: bytes): bytes
    requires at + |data| <= |b|
  {
    seq(|b|, k requires 0 <= k < |b| => if at <= k < at + |data| then data[k - at] else b[k])
  }

  lemma StoreNothing(b: bytes, at: nat)
    requires at <= |b|
    ensures Store(b, at, []) == b
  {
  }

  lemma StoreTwice(b: bytes, at: nat, first: bytes, second: bytes)
    requires at + |first| + |second| <= |b|
    ensures Store(Store(b, at, first), at + |first|, second) == Store(b, at, first + second)
  {
  }

  /** `memcpy` between two distinct buffers. */
  method MemCpy(dst: array<byte>, at: nat, src: array<byte>, from: nat, n: nat)
    requires dst != src && at + n <= dst.Length && from + n <= src.Length
    modifies dst
    ensures dst[..] == Store(old(dst[..]), at, old(src[from..from + n]))
  {
    forall i | 0 <= i < n {
      dst[at + i] := src[from + i];
    }
  }

  /** `memcpy` from a read-only buffer. */
  method MemPut(dst: array<byte>, at: nat, src: bytes)
    requires at + |src| <= dst.Length
    modifies dst
    ensures dst[..] == Store(old(dst[..]), at, src)
  {
    forall i | 0 <= i < |src| {
      dst[at + i] := src[i];
    }
  }

  /** The `n` low bytes of a number, lowest first. */
  function Encode(v: nat, n: nat): (b: bytes)
    ensures |b| == n
  {
    if n == 0 then [] else [v % 256] + Encode(v / 256, n - 1)
  }

  function Decode(b: bytes): nat {
    if b == [] then 0 else b[0] + 256 * Decode(b[1..])
  }

  function Pow256(n: nat): nat {
    if n == 0 then 1 else 256 * Pow256(n - 1)
  }

  lemma {:induction false} DecodeEncode(v: nat, n: nat)
    requires v < Pow256(n)
    ensures Decode(Encode(v, n)) == v
  {
    if n > 0 {
      DecodeEncode(v / 256, n - 1);
      assert Encode(v, n)[1..] == Encode(v / 256, n - 1);
    }
  }

  const WORD: nat := 8

  lemma WordRange()
    ensures Pow256(WORD) == SIZE_MAX + 1
  {
    assert Pow256(1) == 256;
    assert Pow256(2) == 65536;
    assert Pow256(4) == 256 * (256 * Pow256(2));
    assert Pow256(6) == 256 * (256 * Pow256(4));
    assert Pow256(8) == 256 * (256 * Pow256(6));
  }

  /** The `size_t` stored at `at`. */
  function LoadWord(b: bytes, at: nat): nat
    requires at + WORD <= |b|
  {
    Decode(b[at..at + WORD])
  }

  /** A stored word is loaded back. */
  lemma LoadStored(b: bytes, at: nat, v: size_t)
    requires at + WORD <= |b|
    ensures LoadWord(Store(b, at, Encode(v, WORD)), at) == v
  {
    WordRange();
    DecodeEncode(v, WORD);
    assert Store(b, at, Encode(v, WORD))[at..at + WORD] == Encode(v, WORD);
  }

  /** A store elsewhere leaves a word alone. */
  lemma LoadElsewhere(b: bytes, at: nat, data: bytes, word: nat)
    requires at + |data| <= |b| && word + WORD <= |b|
    requires at + |data| <= word || word + WORD <= at
    ensures LoadWord(Store(b, at, data), word) == LoadWord(b, word)
  {
    assert Store(b, at, data)[word..word + WORD] == b[word..word + WORD];
  }
}
