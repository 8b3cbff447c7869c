/**
 What the chunk reader makes of entities that are damaged or cut off: which error each part raises, and that a
 stream that is cut off is never taken for a whole one, as long as more than its last byte is missing.
 */
module ChunkErrors {
  import opened Machine
  import opened Lines
  import opened Hex
  import opened Chunks

  // ---- one part ----

  /** Behind a whole header: too few bytes are an EPIPE, and data without its line end is an EPROTO. */
  lemma {:induction false} ChunkCases(h0: byte, c: Payload, t: bytes, arr: Arrivals)
    requires Carried(c, arr.At(|HeadBytes(h0, |c|) + t|))
    ensures ReadChunk(HeadBytes(h0, |c|) + t, arr) ==
      if |t| < |c| + 2 then Bad(Raised(EPIPE))
      else if t[|c|..|c| + 2] != CRLF then Bad(Raised(EPROTO))
      else Chunk(t[..|c|], t[|c| + 2..])
  {
    ReadHeadCarried(h0, |c|, t, arr);
    if |t| >= |c| {
      FooterCases(t, |c|);
    }
  }

  lemma {:induction false} FooterCases(t: bytes, n: nat)
    requires n <= |t|
    ensures ReadFooter(t[..n], t[n..]) ==
      if |t| < n + 2 then Bad(Raised(EPIPE))
      else if t[n..n + 2] != CRLF then Bad(Raised(EPROTO))
      else Chunk(t[..n], t[n + 2..])
  {
    if |t| >= n + 2 {
      assert t[n..][..2] == t[n..n + 2] && t[n..][2..] == t[n + 2..];
    }
  }

  /** A header line of any text: what is left of it must be something, and no longer than the macro asks for. */
  lemma {:induction false} HeadLine(s: bytes, t: bytes, arr: Arrivals)
    requires LF !in s && !arr.At(|s + [LF] + t|).late && arr.At(|s + [LF] + t|).stop == 0
    ensures var d := if s != [] && s[|s| - 1] == CR then s[..|s| - 1] else s;
      ReadHead(s + [LF] + t, arr) ==
      if |s| + 1 > HEAD_SIZE then NoHead(Overrun(|s| + 1))
      else if d == [] || |d| > HEAD_MAX then NoHead(Raised(EPROTO))
      else Head(HexSize(d), t)
  {
    ReadLineOf(s, t, HEAD_MAX, arr.At(|s + [LF] + t|));
    assert (s + [LF])[..|s|] == s;
  }

  /** The end of the stream raises EPIPE wherever a header or a trailer line is expected. */
  lemma {:induction false} NothingLeft(arr: Arrivals)
    ensures ReadHead([], arr) == NoHead(Raised(EPIPE)) && ReadEnd([], arr) == Broken(Raised(EPIPE))
    ensures ReadEntity([], arr) == Broken(Raised(EPIPE))
  {
  }

  /** A key can be split off at byte `i`: it ends there, and no terminator comes before. */
  predicate KeyEnds(text: bytes, i: int) {
    0 <= i < |text| && text[i] in [':' as byte, ' ' as byte, '\t' as byte] && 0 !in text[..i]
  }

  /** A line of a header section has a key exactly if one of the three delimiters ends it. */
  lemma {:induction false} HasKeyIff(text: bytes)
    ensures HasKey(text) <==> exists i :: KeyEnds(text, i)
  {
    if text != [] {
      HasKeyIff(text[1..]);
      if text[0] == 0 {
        assert forall i :: 0 < i < |text| ==> text[..i][0] == 0;
      } else if text[0] in DELIMITERS {
        assert KeyEnds(text, 0);
      } else {
        KeyLater(text);
      }
    }
  }

  lemma {:induction false} KeyLater(text: bytes)
    requires text != [] && text[0] != 0 && text[0] !in DELIMITERS
    ensures (exists i :: KeyEnds(text, i)) <==> exists i :: KeyEnds(text[1..], i)
  {
    forall i | 1 <= i < |text|
      ensures KeyEnds(text, i) <==> KeyEnds(text[1..], i - 1)
    {
      assert text[..i] == [text[0]] + text[1..][..i - 1];
    }
    if j :| KeyEnds(text, j) {
      assert KeyEnds(text[1..], j - 1);
    }
    if j :| KeyEnds(text[1..], j) {
      assert KeyEnds(text, j + 1);
    }
  }

  // ---- streams that are cut off ----

  /** Every line is buffered in time, and no read stops early. */
  ghost predicate Prompt(arr: Arrivals) {
    forall n :: arr.At(n).stop == 0 && !arr.At(n).late
  }

  /** A line without its end is read as far as it goes. */
  lemma {:induction false} ReadCutLine(s: bytes, max: nat, a: Arrival)
    requires LF !in s && |s| <= max && a.stop == 0
    ensures ReadLine(s, max, a) == Line(s, [])
  {
    LineFromEnds(s, 0);
    assert s[..|s|] == s && s[|s|..] == [];
  }

  /** The first digit of a header is not zero. */
  lemma {:induction false} CarriedTop(size: size_t)
    requires 0 < size && (size < BIT_60 || Bit60(size))
    ensures var k := Flsh(size); 0 < k <= 16 && size % Pow16(k) >= Pow16(k - 1) && |Written(size, 16)| == k
  {
    CarriedDigits(size);
    WrittenReadsBack(size);
    FlshCounts(size);
    RestAtMost(size);
  }

  lemma {:induction false} RestAtMost(size: size_t)
    ensures size % BIT_61 <= size
  {
  }

  /** So what is left of its digits is not all zero. */
  lemma {:induction false} CutDigits(size: size_t, j: nat)
    requires 0 < size && (size < BIT_60 || Bit60(size)) && 0 < j <= |Written(size, 16)|
    ensures HexSize(Written(size, 16)[..j]) > 0
  {
    CarriedTop(size);
    WrittenIsDigits(size);
    CutDigitsOf(size, Flsh(size), j);
  }

  lemma {:induction false} CutDigitsOf(n: nat, k: nat, j: nat)
    requires 0 < j <= k <= 16 && n % Pow16(k) >= Pow16(k - 1)
    ensures HexSize(Digits(n, k)[..j]) > 0
    decreases k
  {
    if j == k {
      assert Digits(n, k)[..k] == Digits(n, k);
      HexOfDigits(n, k);
    } else {
      assert Digits(n, k)[..j] == Digits(n / 16, k - 1)[..j];
      TopStays(n, k);
      CutDigitsOf(n / 16, k - 1, j);
    }
  }

  lemma {:induction false} TopStays(n: nat, k: nat)
    requires k > 1 && n % Pow16(k) >= Pow16(k - 1)
    ensures (n / 16) % Pow16(k - 1) >= Pow16(k - 2)
  {
    ShiftStep(n, k);
  }

  /** What is left of the line of a header is read as what is left of its digits. */
  lemma {:induction false} CutLine(d: bytes, k: nat, a: Arrival)
    requires LF !in d && CR !in d && 0 < k < |d + CRLF| && |d| < HEAD_MAX && a.stop == 0
    ensures var line := ReadLine((d + CRLF)[..k], HEAD_MAX, a);
      line.rest == [] && |line.text| == k && RTrim(line.text) == d[..Min(k, |d|)]
  {
    var s := (d + CRLF)[..k];
    if k <= |d| {
      assert s == d[..k];
      TrimPlain(s);
    } else {
      assert s == d + [CR] && d[..|d|] == d;
      RTrimEnds(d);
    }
    ReadCutLine(s, HEAD_MAX, a);
  }

  /** A header that is cut off. */
  lemma {:induction false} CutHead(h0: byte, c: Payload, k: nat, arr: Arrivals)
    requires 0 < |c| && (|c| < BIT_60 || Bit60(|c|)) && Prompt(arr) && k < |HeadBytes(h0, |c|)|
    ensures ReadChunk(HeadBytes(h0, |c|)[..k], arr) == Bad(Raised(EPIPE))
  {
    var d, s := Written(|c|, 16), HeadBytes(h0, |c|)[..k];
    CarriedTop(|c|);
    assert HeadBytes(h0, |c|) == d + CRLF;
    if k > 0 {
      WrittenPlain(|c|);
      CutLine(d, k, arr.At(|s|));
      CutDigits(|c|, Min(k, |d|));
      CutHeadIs(s, d[..Min(k, |d|)], arr);
    }
  }

  lemma {:induction false} CutHeadIs(s: bytes, d: bytes, arr: Arrivals)
    requires 0 < |s| <= HEAD_SIZE && 0 < |d| <= HEAD_MAX && HexSize(d) > 0
    requires var line := ReadLine(s, HEAD_MAX, arr.At(|s|));
      line.rest == [] && |line.text| == |s| && RTrim(line.text) == d
    ensures ReadChunk(s, arr) == Bad(Raised(EPIPE))
  {
  }

  /** A chunk of which something is missing. */
  lemma {:induction false} CutChunk(h0: byte, c: Payload, k: nat, arr: Arrivals)
    requires 0 < |c| && (|c| < BIT_60 || Bit60(|c|)) && Prompt(arr) && k < |WriteChunk(h0, c)|
    ensures ReadChunk(WriteChunk(h0, c)[..k], arr) == Bad(Raised(EPIPE))
  {
    var head := HeadBytes(h0, |c|);
    Assoc(head, c, CRLF);
    Cut(head, c + CRLF, k);
    if k < |head| {
      CutHead(h0, c, k, arr);
    } else {
      ChunkCases(h0, c, (c + CRLF)[..k - |head|], arr);
    }
  }

  lemma {:induction false} Cut<T>(a: seq<T>, b: seq<T>, k: nat)
    requires k <= |a + b|
    ensures (a + b)[..k] == if k <= |a| then a[..k] else a + b[..k - |a|]
    ensures k == |a| ==> (a + b)[..k] == a + b[..0]
  {
  }

  /** A chunk that is all there, whatever follows. */
  lemma {:induction false} WholeChunk(h0: byte, c: Payload, more: bytes, arr: Arrivals)
    requires 0 < |c| && (|c| < BIT_60 || Bit60(|c|)) && Prompt(arr)
    ensures ReadChunk(WriteChunk(h0, c) + more, arr) == Chunk(c, more)
  {
    var t := c + CRLF + more;
    assert WriteChunk(h0, c) + more == HeadBytes(h0, |c|) + t;
    ChunkCases(h0, c, t, arr);
    assert t[..|c|] == c && t[|c|..|c| + 2] == CRLF && t[|c| + 2..] == more;
  }

  /** The end marker: cut off, or without its last byte. */
  lemma {:induction false} CutMarker(marker: bytes, k: nat, arr: Arrivals)
    requires Prompt(arr) && marker == END_MARKER && k < 5
    ensures |marker| == 5
    ensures ReadEntity(marker[..k], arr) == if k < 4 then Broken(Raised(EPIPE)) else Complete([], [])
  {
    var zero: bytes := ['0' as byte];
    if k == 0 {
      NothingLeft(arr);
    } else if k < 3 {
      assert marker[..k] == if k == 1 then zero else zero + [CR];
      CutZero(zero, marker[..k], arr);
    } else {
      var more := if k == 3 then [] else [CR];
      assert marker[..k] == zero + CRLF + more;
      CutAfterZero(marker[..k], more, arr);
    }
  }

  lemma {:induction false} EndsWith(input: bytes, rest: bytes, arr: Arrivals)
    requires ReadChunk(input, arr) == End(rest)
    ensures ReadEntity(input, arr) == ReadEnd(rest, arr)
  {
  }

  lemma {:induction false} CutZero(zero: bytes, s: bytes, arr: Arrivals)
    requires Prompt(arr) && zero == ['0' as byte] && (s == zero || s == zero + [CR])
    ensures ReadEntity(s, arr) == Broken(Raised(EPIPE))
  {
    ReadCutLine(s, HEAD_MAX, arr.At(|s|));
    ZeroTrims(zero, s);
    OneDigit('0' as byte);
    ZeroEnds(zero, s, arr);
    EndsWith(s, [], arr);
    NothingLeft(arr);
  }

  lemma {:induction false} ZeroTrims(zero: bytes, s: bytes)
    requires LF !in zero && CR !in zero && (s == zero || s == zero + [CR])
    ensures RTrim(s) == zero
  {
    RTrimEnds(zero);
    TrimPlain(zero);
  }

  lemma {:induction false} ZeroEnds(zero: bytes, s: bytes, arr: Arrivals)
    requires |zero| == 1 && HexSize(zero) == 0 && RTrim(s) == zero && 0 < |s| <= 2
    requires ReadLine(s, HEAD_MAX, arr.At(|s|)) == Line(s, [])
    ensures ReadChunk(s, arr) == End([])
  {
  }

  lemma {:induction false} CutAfterZero(s: bytes, more: bytes, arr: Arrivals)
    requires Prompt(arr) && s == ['0' as byte] + CRLF + more && (more == [] || more == [CR])
    ensures ReadEntity(s, arr) == if more == [] then Broken(Raised(EPIPE)) else Complete([], [])
  {
    ReadZero(more, arr);
    EndsWith(s, more, arr);
    if more == [] {
      NothingLeft(arr);
    } else {
      ReadReturn(more, arr);
    }
  }

  lemma {:induction false} ReadReturn(s: bytes, arr: Arrivals)
    requires Prompt(arr) && s == [] + [CR]
    ensures ReadEnd(s, arr) == Complete([], [])
  {
    ReadCutLine(s, LINE_SIZE - 1, arr.At(|s|));
    RTrimEnds([]);
    TrimPlain([]);
  }

  /** What the rest of an entity is read as decides, behind its first chunk. */
  lemma {:induction false} AfterFirst(input: bytes, cs: seq<bytes>, more: bytes, arr: Arrivals)
    requires cs != [] && ReadChunk(input, arr) == Chunk(cs[0], more)
    ensures ReadEntity(more, arr) == Broken(Raised(EPIPE)) ==> ReadEntity(input, arr) == Broken(Raised(EPIPE))
    ensures ReadEntity(more, arr) == Complete(cs[1..], []) ==> ReadEntity(input, arr) == Complete(cs, [])
  {
    assert [cs[0]] + cs[1..] == cs;
  }

  /** The entity is its first chunk and the rest. */
  lemma {:induction false} FirstAndRest(h0: byte, cs: seq<Payload>) returns (first: bytes, rest: bytes)
    requires cs != []
    ensures first == WriteChunk(h0, cs[0]) && rest == WriteEntity(HeadBytes(h0, |cs[0]|)[0], cs[1..])
    ensures WriteEntity(h0, cs) == first + rest
  {
    first, rest := WriteChunk(h0, cs[0]), WriteEntity(HeadBytes(h0, |cs[0]|)[0], cs[1..]);
    Assoc(first, WriteChunks(HeadBytes(h0, |cs[0]|)[0], cs[1..]), END_MARKER);
  }

  /**
   Over all entities: cut off anywhere before its last byte the stream is refused, with an EPIPE; only the
   last byte may be missing.
   */
  lemma {:induction false} CutEntity(h0: byte, cs: seq<Payload>, k: nat, arr: Arrivals)
    requires Prompt(arr) && k < |WriteEntity(h0, cs)|
    requires forall c :: c in cs ==> 0 < |c| && (|c| < BIT_60 || Bit60(|c|))
    ensures ReadEntity(WriteEntity(h0, cs)[..k], arr) ==
            if k + 1 < |WriteEntity(h0, cs)| then Broken(Raised(EPIPE)) else Complete(cs, [])
    decreases |cs|
  {
    if cs == [] {
      assert WriteEntity(h0, cs) == END_MARKER;
      CutMarker(END_MARKER, k, arr);
    } else {
      var first, rest := FirstAndRest(h0, cs);
      Cut(first, rest, k);
      if k < |first| {
        CutChunk(h0, cs[0], k, arr);
        CutFirst(first[..k], arr);
      } else {
        WholeChunk(h0, cs[0], rest[..k - |first|], arr);
        CutEntity(HeadBytes(h0, |cs[0]|)[0], cs[1..], k - |first|, arr);
        AfterFirst((first + rest)[..k], cs, rest[..k - |first|], arr);
      }
    }
  }

  lemma {:induction false} CutFirst(input: bytes, arr: Arrivals)
    requires ReadChunk(input, arr) == Bad(Raised(EPIPE))
    ensures ReadEntity(input, arr) == Broken(Raised(EPIPE))
  {
  }
}
