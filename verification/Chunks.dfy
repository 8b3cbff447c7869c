/**
 The chunked transfer coding of `vk_rfc.c`, `vk_rfc.h` and the chunk loops of `vk_http11.c`
 (section 7.1 of RFC 9112). Streams are byte sequences: the transport delivers them in order.
 */
module Chunks {
  import opened Machine
  import opened Lines
  import opened Hex

  /** The text `0`, and the two line ends after it. */
  const END_MARKER: bytes := ['0' as byte, CR, LF, CR, LF]

  /** The buffer of a chunk header: 16 digits, a line end and a terminator. */
  const HEAD_SIZE: nat := 19

  /** A chunk's data fits a `size_t`. */
  type Payload = c: bytes | |c| <= SIZE_MAX

  // ---- lines ----

  function DropLast(s: bytes, c: byte): bytes {
    if s != [] && s[|s| - 1] == c then s[..|s| - 1] else s
  }

  /** `rtrim` takes off one newline, then one return. */
  function RTrim(s: bytes): (t: bytes)
    ensures t <= s
  {
    DropLast(DropLast(s, LF), CR)
  }

  /** It undoes a line end, whatever the text before it. */
  lemma {:induction false} RTrimEnds(s: bytes)
    ensures RTrim(s + CRLF) == s && RTrim(s + [CR]) == s
  {
    assert (s + CRLF)[..|s| + 1] == s + [CR];
    assert (s + [CR])[..|s|] == s;
  }

  // ---- the writer ----

  /** The header that `vk_rfcchunkhead_update_head` leaves; without digits the first byte stays `h0`. */
  function HeadBytes(h0: byte, size: size_t): (s: bytes)
    ensures 3 <= |s| <= HEAD_SIZE - 1
  {
    (if Written(size, 16) == [] then [h0] else Written(size, 16)) + CRLF
  }

  function WriteChunk(h0: byte, c: Payload): bytes {
    HeadBytes(h0, |c|) + c + CRLF
  }

  /** The write loop over one chunk head, which keeps its first byte from chunk to chunk. */
  function WriteChunks(h0: byte, cs: seq<Payload>): bytes
    decreases |cs|
  {
    if cs == [] then [] else WriteChunk(h0, cs[0]) + WriteChunks(HeadBytes(h0, |cs[0]|)[0], cs[1..])
  }

  function WriteEntity(h0: byte, cs: seq<Payload>): bytes {
    WriteChunks(h0, cs) + END_MARKER
  }

  // ---- the reader ----

  datatype HeadRead = Head(size: size_t, rest: bytes) | NoHead(why: Failure)

  /** The bytes that the chunk header macro asks for. */
  const HEAD_MAX: nat := HEAD_SIZE - 2

  /** The chunk header macro. A line that is buffered in time is stored whole, whatever the macro asks for. */
  function ReadHead(input: bytes, arr: Arrivals): HeadRead {
    var line := ReadLine(input, HEAD_MAX, arr.At(|input|));
    if |line.text| > HEAD_SIZE then NoHead(Overrun(|line.text|))
    else if line.text == [] then NoHead(Raised(EPIPE))
    else if RTrim(line.text) == [] || |RTrim(line.text)| > HEAD_MAX then NoHead(Raised(EPROTO))
    else Head(HexSize(RTrim(line.text)), line.rest)
  }

  datatype Piece = Chunk(data: bytes, rest: bytes) | End(rest: bytes) | Bad(why: Failure)

  /** One turn of the read loop: header, data and footer. */
  function ReadChunk(input: bytes, arr: Arrivals): (r: Piece)
    ensures r.Chunk? ==> ReadHead(input, arr).Head? && 0 < |r.data| == ReadHead(input, arr).size && |r.rest| < |input|
    ensures r.End? ==> |r.rest| < |input|
  {
    match ReadHead(input, arr)
    case NoHead(why) => Bad(why)
    case Head(size, rest) =>
      if size == 0 then End(rest)
      else if |rest| < size then Bad(Raised(EPIPE))
      else ReadFooter(rest[..size], rest[size..])
  }

  /** The chunk footer macro, after `data`. */
  function ReadFooter(data: bytes, rest: bytes): Piece {
    if |rest| < 2 then Bad(Raised(EPIPE))
    else if rest[..2] != CRLF then Bad(Raised(EPROTO))
    else Chunk(data, rest[2..])
  }

  /** The outcome of reading an entity: complete or failed. */
  datatype Entity = Complete(chunks: seq<bytes>, rest: bytes) | Broken(why: Failure)

  /** The size of the line buffer of a request. */
  const LINE_SIZE: nat := 1024

  /** The read loop with its end: the trailer section after the last chunk. */
  function ReadEntity(input: bytes, arr: Arrivals): Entity
    decreases |input|
  {
    match ReadChunk(input, arr)
    case Bad(why) => Broken(why)
    case Chunk(data, rest) => Before(data, ReadEntity(rest, arr))
    case End(rest) => ReadEnd(rest, arr)
  }

  function Before(data: bytes, e: Entity): Entity {
    match e
    case Complete(chunks, rest) => Complete([data] + chunks, rest)
    case Broken(_) => e
  }

  const DELIMITERS: set<byte> := {':' as byte, ' ' as byte, '\t' as byte}

  /** `strsep` finds the end of a key before the terminator. */
  predicate HasKey(text: bytes) {
    text != [] && text[0] != 0 && (text[0] in DELIMITERS || HasKey(text[1..]))
  }

  /**
   A line that ends a header section: `parse_header` trims what reading it has trimmed already, and takes
   any line without a delimiter for the end.
   */
  predicate EndsSection(text: bytes) {
    !HasKey(RTrim(RTrim(text)))
  }

  /** The trailer loop: fields up to the line that ends the section. */
  function ReadEnd(input: bytes, arr: Arrivals): (e: Entity)
    ensures e.Complete? ==> e.chunks == [] && |e.rest| < |input|
    decreases |input|
  {
    var line := ReadLine(input, LINE_SIZE - 1, arr.At(|input|));
    if |line.text| > LINE_SIZE then Broken(Overrun(|line.text|))
    else if line.text == [] then Broken(Raised(EPIPE))
    else if EndsSection(line.text) then Complete([], line.rest)
    else ReadEnd(line.rest, arr)
  }

  // ---- the ends of the buffers ----

  /**
   The header is stored through the end of its 19 bytes exactly if its line arrives in time, the read does
   not stop early, and the line is longer.
   */
  lemma {:induction false} HeadOverrunsIff(input: bytes, arr: Arrivals)
    ensures (ReadHead(input, arr).NoHead? && ReadHead(input, arr).why.Overrun?) <==>
            var a := arr.At(|input|);
            !Stops(input, 0, HEAD_MAX, a) && !a.late && HasEnd(input, 0) && LineFrom(input, 0) > HEAD_SIZE
  {
    ReadInsideIff(input, 0, HEAD_MAX, HEAD_SIZE, arr.At(|input|));
  }

  /** The inputs: a header with an extension, or any other line of more than 19 bytes, that is buffered whole. */
  lemma {:induction false} LongHeadOverruns(text: bytes, after: bytes, arr: Arrivals)
    requires LF !in text && |text| >= HEAD_SIZE
    requires var a := arr.At(|text + [LF] + after|); !a.late && a.stop == 0
    ensures ReadEntity(text + [LF] + after, arr) == Broken(Overrun(|text| + 1))
  {
    ReadLineOf(text, after, HEAD_MAX, arr.At(|text + [LF] + after|));
  }

  /** The same law for a line of the trailer section and its 1024 bytes. */
  lemma {:induction false} TrailerOverruns(text: bytes, after: bytes, arr: Arrivals)
    requires LF !in text
    ensures var a := arr.At(|text + [LF] + after|);
      !a.late && a.stop == 0 && |text| >= LINE_SIZE ==> ReadEnd(text + [LF] + after, arr) == Broken(Overrun(|text| + 1))
    ensures var a := arr.At(|text + [LF] + after|);
      a.late || |text| < LINE_SIZE || 0 < a.stop < LINE_SIZE - 1 ==>
        |ReadLine(text + [LF] + after, LINE_SIZE - 1, a).text| <= LINE_SIZE
  {
    ReadLineOf(text, after, LINE_SIZE - 1, arr.At(|text + [LF] + after|));
  }

  // ---- round trips ----

  /** The header of `size` is read to its end. Of a late one with 16 digits only 17 bytes are read. */
  predicate HeadWhole(size: size_t, a: Arrival) {
    Whole(a, Min(|Written(size, 16)| + 2, HEAD_MAX)) && (a.late ==> |Written(size, 16)| < 16)
  }

  /**
   A chunk that survives: not empty, of a size that its header carries, and with the header read to its
   end. Below 2^60 that is any header whose read does not stop early.
   */
  predicate Carried(c: Payload, a: Arrival) {
    0 < |c| && (|c| < BIT_60 || Bit60(|c|)) && HeadWhole(|c|, a)
  }

  lemma {:induction false} WrittenPlain(size: size_t)
    ensures LF !in Written(size, 16) && CR !in Written(size, 16) && 0 !in Written(size, 16)
  {
    DigitsPlain(size, Flsh(size));
  }

  lemma {:induction false} Regroup(a: bytes, b: bytes, c: bytes, d: bytes)
    ensures a + b + c + d == a + (b + c + d)
  {
  }

  lemma {:induction false} SplitLineEnd(s: bytes, after: bytes)
    ensures s + CRLF == s + [CR] + [LF] && s + CRLF + after == s + [CR] + [LF] + after
  {
    assert CRLF == [CR] + [LF];
  }

  lemma {:induction false} TrimPlain(s: bytes)
    requires LF !in s && CR !in s
    ensures RTrim(s) == s
  {
    assert s != [] ==> s[|s| - 1] in s;
  }

  /** The header of `size` arrives whole. */
  lemma {:induction false} ReadHeadWhole(h0: byte, size: size_t, after: bytes, arr: Arrivals)
    requires Written(size, 16) != [] && HeadWhole(size, arr.At(|HeadBytes(h0, size) + after|))
    ensures ReadHead(HeadBytes(h0, size) + after, arr) == Head(HexSize(Written(size, 16)), after)
  {
    var d := Written(size, 16);
    WrittenPlain(size);
    SplitLineEnd(d, after);
    ReadLineOf(d + [CR], after, HEAD_MAX, arr.At(|HeadBytes(h0, size) + after|));
    RTrimEnds(d);
  }

  /** Of a header of 16 digits that arrives late the newline is left behind, or if the read stops at the return. */
  lemma {:induction false} ReadHeadLong(h0: byte, size: size_t, after: bytes, arr: Arrivals)
    requires Written(size, 16) != []
    requires var a := arr.At(|HeadBytes(h0, size) + after|);
      if Whole(a, Min(|Written(size, 16)| + 2, HEAD_MAX)) then a.late && |Written(size, 16)| == 16
      else a.stop == |Written(size, 16)| + 1
    ensures ReadHead(HeadBytes(h0, size) + after, arr) == Head(HexSize(Written(size, 16)), [LF] + after)
  {
    var d := Written(size, 16);
    WrittenPlain(size);
    SplitLineEnd(d, after);
    ReadLineOf(d + [CR], after, HEAD_MAX, arr.At(|HeadBytes(h0, size) + after|));
    assert (d + [CR])[..|d| + 1] == d + [CR] && (d + [CR])[|d| + 1..] == [];
    Assoc([], [LF], after);
    ReturnedHead(HeadBytes(h0, size) + after, d, [LF] + after, arr);
  }

  lemma {:induction false} ReturnedHead(input: bytes, d: bytes, rest: bytes, arr: Arrivals)
    requires ReadLine(input, HEAD_MAX, arr.At(|input|)) == Line(d + [CR], rest) && 0 < |d| < HEAD_MAX
    ensures ReadHead(input, arr) == Head(HexSize(d), rest)
  {
    RTrimEnds(d);
  }

  /** A read that stops among the digits. */
  lemma {:induction false} ReadHeadStopped(h0: byte, size: size_t, after: bytes, arr: Arrivals)
    requires 0 < arr.At(|HeadBytes(h0, size) + after|).stop <= |Written(size, 16)|
    ensures var d, n := Written(size, 16), arr.At(|HeadBytes(h0, size) + after|).stop;
      ReadHead(HeadBytes(h0, size) + after, arr) == Head(HexSize(d[..n]), d[n..] + CRLF + after)
  {
    var d, n := Written(size, 16), arr.At(|HeadBytes(h0, size) + after|).stop;
    WrittenPlain(size);
    SplitLineEnd(d, after);
    ReadLineOf(d + [CR], after, HEAD_MAX, arr.At(|HeadBytes(h0, size) + after|));
    assert (d + [CR])[..n] == d[..n] && (d + [CR])[n..] == d[n..] + [CR];
    SplitLineEnd(d[n..], after);
    TrimPlain(d[..n]);
  }

  lemma {:induction false} ReadHeadCarried(h0: byte, size: size_t, after: bytes, arr: Arrivals)
    requires 0 < size && (size < BIT_60 || Bit60(size)) && HeadWhole(size, arr.At(|HeadBytes(h0, size) + after|))
    ensures ReadHead(HeadBytes(h0, size) + after, arr) == Head(size, after)
  {
    CarriedDigits(size);
    ReadHeadWhole(h0, size, after, arr);
  }

  lemma {:induction false} CarriedDigits(size: size_t)
    requires 0 < size && (size < BIT_60 || Bit60(size))
    ensures Written(size, 16) != [] && HexSize(Written(size, 16)) == size
    ensures |Written(size, 16)| < 16 <==> size < BIT_60
  {
    FlshCounts(size);
    HexRoundTripIff(size);
    if size < BIT_60 {
      assert size / BIT_60 == 0;
    } else {
      Bit60Is(size);
    }
  }

  lemma {:induction false} OneDigit(h: byte)
    ensures HexSize([h]) == if h == 0 then 0 else HexVal(h)
  {
    if h != 0 {
      assert [h][1..] == [];
      assert HexSize([h]) == HexFrom(Push(0, HexVal(h)), [], 1) == HexVal(h);
    }
  }

  /** Without digits, what the buffer held before is read as at most one digit. */
  lemma {:induction false} ReadHeadEmpty(h0: byte, size: size_t, after: bytes, arr: Arrivals)
    requires Written(size, 16) == []
    ensures var r := ReadHead(HeadBytes(h0, size) + after, arr); r.Head? ==> r.size < 16
  {
    if h0 == LF {
      ReadNewlineHead(CRLF + after, arr);
      assert HeadBytes(h0, size) + after == [LF] + (CRLF + after);
    } else {
      ReadOneByteHead(h0, after, arr);
    }
  }

  lemma {:induction false} ReadNewlineHead(after: bytes, arr: Arrivals)
    ensures ReadHead([LF] + after, arr) == NoHead(Raised(EPROTO))
  {
    ReadLineOf([], after, HEAD_MAX, arr.At(|[LF] + after|));
    assert [] + [LF] == [LF] && RTrim([LF]) == [];
  }

  lemma {:induction false} ReadOneByteHead(h0: byte, after: bytes, arr: Arrivals)
    requires h0 != LF
    ensures var r := ReadHead([h0] + CRLF + after, arr); r.Head? ==> r.size < 16
  {
    var text, input := [h0, CR], [h0] + CRLF + after;
    var line := ReadLine(input, HEAD_MAX, arr.At(|input|));
    assert input == text + [LF] + after;
    ReadLineOf(text, after, HEAD_MAX, arr.At(|input|));
    assert text[..1] == [h0] && text[..2] == text == [h0] + [CR] && text + [LF] == [h0] + CRLF;
    assert line.text == [h0] || line.text == text || line.text == text + [LF];
    RTrimEnds([h0]);
    OneDigitTrimmed(h0);
    OneDigit(h0);
  }

  lemma {:induction false} OneDigitTrimmed(h: byte)
    requires h != LF
    ensures RTrim([h]) == if h == CR then [] else [h]
  {
  }

  /** Data and footer where the header says they are. */
  lemma {:induction false} ReadAligned(input: bytes, c: Payload, after: bytes, arr: Arrivals)
    requires c != [] && ReadHead(input, arr) == Head(|c|, c + CRLF + after)
    ensures ReadChunk(input, arr) == Chunk(c, after)
  {
    Halves(c, CRLF, after);
    Halves([], CRLF, after);
  }

  lemma {:induction false} Halves(a: bytes, b: bytes, c: bytes)
    ensures (a + b + c)[..|a|] == a && (a + b + c)[|a|..] == b + c
    ensures (b + c)[..|b|] == b && (b + c)[|b|..] == c
  {
  }

  /** One byte too many in front shifts the data, and the footer is not where it is looked for. */
  lemma {:induction false} ReadShifted(input: bytes, c: Payload, after: bytes, arr: Arrivals)
    requires c != [] && ReadHead(input, arr) == Head(|c|, [LF] + (c + CRLF + after))
    ensures ReadChunk(input, arr) == Bad(Raised(EPROTO))
  {
    var rest := [LF] + (c + CRLF + after);
    assert rest[|c|..][1] == CR;
  }

  /** With two bytes too many the footer may seem right, but the true one is then left behind. */
  lemma {:induction false} ReadTwiceShifted(input: bytes, c: Payload, after: bytes, arr: Arrivals)
    requires c != [] && ReadHead(input, arr) == Head(|c|, CRLF + (c + CRLF + after))
    ensures var r := ReadChunk(input, arr); r.Chunk? ==> r.rest == CRLF + after
  {
    var rest := CRLF + (c + CRLF + after);
    assert rest == (CRLF + c) + (CRLF + after);
    assert rest[|c|..][2..] == rest[|c| + 2..] == CRLF + after;
  }

  lemma {:induction false} ReadWrittenChunk(h0: byte, c: Payload, after: bytes, arr: Arrivals)
    requires Carried(c, arr.At(|WriteChunk(h0, c) + after|))
    ensures ReadChunk(WriteChunk(h0, c) + after, arr) == Chunk(c, after)
  {
    var tail := c + CRLF + after;
    Regroup(HeadBytes(h0, |c|), c, CRLF, after);
    ReadHeadCarried(h0, |c|, tail, arr);
    ReadAligned(WriteChunk(h0, c) + after, c, after, arr);
  }

  /** The size is read from all its digits, but the data is not where they end. */
  lemma {:induction false} ReadMisplaced(h0: byte, c: Payload, after: bytes, lag: bytes, arr: Arrivals)
    requires Written(|c|, 16) != [] && (lag == [LF] || lag == CRLF)
    requires ReadHead(WriteChunk(h0, c) + after, arr) == Head(HexSize(Written(|c|, 16)), lag + (c + CRLF + after))
    ensures var r := ReadChunk(WriteChunk(h0, c) + after, arr); r.Chunk? && r.data == c ==> r.rest == CRLF + after
  {
    if HexSize(Written(|c|, 16)) == |c| > 0 {
      if lag == CRLF {
        ReadTwiceShifted(WriteChunk(h0, c) + after, c, after, arr);
      } else {
        ReadShifted(WriteChunk(h0, c) + after, c, after, arr);
      }
    }
  }

  /** Without digits the chunk is not read. */
  lemma {:induction false} ReadDigitless(h0: byte, c: Payload, after: bytes, arr: Arrivals)
    requires Written(|c|, 16) == []
    ensures var r := ReadChunk(WriteChunk(h0, c) + after, arr); r.Chunk? ==> r.data != c
  {
    Regroup(HeadBytes(h0, |c|), c, CRLF, after);
    ReadHeadEmpty(h0, |c|, c + CRLF + after, arr);
    WrittenCounts(|c|);
  }

  /** A chunk that does not survive is not read back, or only with the line end after it left in the stream. */
  lemma {:induction false} ReadOtherChunk(h0: byte, c: Payload, after: bytes, arr: Arrivals)
    requires !Carried(c, arr.At(|WriteChunk(h0, c) + after|))
    ensures var r := ReadChunk(WriteChunk(h0, c) + after, arr); r.Chunk? && r.data == c ==> r.rest == CRLF + after
  {
    var d, tail, a := Written(|c|, 16), c + CRLF + after, arr.At(|WriteChunk(h0, c) + after|);
    Regroup(HeadBytes(h0, |c|), c, CRLF, after);
    if d == [] {
      ReadDigitless(h0, c, after, arr);
    } else if HeadWhole(|c|, a) {
      ReadHeadWhole(h0, |c|, tail, arr);
      HexRoundTripIff(|c|);
      WrittenCounts(|c|);
      Bit61Below(|c|);
    } else if 0 < a.stop < |d| {
      ReadHeadStopped(h0, |c|, tail, arr);
      PrefixReadsLess(|c|, a.stop);
    } else if a.stop == |d| && |d| < HEAD_MAX {
      ReadHeadStopped(h0, |c|, tail, arr);
      assert d[..|d|] == d && d[|d|..] + CRLF == CRLF;
      ReadMisplaced(h0, c, after, CRLF, arr);
    } else {
      ReadHeadLong(h0, |c|, tail, arr);
      ReadMisplaced(h0, c, after, [LF], arr);
    }
  }

  lemma {:induction false} Bit61Below(size: size_t)
    ensures size < BIT_61 ==> size < BIT_60 || Bit60(size)
  {
    if BIT_60 <= size < BIT_61 {
      assert size / BIT_60 == 1;
    }
  }

  // ---- the end of an entity ----

  /** The end marker's header, however it arrives: what it leaves of its line end. */
  lemma {:induction false} ReadZero(after: bytes, arr: Arrivals)
    ensures var a := arr.At(|['0' as byte] + CRLF + after|);
      ReadChunk(['0' as byte] + CRLF + after, arr) ==
      End(if a.stop == 1 then CRLF + after else if a.stop == 2 then [LF] + after else after)
  {
    var zero: bytes := ['0' as byte];
    SplitLineEnd(zero, after);
    ReadLineOf(zero + [CR], after, HEAD_MAX, arr.At(|zero + CRLF + after|));
    RTrimEnds(zero);
    TrimPlain(zero);
    OneDigit('0' as byte);
    assert HexSize(zero) == 0;
    assert (zero + [CR])[..1] == zero && (zero + [CR])[1..] == [CR];
    assert (zero + [CR])[..2] == zero + [CR] && (zero + [CR])[2..] == [];
    assert [CR] + [LF] == CRLF && [] + [LF] == [LF];
  }

  lemma {:induction false} KeyBeforeReturn(text: bytes)
    ensures HasKey(text + [CR]) <==> HasKey(text)
    decreases |text|
  {
    if text == [] {
      assert !HasKey(([] + [CR])[1..]);
    } else {
      KeyBeforeReturn(text[1..]);
      assert (text + [CR])[1..] == text[1..] + [CR];
    }
  }

  lemma {:induction false} KeyTrimmed(text: bytes)
    requires LF !in text
    ensures HasKey(RTrim(text)) <==> HasKey(text)
  {
    assert DropLast(text, LF) == text;
    if text != [] && text[|text| - 1] == CR {
      Back(text);
      KeyBeforeReturn(text[..|text| - 1]);
    }
  }

  /** One line of the trailer section: it ends the section exactly if no key can be split off it. */
  lemma {:induction false} ReadTrailerLine(text: bytes, after: bytes, arr: Arrivals)
    requires LF !in text && |text| + 1 < LINE_SIZE - 1 && Whole(arr.At(|text + CRLF + after|), |text| + 2)
    ensures ReadEnd(text + CRLF + after, arr) == if HasKey(text) then ReadEnd(after, arr) else Complete([], after)
  {
    SplitLineEnd(text, after);
    ReadLineOf(text + [CR], after, LINE_SIZE - 1, arr.At(|text + CRLF + after|));
    RTrimEnds(text);
    KeyTrimmed(text);
  }

  function WriteLines(lines: seq<bytes>): bytes {
    if lines == [] then [] else lines[0] + CRLF + WriteLines(lines[1..])
  }

  /** Trailer fields are taken from the stream line by line, and the empty line after them with them. */
  lemma {:induction false} TrailersSkipped(fields: seq<bytes>, after: bytes, arr: Arrivals)
    requires forall i :: 0 <= i < |fields| ==> LF !in fields[i] && |fields[i]| + 1 < LINE_SIZE - 1 && HasKey(fields[i])
    requires Steady(arr)
    ensures ReadEnd(WriteLines(fields) + CRLF + after, arr) == Complete([], after)
    decreases |fields|
  {
    if fields == [] {
      ReadTrailerLine([], after, arr);
      assert [] + CRLF + after == CRLF + after;
      assert WriteLines(fields) + CRLF + after == CRLF + after;
    } else {
      var rest := WriteLines(fields[1..]) + CRLF + after;
      TrailersSkipped(fields[1..], after, arr);
      ReadTrailerLine(fields[0], rest, arr);
      Regroup(fields[0] + CRLF, WriteLines(fields[1..]), CRLF, after);
    }
  }

  /** The empty line, however it arrives: it ends the section, and may leave its newline behind. */
  lemma {:induction false} ReadEmptyLine(after: bytes, arr: Arrivals)
    ensures ReadEnd(CRLF + after, arr) == Complete([], if arr.At(|CRLF + after|).stop == 1 then [LF] + after else after)
  {
    ReadLineOf([CR], after, LINE_SIZE - 1, arr.At(|CRLF + after|));
    assert CRLF == [CR] + [LF] && [CR][..1] == [CR] && [CR][1..] == [] && [] + [LF] == [LF];
    assert RTrim(CRLF) == [] && RTrim([CR]) == [] && RTrim([]) == [];
  }

  lemma {:induction false} ReadNewline(after: bytes, arr: Arrivals)
    ensures ReadEnd([LF] + after, arr) == Complete([], after)
  {
    ReadLineOf([], after, LINE_SIZE - 1, arr.At(|[LF] + after|));
    assert [] + [LF] == [LF] && RTrim([LF]) == [] && RTrim([]) == [];
  }

  /** The reads of the end marker and of the empty line after it come to their ends; `n` bytes follow them. */
  predicate EndWhole(n: nat, arr: Arrivals) {
    Whole(arr.At(n + 5), 3) && Whole(arr.At(n + 2), 2)
  }

  lemma {:induction false} ReadEndMarker(after: bytes, arr: Arrivals)
    ensures ReadEntity(END_MARKER + after, arr) == Complete([], after) <==> EndWhole(|after|, arr)
  {
    assert END_MARKER + after == ['0' as byte] + CRLF + (CRLF + after);
    ReadZero(CRLF + after, arr);
    ReadEmptyLine(after, arr);
    ReadEmptyLine(CRLF + after, arr);
    ReadNewline(CRLF + after, arr);
  }

  /** Reading the first chunk is necessary for the whole. */
  lemma {:induction false} ReadFirst(input: bytes, cs: seq<bytes>, rest: bytes, after: bytes, arr: Arrivals)
    requires cs != []
    ensures ReadChunk(input, arr) == Chunk(cs[0], rest) ==>
      (ReadEntity(input, arr) == Complete(cs, after) <==> ReadEntity(rest, arr) == Complete(cs[1..], after))
    ensures (ReadChunk(input, arr).Chunk? ==> ReadChunk(input, arr).data != cs[0]) ==>
      ReadEntity(input, arr) != Complete(cs, after)
  {
    match ReadChunk(input, arr)
    case Chunk(data, more) =>
      var e := ReadEntity(more, arr);
      if e.Complete? {
        ConsIs(data, e.chunks, cs);
      }
    case End(_) =>
    case Bad(_) =>
  }

  lemma {:induction false} ConsIs<T>(x: T, xs: seq<T>, ys: seq<T>)
    requires ys != []
    ensures [x] + xs == ys <==> x == ys[0] && xs == ys[1..]
  {
    assert ([x] + xs)[0] == x && ([x] + xs)[1..] == xs;
    assert ys == [ys[0]] + ys[1..];
  }

  /** No chunk header is an empty line. */
  lemma {:induction false} ReadLineEndFirst(rest: bytes, arr: Arrivals)
    ensures ReadEntity(CRLF + rest, arr) == Broken(Raised(EPROTO))
  {
    ReadLineOf([CR], rest, HEAD_MAX, arr.At(|CRLF + rest|));
    assert CRLF == [CR] + [LF] && [CR][..1] == [CR];
    assert RTrim(CRLF) == [] && RTrim([CR]) == [];
  }

  /** Every chunk survives the arrival of its header, and the end is read to its end; `n` bytes follow. */
  predicate Carries(h0: byte, cs: seq<Payload>, n: nat, arr: Arrivals)
    decreases |cs|
  {
    if cs == [] then EndWhole(n, arr)
    else Carried(cs[0], arr.At(|WriteEntity(h0, cs)| + n)) && Carries(HeadBytes(h0, |cs[0]|)[0], cs[1..], n, arr)
  }

  /**
   However the stream arrives, the reader recovers exactly the chunks that were written, and leaves
   exactly the bytes after the final empty line, if and only if every chunk survives.
   */
  lemma {:induction false} EntityRoundTripIff(h0: byte, cs: seq<Payload>, after: bytes, arr: Arrivals)
    ensures ReadEntity(WriteEntity(h0, cs) + after, arr) == Complete(cs, after) <==> Carries(h0, cs, |after|, arr)
  {
    StreamRoundTrip(WriteEntity(h0, cs) + after, h0, cs, after, arr);
  }

  lemma {:induction false} StreamRoundTrip(input: bytes, h0: byte, cs: seq<Payload>, after: bytes, arr: Arrivals)
    requires input == WriteEntity(h0, cs) + after
    ensures ReadEntity(input, arr) == Complete(cs, after) <==> Carries(h0, cs, |after|, arr)
    decreases |cs|
  {
    if cs == [] {
      assert input == END_MARKER + after;
      ReadEndMarker(after, arr);
    } else {
      var rest := StreamFirst(input, h0, cs, after, arr);
      StreamRoundTrip(rest, HeadBytes(h0, |cs[0]|)[0], cs[1..], after, arr);
    }
  }

  lemma {:induction false} StreamFirst(input: bytes, h0: byte, cs: seq<Payload>, after: bytes, arr: Arrivals)
    returns (rest: bytes)
    requires cs != [] && input == WriteEntity(h0, cs) + after
    ensures rest == WriteEntity(HeadBytes(h0, |cs[0]|)[0], cs[1..]) + after
    ensures ReadEntity(input, arr) == Complete(cs, after) <==>
            && Carried(cs[0], arr.At(|WriteEntity(h0, cs)| + |after|))
            && ReadEntity(rest, arr) == Complete(cs[1..], after)
  {
    rest := WriteFirst(input, h0, cs, after);
    FirstDecides(h0, cs[0], input, rest, cs, after, arr);
  }

  lemma {:induction false} WriteFirst(input: bytes, h0: byte, cs: seq<Payload>, after: bytes) returns (rest: bytes)
    requires cs != [] && input == WriteEntity(h0, cs) + after
    ensures input == WriteChunk(h0, cs[0]) + rest && |input| == |WriteEntity(h0, cs)| + |after|
    ensures rest == WriteEntity(HeadBytes(h0, |cs[0]|)[0], cs[1..]) + after
  {
    rest := WriteEntity(HeadBytes(h0, |cs[0]|)[0], cs[1..]) + after;
    Regroup(WriteChunk(h0, cs[0]), WriteChunks(HeadBytes(h0, |cs[0]|)[0], cs[1..]), END_MARKER, after);
  }

  /** What comes before `rest` is recovered exactly if its chunk survives and `rest` is recovered. */
  lemma {:induction false} FirstDecides(
    h0: byte, c: Payload, input: bytes, rest: bytes, cs: seq<bytes>, after: bytes, arr: Arrivals)
    requires input == WriteChunk(h0, c) + rest && cs != [] && cs[0] == c
    ensures ReadEntity(input, arr) == Complete(cs, after) <==>
            Carried(c, arr.At(|input|)) && ReadEntity(rest, arr) == Complete(cs[1..], after)
  {
    ReadFirst(input, cs, rest, after, arr);
    if Carried(c, arr.At(|input|)) {
      ReadWrittenChunk(h0, c, rest, arr);
    } else {
      ReadOtherChunk(h0, c, rest, arr);
      ReadFirst(input, cs, CRLF + rest, after, arr);
      ReadLineEndFirst(rest, arr);
    }
  }

  /**
   The two extremes, when no read stops early. If every line is buffered in time the chunks that survive
   are those whose size the header carries; if every line is late, or for every arrival, those below 2^60.
   */
  lemma {:induction false} CarriesBySize(h0: byte, cs: seq<Payload>, n: nat, arr: Arrivals)
    requires Steady(arr)
    ensures (forall k :: !arr.At(k).late) ==>
      (Carries(h0, cs, n, arr) <==> forall c :: c in cs ==> 0 < |c| && (|c| < BIT_60 || Bit60(|c|)))
    ensures (forall k :: arr.At(k).late) ==> (Carries(h0, cs, n, arr) <==> forall c :: c in cs ==> 0 < |c| < BIT_60)
    ensures (forall c :: c in cs ==> 0 < |c| < BIT_60) ==> Carries(h0, cs, n, arr)
    decreases |cs|
  {
    if cs != [] {
      var c, rest := cs[0], cs[1..];
      CarriesBySize(HeadBytes(h0, |c|)[0], rest, n, arr);
      assert c in cs && forall d :: d in cs <==> d == c || d in rest;
      if 0 < |c| && (|c| < BIT_60 || Bit60(|c|)) {
        CarriedDigits(|c|);
      }
    }
  }

  // ---- the buffers ----

  /** `rtrim` on the first `size` bytes of a buffer: what is trimmed is overwritten by terminators. */
  method RTrimInPlace(line: array<byte>, size: nat) returns (r: nat)
    requires size <= line.Length
    modifies line
    ensures r <= size && line[..r] == RTrim(old(line[..size]))
    ensures forall k :: size <= k < line.Length ==> line[k] == old(line[k])
  {
    ghost var text := line[..size];
    r := size;
    if r < 1 {
      return;
    }
    if line[r - 1] == LF {
      line[r - 1] := 0;
      r := r - 1;
    }
    assert line[..r] == DropLast(text, LF);
    if r < 1 {
      return;
    }
    if line[r - 1] == CR {
      line[r - 1] := 0;
      r := r - 1;
    }
  }

  /** `struct vk_rfcchunkhead` */
  class ChunkHead {
    var size: size_t
    const head: array<byte>
    const tail: array<byte>

    ghost predicate Valid() {
      head.Length == HEAD_SIZE && tail.Length == 3 && head != tail
    }

    constructor ()
      ensures Valid() && fresh(head) && fresh(tail) && size == 0 && head[0] == 0
    {
      size := 0;
      head := new byte[HEAD_SIZE](_ => 0);
      tail := new byte[3](_ => 0);
    }

    /** `vk_rfcchunkhead_update_head` */
    method UpdateHead() returns (rc: nat)
      requires Valid()
      modifies head
      ensures rc < HEAD_SIZE && head[..rc] == HeadBytes(old(head[0]), size) && head[rc] == 0
    {
      ghost var h0 := head[0];
      ghost var d := Written(size, 16);
      assert Written(size, HEAD_SIZE - 1) == d;
      rc := SizeHex(head, HEAD_SIZE - 1, size);
      assert head[..rc] == if d == [] then [h0] else d;
      head[rc] := CR;
      rc := rc + 1;
      head[rc] := LF;
      rc := rc + 1;
      head[rc] := 0;
    }

    /**
     The chunk header macro of the reader; `rest` is what stays in the stream. Where the line leaves the
     buffer nothing further is known of the memory.
     */
    method TakeHead(input: bytes, arr: Arrivals) returns (failure: Option<Failure>, rest: bytes)
      requires Valid()
      modifies head, `size
      ensures ReadHead(input, arr) == if failure.Some? then NoHead(failure.value) else Head(size, rest)
    {
      var line := ReadLine(input, HEAD_MAX, arr.At(|input|));
      rest := line.rest;
      var rc := |line.text|;
      if rc > head.Length {
        return Some(Overrun(rc)), rest;
      }
      forall k | 0 <= k < rc {
        head[k] := line.text[k];
      }
      if rc == 0 {
        return Some(Raised(EPIPE)), rest;
      }
      assert head[..rc] == line.text;
      rc := RTrimInPlace(head, rc);
      if rc == 0 || rc > HEAD_MAX {
        return Some(Raised(EPROTO)), rest;
      }
      head[rc] := 0;
      size := ReadHex(head, RTrim(line.text));
      failure := None;
    }

    /** The chunk footer macro of the reader. */
    method TakeFooter(input: bytes) returns (failure: Option<Failure>, rest: bytes)
      requires Valid() && size > 0
      modifies tail
      ensures ReadFooter([], input) == if failure.Some? then Bad(failure.value) else Chunk([], rest)
    {
      if |input| < 2 {
        return Some(Raised(EPIPE)), [];
      }
      tail[0], tail[1] := input[0], input[1];
      tail[2] := 0;
      if tail[0] != CR || tail[1] != LF {
        return Some(Raised(EPROTO)), [];
      }
      assert input[..2] == CRLF;
      return None, input[2..];
    }

    /** The write loop of the chunked response, over the sizes that `vk_pollread` reports, and its end. */
    method WriteAll(chunks: seq<Payload>) returns (output: bytes)
      requires Valid()
      modifies head, `size
      ensures output == WriteEntity(old(head[0]), chunks)
    {
      ghost var h0 := head[0];
      var rest := chunks;
      output := [];
      while rest != []
        invariant output + WriteChunks(head[0], rest) == WriteChunks(h0, chunks)
        decreases |rest|
      {
        ghost var h, before := head[0], output;
        size := |rest[0]|;
        var rc := UpdateHead();
        assert head[0] == head[..rc][0];
        output := output + head[..rc];
        output := output + rest[0];
        output := output + CRLF;
        RegroupTurn(before, HeadBytes(h, size), rest[0], WriteChunks(head[0], rest[1..]));
        rest := rest[1..];
      }
      output := output + END_MARKER;
    }

    /** One turn of the read loop. */
    method ReadOne(input: bytes, arr: Arrivals) returns (piece: Piece)
      requires Valid()
      modifies head, tail, `size
      ensures piece == ReadChunk(input, arr)
    {
      var failure, rest := TakeHead(input, arr);
      if failure.Some? {
        return Bad(failure.value);
      }
      if size == 0 {
        return End(rest);
      }
      if |rest| < size {
        return Bad(Raised(EPIPE));
      }
      var data := rest[..size];
      failure, rest := TakeFooter(rest[size..]);
      piece := if failure.Some? then Bad(failure.value) else Chunk(data, rest);
    }

    /** The read loop of the chunked request, then the loop over its trailer fields. */
    method ReadAll(input: bytes, arr: Arrivals) returns (e: Entity)
      requires Valid()
      modifies head, tail, `size
      ensures e == ReadEntity(input, arr)
    {
      var chunks: seq<bytes>, rest := [], input;
      while true
        invariant Prepend(chunks, ReadEntity(rest, arr)) == ReadEntity(input, arr)
        decreases |rest|
      {
        var piece := ReadOne(rest, arr);
        match piece {
          case Bad(why) =>
            return Broken(why);
          case End(more) =>
            rest := more;
            break;
          case Chunk(data, more) =>
            PrependOne(chunks, data, ReadEntity(more, arr));
            chunks := chunks + [data];
            rest := more;
        }
      }
      assert Prepend(chunks, ReadEnd(rest, arr)) == ReadEntity(input, arr);
      while true
        invariant Prepend(chunks, ReadEnd(rest, arr)) == ReadEntity(input, arr)
        decreases |rest|
      {
        var line := ReadLine(rest, LINE_SIZE - 1, arr.At(|rest|));
        if |line.text| > LINE_SIZE {
          return Broken(Overrun(|line.text|));
        }
        if line.text == [] {
          return Broken(Raised(EPIPE));
        }
        rest := line.rest;
        if EndsSection(line.text) {
          assert chunks + [] == chunks;
          return Complete(chunks, rest);
        }
      }
    }
  }

  lemma {:induction false} RegroupTurn(out: bytes, h: bytes, c: bytes, tail: bytes)
    ensures out + (h + c + CRLF + tail) == out + h + c + CRLF + tail
  {
  }

  /** An entity read after the chunks `cs`. */
  function Prepend(cs: seq<bytes>, e: Entity): Entity {
    match e
    case Complete(chunks, rest) => Complete(cs + chunks, rest)
    case Broken(_) => e
  }

  lemma {:induction false} PrependOne(cs: seq<bytes>, data: bytes, e: Entity)
    ensures Prepend(cs, Before(data, e)) == Prepend(cs + [data], e)
  {
    match e
    case Complete(chunks, _) => assert cs + ([data] + chunks) == cs + [data] + chunks;
    case Broken(_) =>
  }
}
