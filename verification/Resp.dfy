/**
 The codec of `vk_redis.c`: queries as arrays of bulk strings (sections "Arrays" and "Bulk strings" of
 the RESP protocol specification), written by the client loop and parsed by the server loop.
 */
module Resp {
  import opened Machine
  import opened Lines

  const REDIS_MAX_ARGS: nat := 8
  const REDIS_MAX_BULK: nat := 64

  /** The line buffer of the parser, and the bytes of it that a read asks for. */
  const LINE_SIZE: nat := 128
  const LINE_MAX: nat := LINE_SIZE - 1

  /** `strlen`, from `i` on, in a buffer that ends where a terminator would be. */
  function StrLen(s: bytes, i: nat): (n: nat)
    requires i <= |s|
    ensures i <= n <= |s|
    ensures forall k :: i <= k < n ==> s[k] != 0
    ensures n < |s| ==> s[n] == 0
    decreases |s| - i
  {
    if i == |s| || s[i] == 0 then i else StrLen(s, i + 1)
  }

  /** The string in a NUL-terminated buffer. */
  function CStr(s: bytes): (t: bytes)
    ensures |t| <= |s|
  {
    s[..StrLen(s, 0)]
  }

  lemma {:induction false} CStrPlain(s: bytes)
    ensures 0 !in CStr(s)
    ensures 0 !in s ==> CStr(s) == s
  {
    var n := StrLen(s, 0);
    assert n < |s| ==> s[n] in s;
  }

  lemma {:induction false} CStrTerminated(s: bytes, tail: bytes)
    ensures CStr(s + [0] + tail) == CStr(s)
  {
    var u := s + [0] + tail;
    assert forall k :: 0 <= k < |s| ==> u[k] == s[k];
    assert u[|s|] == 0;
  }

  // ---- numbers ----

  predicate IsDigit(c: byte) {
    48 <= c < 58
  }

  /** White space, as `atoi` skips it. */
  predicate IsSpace(c: byte) {
    c == 32 || 9 <= c <= 13
  }

  /** The digits from `i` to `end`, and those that the memory holds behind it. */
  function ParseDigits(acc: nat, s: bytes, i: nat, end: nat, stale: bytes): nat
    requires i <= end <= |s|
    decreases |stale|, end - i
  {
    if i == end then if stale == [] then acc else ParseDigits(acc, stale, 0, |stale|, [])
    else if !IsDigit(s[i]) then acc
    else ParseDigits(10 * acc + (s[i] - 48), s, i + 1, end, stale)
  }

  /**
   The number in the text from `i` to `end`, as `strtol` reads it before it looks at the range. Where the
   text is not terminated it goes on in what the memory holds behind it.
   */
  function Number(s: bytes, i: nat, end: nat, stale: bytes): int
    requires i <= end <= |s|
    decreases |stale|, end - i
  {
    if i == end then if stale == [] then 0 else Number(stale, 0, |stale|, [])
    else if IsSpace(s[i]) then Number(s, i + 1, end, stale)
    else if s[i] == '-' as byte then 0 - ParseDigits(0, s, i + 1, end, stale)
    else if s[i] == '+' as byte then ParseDigits(0, s, i + 1, end, stale)
    else ParseDigits(0, s, i, end, stale)
  }

  /** A number that saturates at the ends of a `long` and keeps the low 32 bits. */
  function ToInt(n: int): (r: int)
    ensures -0x8000_0000 <= r < 0x8000_0000
    ensures -0x8000_0000 <= n < 0x8000_0000 ==> r == n
  {
    var long := if n > SSIZE_MAX then SSIZE_MAX else if n < -SSIZE_MAX - 1 then -SSIZE_MAX - 1 else n;
    AsInt(long % TWO_TO_THE_64)
  }

  /** `atoi` on the text from `i` to `end`. */
  function Atoi(s: bytes, i: nat, end: nat, stale: bytes): (r: int)
    requires i <= end <= |s|
    ensures -0x8000_0000 <= r < 0x8000_0000
    ensures -0x8000_0000 <= Number(s, i, end, stale) < 0x8000_0000 ==> r == Number(s, i, end, stale)
  {
    ToInt(Number(s, i, end, stale))
  }

  /** `%d` for a number that is not negative. */
  function Dec(n: nat): (s: bytes)
    ensures s != [] && forall c :: c in s ==> IsDigit(c)
  {
    if n < 10 then [48 + n] else Dec(n / 10) + [48 + n % 10]
  }

  /** Parsing digits first, and then what follows them. */
  lemma {:induction false} ParseDec(n: nat, s: bytes, i: nat, end: nat, stale: bytes)
    requires i + |Dec(n)| <= end <= |s| && At(s, i, Dec(n))
    ensures ParseDigits(0, s, i, end, stale) == ParseDigits(n, s, i + |Dec(n)|, end, stale)
  {
    var d: byte := 48 + n % 10;
    var last := i + |Dec(n)| - 1;
    AtByte(s, i, Dec(n), |Dec(n)| - 1);
    assert Dec(n)[|Dec(n)| - 1] == d;
    if n >= 10 {
      AtParts(s, i, Dec(n / 10), [d]);
      ParseDec(n / 10, s, i, end, stale);
      assert ParseDigits(n / 10, s, last, end, stale) == ParseDigits(10 * (n / 10) + n % 10, s, last + 1, end, stale);
    }
  }

  lemma {:induction false} DecShort(n: nat)
    requires n < 1000
    ensures |Dec(n)| <= 3
  {
    if n >= 10 {
      assert n / 10 < 100;
      if n >= 100 {
        assert (n / 10) / 10 < 10;
        assert |Dec((n / 10) / 10)| == 1;
      }
    }
  }

  // ---- queries ----

  /** `struct redis_query`, its arguments as the strings in its buffers. */
  datatype Query = Query(args: seq<bytes>, close: bool, shutdown: bool)

  const SHUTDOWN: bytes := ['s' as byte, 'h' as byte, 'u' as byte, 't' as byte,
                            'd' as byte, 'o' as byte, 'w' as byte, 'n' as byte]
  const QUIT: bytes := ['q' as byte, 'u' as byte, 'i' as byte, 't' as byte]

  function Lower(c: byte): byte {
    if 'A' as byte <= c <= 'Z' as byte then c + 32 else c
  }

  /** `strcasecmp` finds `s` equal to the lower-case text `t`. */
  predicate SameLetters(s: bytes, t: bytes) {
    |s| == |t| && forall k :: 0 <= k < |s| ==> Lower(s[k]) == t[k]
  }

  /** The query with these arguments: its first one may ask for the end of the session. */
  function Asked(args: seq<bytes>): Query {
    if args == [] then Query(args, false, false)
    else if SameLetters(args[0], SHUTDOWN) then Query(args, true, true)
    else Query(args, SameLetters(args[0], QUIT), false)
  }

  // ---- the writer ----

  function EncodeArg(a: bytes): bytes {
    ['$' as byte] + Dec(|CStr(a)|) + CRLF + CStr(a) + CRLF
  }

  function EncodeArgs(args: seq<bytes>): bytes {
    if args == [] then [] else EncodeArgs(args[..|args| - 1]) + EncodeArg(args[|args| - 1])
  }

  function Encode(args: seq<bytes>): bytes {
    ['*' as byte] + Dec(|args|) + CRLF + EncodeArgs(args)
  }

  function EncodeAll(qs: seq<seq<bytes>>): bytes {
    if qs == [] then [] else Encode(qs[0]) + EncodeAll(qs[1..])
  }

  // ---- the parser ----

  /** One argument, and the position behind it. */
  datatype Arg = Arg(value: bytes, next: nat) | NoArg(why: Failure)

  /** Where the read of the line from `pos` ends. */
  function LineAt(s: bytes, pos: nat, arr: Arrivals): (end: nat)
    requires pos <= |s|
    ensures pos <= end <= |s| && (pos < |s| ==> pos < end)
  {
    LineEnd(s, pos, LINE_MAX, arr.At(|s| - pos))
  }

  /** The length that is read: too long a string is cut, and nothing else is done to the number. */
  function Clamp(asked: int): int {
    if asked >= REDIS_MAX_BULK then REDIS_MAX_BULK - 1 else asked
  }

  /** An `int` passed as a `size_t`. */
  function AsSize(len: int): nat
    requires -0x8000_0000 <= len
  {
    if len < 0 then TWO_TO_THE_64 + len else len
  }

  /** The bytes `vk_read` stores: the length is passed as a `size_t`, and a hang-up ends the read. */
  function Stored(s: bytes, pos: nat, asked: int): (n: nat)
    requires pos <= |s| && -0x8000_0000 <= asked
    ensures pos + n <= |s|
  {
    Min(AsSize(Clamp(asked)), |s| - pos)
  }

  /** What follows a bulk header that ends at `pos` and asks for `asked` bytes. */
  function ParseBulk(s: bytes, pos: nat, asked: int, arr: Arrivals): (r: Arg)
    requires pos <= |s| && -0x8000_0000 <= asked
    ensures r.Arg? ==> pos < r.next <= |s|
  {
    var n := Stored(s, pos, asked);
    if n > REDIS_MAX_BULK then NoArg(Overrun(n))
    else if n != Clamp(asked) then NoArg(Raised(EPIPE))
    else
      var end := LineAt(s, pos + n, arr);
      if end - (pos + n) > LINE_SIZE then NoArg(Overrun(end - (pos + n)))
      else if end == pos + n then NoArg(Raised(EPIPE))
      else Arg(CStr(s[pos..pos + n]), end)
  }

  /** The bulk read or its terminator writes to offset `k` of the argument's buffer. */
  predicate Writes(s: bytes, pos: nat, asked: int, k: int)
    requires pos <= |s| && -0x8000_0000 <= asked
  {
    0 <= k < Stored(s, pos, asked) || k == Stored(s, pos, asked) == Clamp(asked)
  }

  /**
   Every write stays inside the buffer exactly if the header's number is not negative or no more bytes
   than the buffer holds are there to be read.
   */
  lemma {:induction false} BulkInsideIff(s: bytes, pos: nat, asked: int)
    requires pos <= |s| && -0x8000_0000 <= asked
    ensures (forall k: int :: Writes(s, pos, asked, k) ==> 0 <= k < REDIS_MAX_BULK)
            <==> asked >= 0 || |s| - pos <= REDIS_MAX_BULK
    ensures Stored(s, pos, asked) > REDIS_MAX_BULK <==> asked < 0 && |s| - pos > REDIS_MAX_BULK
  {
    if asked < 0 && |s| - pos > REDIS_MAX_BULK {
      assert Writes(s, pos, asked, REDIS_MAX_BULK);
    }
  }

  function ParseArg(s: bytes, pos: nat, arr: Arrivals): (r: Arg)
    requires pos <= |s|
    ensures r.Arg? ==> pos < r.next <= |s|
  {
    var end := LineAt(s, pos, arr);
    if end - pos > LINE_SIZE then NoArg(Overrun(end - pos))
    else if end == pos || s[pos] != '$' as byte then NoArg(Raised(EPIPE))
    else ParseBulk(s, end, Atoi(s, pos + 1, end, arr.At(|s| - pos).stale), arr)
  }

  datatype Args = Args(values: seq<bytes>, next: nat) | NoArgs(why: Failure)

  /** The argument at each position of `s`. */
  function ArgAt(s: bytes, arr: Arrivals): nat -> Arg {
    (pos: nat) => if pos <= |s| then ParseArg(s, pos, arr) else NoArg(Raised(EPIPE))
  }

  /** The loop over arguments, after `count` turns, where `f` reads the one at each position. */
  function ParseArgs(f: nat -> Arg, count: nat): Args {
    if count == 0 then Args([], 0) else Next(f, ParseArgs(f, count - 1))
  }

  /** One turn, unless an earlier one has failed. */
  function Next(f: nat -> Arg, r: Args): Args {
    match r
    case NoArgs(_) => r
    case Args(values, pos) =>
      match f(pos)
      case NoArg(why) => NoArgs(why)
      case Arg(value, next) => Args(values + [value], next)
  }

  /** What `count` turns have read: no more than there is, one value each. */
  lemma {:induction false} ArgsInside(s: bytes, count: nat, arr: Arrivals)
    ensures var r := ParseArgs(ArgAt(s, arr), count); r.Args? ==> r.next <= |s| && |r.values| == count
  {
    if count > 0 {
      ArgsInside(s, count - 1, arr);
    }
  }

  lemma {:induction false} FailureStays(f: nat -> Arg, i: nat, count: nat)
    requires i <= count && ParseArgs(f, i).NoArgs?
    ensures ParseArgs(f, count) == ParseArgs(f, i)
    decreases count
  {
    if i < count {
      FailureStays(f, i, count - 1);
    }
  }

  // ---- the ends of the buffers ----

  /** The line from `pos` arrives in time, its read does not stop early, and it is longer than `size` bytes. */
  predicate LineOverruns(s: bytes, pos: nat, size: nat, a: Arrival)
    requires pos <= |s|
  {
    !Stops(s, pos, LINE_MAX, a) && !a.late && HasEnd(s, pos) && LineFrom(s, pos) - pos > size
  }

  /** What follows the header leaves a buffer: the bulk its own, or the line after it the line buffer. */
  predicate BulkOverruns(s: bytes, pos: nat, asked: int, arr: Arrivals)
    requires pos <= |s| && -0x8000_0000 <= asked
  {
    || (asked < 0 && |s| - pos > REDIS_MAX_BULK)
    || (Stored(s, pos, asked) == Clamp(asked)
        && LineOverruns(s, pos + Stored(s, pos, asked), LINE_SIZE, arr.At(|s| - pos - Stored(s, pos, asked))))
  }

  /** An argument at `pos` leaves a buffer: with its header, or with what follows it. */
  predicate Overruns(s: bytes, pos: nat, arr: Arrivals)
    requires pos <= |s|
  {
    var end := LineAt(s, pos, arr);
    || LineOverruns(s, pos, LINE_SIZE, arr.At(|s| - pos))
    || (end > pos && s[pos] == '$' as byte && BulkOverruns(s, end, Atoi(s, pos + 1, end, arr.At(|s| - pos).stale), arr))
  }

  lemma {:induction false} BulkOverrunsIff(s: bytes, pos: nat, asked: int, arr: Arrivals)
    requires pos <= |s| && -0x8000_0000 <= asked
    ensures var r := ParseBulk(s, pos, asked, arr);
      r.NoArg? && r.why.Overrun? <==> BulkOverruns(s, pos, asked, arr)
  {
    BulkInsideIff(s, pos, asked);
    var n := Stored(s, pos, asked);
    ReadInsideIff(s, pos + n, LINE_MAX, LINE_SIZE, arr.At(|s| - pos - n));
  }

  lemma {:induction false} ArgOverrunsIff(s: bytes, pos: nat, arr: Arrivals)
    requires pos <= |s|
    ensures ParseArg(s, pos, arr).NoArg? && ParseArg(s, pos, arr).why.Overrun? <==> Overruns(s, pos, arr)
  {
    var end := LineAt(s, pos, arr);
    ReadInsideIff(s, pos, LINE_MAX, LINE_SIZE, arr.At(|s| - pos));
    if pos < end && s[pos] == '$' as byte {
      BulkOverrunsIff(s, end, Atoi(s, pos + 1, end, arr.At(|s| - pos).stale), arr);
      if end - pos > LINE_SIZE {
        assert LineOverruns(s, pos, LINE_SIZE, arr.At(|s| - pos));
      }
    }
  }

  predicate Overran(r: Args) {
    r.NoArgs? && r.why.Overrun?
  }

  /** One of the first `count` arguments is reached, and it leaves a buffer: `over` says which do. */
  predicate OverrunBefore(f: nat -> Arg, over: nat -> bool, count: nat) {
    count > 0 && (OverrunBefore(f, over, count - 1)
                  || (ParseArgs(f, count - 1).Args? && over(ParseArgs(f, count - 1).next)))
  }

  lemma {:induction false} ArgsOverrunIff(f: nat -> Arg, over: nat -> bool, count: nat)
    requires forall pos: nat :: over(pos) <==> f(pos).NoArg? && f(pos).why.Overrun?
    ensures Overran(ParseArgs(f, count)) <==> OverrunBefore(f, over, count)
    decreases count
  {
    if count > 0 {
      ArgsOverrunIff(f, over, count - 1);
    }
  }

  /** The positions of `s` at which an argument leaves a buffer. */
  function OverrunsAt(s: bytes, arr: Arrivals): nat -> bool {
    (pos: nat) => pos <= |s| && Overruns(s, pos, arr)
  }

  /** A buffer is left exactly if the loop reaches such an argument. */
  lemma {:induction false} LoopOverrunsIff(s: bytes, count: nat, arr: Arrivals)
    ensures Overran(ParseArgs(ArgAt(s, arr), count)) <==> OverrunBefore(ArgAt(s, arr), OverrunsAt(s, arr), count)
  {
    forall pos: nat
      ensures OverrunsAt(s, arr)(pos) <==> ArgAt(s, arr)(pos).NoArg? && ArgAt(s, arr)(pos).why.Overrun?
    {
      if pos <= |s| {
        ArgOverrunsIff(s, pos, arr);
      }
    }
    ArgsOverrunIff(ArgAt(s, arr), OverrunsAt(s, arr), count);
  }

  /** What a buffer can hold as a string. */
  predicate Storable(a: bytes) {
    |a| < REDIS_MAX_BULK && 0 !in a
  }

  lemma {:induction false} ParseArgStorable(s: bytes, pos: nat, arr: Arrivals)
    requires pos <= |s|
    ensures ParseArg(s, pos, arr).Arg? ==> Storable(ParseArg(s, pos, arr).value)
  {
    if ParseArg(s, pos, arr).Arg? {
      var end := LineAt(s, pos, arr);
      var asked := Atoi(s, pos + 1, end, arr.At(|s| - pos).stale);
      CStrPlain(s[end..end + Stored(s, end, asked)]);
    }
  }

  /** Every argument that the parser accepts fits its buffer. */
  lemma {:induction false} ParseArgsFit(s: bytes, count: nat, arr: Arrivals)
    ensures var r := ParseArgs(ArgAt(s, arr), count); r.Args? ==> forall a :: a in r.values ==> Storable(a)
  {
    forall pos: nat
      ensures ArgAt(s, arr)(pos).Arg? ==> Storable(ArgAt(s, arr)(pos).value)
    {
      if pos <= |s| {
        ParseArgStorable(s, pos, arr);
      }
    }
    AllStorable(ArgAt(s, arr), count);
  }

  lemma {:induction false} AllStorable(f: nat -> Arg, count: nat)
    requires forall pos: nat :: f(pos).Arg? ==> Storable(f(pos).value)
    ensures var r := ParseArgs(f, count); r.Args? ==> forall a :: a in r.values ==> Storable(a)
    decreases count
  {
    if count > 0 {
      AllStorable(f, count - 1);
    }
  }

  datatype Parsed = Parsed(args: seq<bytes>, rest: bytes) | Unparsed(why: Failure)

  function ParseBody(s: bytes, argc: nat, arr: Arrivals): (r: Parsed)
    ensures r.Parsed? ==> |r.rest| <= |s|
  {
    ArgsInside(s, argc, arr);
    match ParseArgs(ArgAt(s, arr), argc)
    case NoArgs(why) => Unparsed(why)
    case Args(values, next) => Parsed(values, s[next..])
  }

  /** How many arguments follow, and where. */
  datatype Count = Count(argc: nat, rest: bytes) | NoCount(why: Failure)

  /** The first line of a query, which is stored with a terminator behind it. */
  function ReadCount(input: bytes, arr: Arrivals): (r: Count)
    requires input != []
    ensures r.Count? ==> 0 < r.argc <= REDIS_MAX_ARGS && |r.rest| < |input|
  {
    var line := ReadLine(input, LINE_MAX, arr.At(|input|));
    if |line.text| + 1 > LINE_SIZE then NoCount(Overrun(|line.text| + 1))
    else if line.text[0] != '*' as byte then NoCount(Raised(EINVAL))
    else
      var argc := Atoi(line.text, 1, |line.text|, []);
      if argc <= 0 || argc > REDIS_MAX_ARGS then NoCount(Raised(EINVAL)) else Count(argc, line.rest)
  }

  /** One query from a nonempty input. */
  function ParseQuery(input: bytes, arr: Arrivals): (r: Parsed)
    requires input != []
    ensures r.Parsed? ==> |r.rest| < |input|
  {
    match ReadCount(input, arr)
    case NoCount(why) => Unparsed(why)
    case Count(argc, rest) => ParseBody(rest, argc, arr)
  }

  lemma {:induction false} ParseBodyFits(s: bytes, argc: nat, arr: Arrivals)
    ensures var r := ParseBody(s, argc, arr); r.Parsed? ==> |r.args| == argc && forall a :: a in r.args ==> Storable(a)
  {
    ParseArgsFit(s, argc, arr);
    ArgsInside(s, argc, arr);
  }

  lemma {:induction false} ParseQueryFits(input: bytes, arr: Arrivals)
    requires input != []
    ensures ParseQuery(input, arr).Parsed? ==> Fits(ParseQuery(input, arr).args)
  {
    var c := ReadCount(input, arr);
    if c.Count? {
      ParseBodyFits(c.rest, c.argc, arr);
    }
  }

  /** A query leaves a buffer with its first line, or with an argument. */
  predicate QueryOverruns(input: bytes, arr: Arrivals)
    requires input != []
  {
    var c := ReadCount(input, arr);
    || LineOverruns(input, 0, LINE_MAX, arr.At(|input|))
    || (c.Count? && OverrunBefore(ArgAt(c.rest, arr), OverrunsAt(c.rest, arr), c.argc))
  }

  lemma {:induction false} CountOverrunsIff(input: bytes, arr: Arrivals)
    requires input != []
    ensures var c := ReadCount(input, arr);
      c.NoCount? && c.why.Overrun? <==> LineOverruns(input, 0, LINE_MAX, arr.At(|input|))
  {
    ReadInsideIff(input, 0, LINE_MAX, LINE_MAX, arr.At(|input|));
  }

  /** Reading a query stores something behind the end of a buffer exactly then, whatever the input. */
  lemma {:induction false} QueryOverrunsIff(input: bytes, arr: Arrivals)
    requires input != []
    ensures var r := ParseQuery(input, arr); r.Unparsed? && r.why.Overrun? <==> QueryOverruns(input, arr)
  {
    var c := ReadCount(input, arr);
    CountOverrunsIff(input, arr);
    if c.Count? {
      LoopOverrunsIff(c.rest, c.argc, arr);
    }
  }

  /** How a session ends: a query asked for it, the input ran out, or the parser failed. */
  datatype End = Closed | Exhausted | Failed(why: Failure)

  datatype Session = Session(queries: seq<Query>, rest: bytes, end: End)

  function Serve(input: bytes, done: seq<Query>, arr: Arrivals): Session
    decreases |input|
  {
    if input == [] then Session(done, input, Exhausted)
    else match ParseQuery(input, arr)
      case Unparsed(why) => Session(done, input, Failed(why))
      case Parsed(args, rest) =>
        if Asked(args).close then Session(done + [Asked(args)], rest, Closed)
        else Serve(rest, done + [Asked(args)], arr)
  }

  // ---- round trips ----

  predicate Fits(args: seq<bytes>) {
    1 <= |args| <= REDIS_MAX_ARGS && forall a :: a in args ==> Storable(a)
  }

  /** The bytes `e` are in `s` at `pos`. */
  predicate At(s: bytes, pos: nat, e: bytes) {
    pos + |e| <= |s| && forall k :: 0 <= k < |e| ==> s[pos + k] == e[k]
  }

  lemma {:induction false} AtByte(s: bytes, pos: nat, e: bytes, k: nat)
    requires At(s, pos, e) && k < |e|
    ensures s[pos + k] == e[k]
  {
  }

  lemma {:induction false} AtParts(s: bytes, pos: nat, d: bytes, e: bytes)
    requires At(s, pos, d + e)
    ensures At(s, pos, d) && At(s, pos + |d|, e)
  {
    forall k | 0 <= k < |d|
      ensures s[pos + k] == d[k]
    {
      assert (d + e)[k] == d[k];
    }
    forall k | 0 <= k < |e|
      ensures s[pos + |d| + k] == e[k]
    {
      assert (d + e)[|d| + k] == e[k];
    }
  }

  /** A line of a marker and a number, whatever the buffer holds behind it. */
  lemma {:induction false} NumberLine(s: bytes, pos: nat, mark: byte, n: nat, stale: bytes)
    requires At(s, pos, [mark] + Dec(n) + CRLF) && mark != LF && n < 1000
    ensures s[pos] == mark && LineFrom(s, pos) == pos + |Dec(n)| + 3 && HasEnd(s, pos)
    ensures Atoi(s, pos + 1, pos + |Dec(n)| + 3, stale) == n
  {
    var d, end := Dec(n), pos + |Dec(n)| + 3;
    AtParts(s, pos, [mark] + d, CRLF);
    AtParts(s, pos, [mark], d);
    AtByte(s, pos, [mark], 0);
    AtByte(s, pos + 1 + |d|, CRLF, 0);
    AtByte(s, pos + 1 + |d|, CRLF, 1);
    DigitsAt(s, pos + 1, n);
    LineFromStops(s, pos, end - 1);
    ParseDec(n, s, pos + 1, end, stale);
  }

  lemma {:induction false} DigitsAt(s: bytes, pos: nat, n: nat)
    requires At(s, pos, Dec(n))
    ensures forall k :: pos <= k < pos + |Dec(n)| ==> IsDigit(s[k])
  {
    forall k | pos <= k < pos + |Dec(n)|
      ensures IsDigit(s[k])
    {
      AtByte(s, pos, Dec(n), k - pos);
      assert Dec(n)[k - pos] in Dec(n);
    }
  }

  lemma {:induction false} LineEndAt(s: bytes, pos: nat)
    requires At(s, pos, CRLF)
    ensures LineFrom(s, pos) == pos + 2 && HasEnd(s, pos)
  {
    AtByte(s, pos, CRLF, 0);
    AtByte(s, pos, CRLF, 1);
    LineFromStops(s, pos, pos + 1);
  }

  /** Neither read of an argument, which starts `n` bytes before the end of the stream, stops early. */
  predicate ArgWhole(a: bytes, n: int, arr: Arrivals) {
    var head := |Dec(|CStr(a)|)| + 3;
    Whole(arr.At(n), head) && Whole(arr.At(n - head - |CStr(a)|), 2)
  }

  predicate ArgsWhole(args: seq<bytes>, n: int, arr: Arrivals) {
    if args == [] then true
    else ArgsWhole(args[..|args| - 1], n, arr) && LastWhole(args[..|args| - 1], args[|args| - 1], n, arr)
  }

  predicate LastWhole(init: seq<bytes>, a: bytes, n: int, arr: Arrivals) {
    ArgWhole(a, n - |EncodeArgs(init)|, arr)
  }

  /** No read of a query that `n` bytes follow stops early. */
  predicate QueryWhole(args: seq<bytes>, n: nat, arr: Arrivals) {
    Whole(arr.At(|Encode(args)| + n), |Dec(|args|)| + 3) && ArgsWhole(args, |EncodeArgs(args)| + n, arr)
  }

  lemma {:induction false} SteadyWhole(args: seq<bytes>, n: nat, arr: Arrivals)
    requires Steady(arr)
    ensures ArgsWhole(args, n, arr)
    decreases |args|
  {
    if args != [] {
      SteadyWhole(args[..|args| - 1], n, arr);
    }
  }

  lemma {:induction false} ArgLength(a: bytes)
    requires Storable(a)
    ensures CStr(a) == a && |Dec(|a|)| <= 3 && |EncodeArg(a)| == |Dec(|a|)| + |a| + 5
  {
    CStrPlain(a);
    DecShort(|a|);
  }

  /** The parts of an encoded argument. */
  lemma {:induction false} ArgParts(s: bytes, pos: nat, a: bytes)
    requires Storable(a) && At(s, pos, EncodeArg(a))
    ensures At(s, pos, ['$' as byte] + Dec(|a|) + CRLF) && At(s, pos + |Dec(|a|)| + 3, a + CRLF)
  {
    CStrPlain(a);
    var head := ['$' as byte] + Dec(|a|) + CRLF;
    Assoc(head, a, CRLF);
    AtParts(s, pos, head, a + CRLF);
  }

  lemma {:induction false} BulkAt(s: bytes, pos: nat, a: bytes, arr: Arrivals)
    requires pos <= |s| && Storable(a) && At(s, pos, a + CRLF)
    ensures ParseBulk(s, pos, |a|, arr) ==
            Arg(a, pos + |a| + if Whole(arr.At(|s| - pos - |a|), 2) then 2 else 1)
  {
    CStrPlain(a);
    AtParts(s, pos, a, CRLF);
    assert s[pos..pos + |a|] == a;
    LineEndAt(s, pos + |a|);
  }

  /** A line that is read whole. */
  lemma {:induction false} WholeLine(s: bytes, pos: nat, len: nat, arr: Arrivals)
    requires pos + len <= |s| && LineFrom(s, pos) == pos + len && HasEnd(s, pos) && 0 < len <= LINE_MAX
    requires Whole(arr.At(|s| - pos), len)
    ensures LineAt(s, pos, arr) == pos + len
  {
  }

  /** The header line of an encoded argument. */
  lemma {:induction false} HeaderLine(s: bytes, pos: nat, a: bytes, stale: bytes)
    requires Storable(a) && At(s, pos, EncodeArg(a))
    ensures var end := pos + |Dec(|a|)| + 3;
      && end <= |s| && s[pos] == '$' as byte && end - pos <= 6
      && LineFrom(s, pos) == end && HasEnd(s, pos) && Atoi(s, pos + 1, end, stale) == |a|
  {
    ArgParts(s, pos, a);
    DecShort(|a|);
    NumberLine(s, pos, '$' as byte, |a|, stale);
  }

  /** A header is followed by its bulk. */
  lemma {:induction false} HeaderTo(s: bytes, pos: nat, end: nat, arr: Arrivals)
    requires pos < end <= |s| && s[pos] == '$' as byte && LineAt(s, pos, arr) == end <= pos + LINE_SIZE
    ensures ParseArg(s, pos, arr) == ParseBulk(s, end, Atoi(s, pos + 1, end, arr.At(|s| - pos).stale), arr)
  {
  }

  /** Read whole, it leaves the bulk to be read. */
  lemma {:induction false} HeaderAt(s: bytes, pos: nat, a: bytes, mid: nat, arr: Arrivals)
    requires Storable(a) && At(s, pos, EncodeArg(a)) && mid == pos + |Dec(|a|)| + 3
    requires Whole(arr.At(|s| - pos), |Dec(|a|)| + 3)
    ensures mid <= |s| && ParseArg(s, pos, arr) == ParseBulk(s, mid, |a|, arr)
  {
    HeaderWhole(s, pos, a, mid, arr);
    HeaderTo(s, pos, mid, arr);
  }

  lemma {:induction false} HeaderWhole(s: bytes, pos: nat, a: bytes, mid: nat, arr: Arrivals)
    requires Storable(a) && At(s, pos, EncodeArg(a)) && mid == pos + |Dec(|a|)| + 3
    requires Whole(arr.At(|s| - pos), |Dec(|a|)| + 3)
    ensures pos < mid <= |s| && mid <= pos + 6 && s[pos] == '$' as byte
    ensures LineAt(s, pos, arr) == mid && Atoi(s, pos + 1, mid, arr.At(|s| - pos).stale) == |a|
  {
    HeaderLine(s, pos, a, arr.At(|s| - pos).stale);
    WholeLine(s, pos, |Dec(|a|)| + 3, arr);
  }

  lemma {:induction false} BulkOf(s: bytes, pos: nat, a: bytes, mid: nat, arr: Arrivals)
    requires Storable(a) && At(s, pos, EncodeArg(a)) && mid == pos + |Dec(|a|)| + 3
    ensures mid + |a| + 2 <= |s|
    ensures ParseBulk(s, mid, |a|, arr) == Arg(a, mid + |a| + if Whole(arr.At(|s| - mid - |a|), 2) then 2 else 1)
  {
    ArgParts(s, pos, a);
    BulkAt(s, mid, a, arr);
  }

  lemma {:induction false} ArgRead(s: bytes, pos: nat, a: bytes, mid: nat, arr: Arrivals)
    requires Storable(a) && At(s, pos, EncodeArg(a)) && mid == pos + |Dec(|a|)| + 3
    requires Whole(arr.At(|s| - pos), |Dec(|a|)| + 3)
    ensures ParseArg(s, pos, arr) == Arg(a, mid + |a| + if Whole(arr.At(|s| - mid - |a|), 2) then 2 else 1)
  {
    HeaderAt(s, pos, a, mid, arr);
    BulkOf(s, pos, a, mid, arr);
  }

  lemma {:induction false} ArgWholeIs(a: bytes, n: int, arr: Arrivals)
    requires Storable(a)
    ensures var head := |Dec(|a|)| + 3;
      && |EncodeArg(a)| == head + |a| + 2
      && (ArgWhole(a, n, arr) <==> Whole(arr.At(n), head) && Whole(arr.At(n - head - |a|), 2))
  {
    ArgLength(a);
  }

  /**
   Whatever bytes an argument holds, line ends included, it is read back by its length, once its header
   is read whole; the parser is then behind it, or still before its last newline.
   */
  lemma {:induction false} ParseEncodedArg(s: bytes, pos: nat, a: bytes, arr: Arrivals)
    requires Storable(a) && At(s, pos, EncodeArg(a)) && Whole(arr.At(|s| - pos), |Dec(|a|)| + 3)
    ensures ParseArg(s, pos, arr) == Arg(a, pos + |EncodeArg(a)| - if ArgWhole(a, |s| - pos, arr) then 0 else 1)
  {
    ArgWholeIs(a, |s| - pos, arr);
    ArgRead(s, pos, a, pos + |Dec(|a|)| + 3, arr);
  }

  // ---- reads that stop early ----

  /** The argument is not read back, or the parser is behind it, and not at a header. */
  predicate Lags(r: Arg, a: bytes, s: bytes, end: nat)
    requires end <= |s|
  {
    r.NoArg? || r.value != a || (r.next < end && s[r.next] != '$' as byte)
  }

  /** If `t` and `a` together begin with `a`, they repeat `t`: a byte of `t` comes again soon after `|a|`. */
  lemma {:induction false} Repeats(t: bytes, a: bytes, k: nat) returns (j: nat)
    requires k < |t| + |a| && t != [] && forall i :: 0 <= i < |a| ==> (t + a)[i] == a[i]
    ensures |a| <= j < |a| + |t| && (t + a)[j] == (t + a)[k]
    decreases |a| - k
  {
    if k < |a| {
      assert (t + a)[k + |t|] == a[k];
      j := Repeats(t, a, k + |t|);
    } else {
      j := k;
    }
  }

  lemma {:induction false} OnlyBytesOf(t: bytes, a: bytes, k: nat)
    requires k < |t| + |a| && t != [] && forall i :: 0 <= i < |a| ==> (t + a)[i] == a[i]
    ensures (t + a)[k] in t
    decreases k
  {
    if k >= |t| {
      assert (t + a)[k] == a[k - |t|] == (t + a)[k - |t|];
      OnlyBytesOf(t, a, k - |t|);
    }
  }

  /** The bulk read finds the argument although it starts at the rest `t` of the header before it. */
  lemma {:induction false} FoundEarly(s: bytes, pos: nat, asked: int, arr: Arrivals, t: bytes, a: bytes)
    requires Storable(a) && At(s, pos, t + a + CRLF) && 0 !in t && -0x8000_0000 <= asked
    requires ParseBulk(s, pos, asked, arr).Arg? && ParseBulk(s, pos, asked, arr).value == a
    ensures Stored(s, pos, asked) == |a| && forall i :: 0 <= i < |a| ==> (t + a)[i] == a[i]
  {
    var n, d := Stored(s, pos, asked), t + a + CRLF;
    var w := s[pos..pos + n];
    CStrPlain(w);
    assert StrLen(w, 0) == |a| && forall i :: 0 <= i < n ==> w[i] == s[pos + i];
    forall i | 0 <= i < |d|
      ensures s[pos + i] == d[i] != 0
    {
      AtByte(s, pos, d, i);
      assert d[i] in t || d[i] in a || d[i] in CRLF;
    }
    assert forall i :: 0 <= i < n && i < |d| ==> w[i] == d[i] != 0;
    forall i | 0 <= i < |a|
      ensures (t + a)[i] == a[i]
    {
      assert a[i] == w[i] == s[pos + i] == d[i] == (t + a)[i];
    }
  }

  /** From where the bulk then ends a newline is no further away than `t` is long. */
  lemma {:induction false} NewlineSoon(s: bytes, pos: nat, t: bytes, a: bytes)
    requires At(s, pos, t + a + CRLF) && t != [] && t[|t| - 1] == LF
    requires forall i :: 0 <= i < |a| ==> (t + a)[i] == a[i]
    ensures LineFrom(s, pos + |a|) <= pos + |a| + |t|
  {
    var j := Repeats(t, a, |t| - 1);
    assert (t + a)[|t| - 1] == LF;
    AtParts(s, pos, t + a, CRLF);
    AtByte(s, pos, t + a, j);
    LineFromBefore(s, pos + |a|, pos + j);
  }

  /** And no marker is before the end of the argument. */
  lemma {:induction false} NoMarker(s: bytes, pos: nat, t: bytes, a: bytes, k: nat)
    requires At(s, pos, t + a + CRLF) && t != [] && '$' as byte !in t && k < |t| + |a| + 2
    requires forall i :: 0 <= i < |a| ==> (t + a)[i] == a[i]
    ensures s[pos + k] != '$' as byte
  {
    AtByte(s, pos, t + a + CRLF, k);
    if k < |t| + |a| {
      OnlyBytesOf(t, a, k);
      assert (t + a + CRLF)[k] == (t + a)[k];
    }
  }

  /** A header that was not read to its end puts the parser off for good, or fails. */
  lemma {:induction false} BulkShifted(s: bytes, pos: nat, asked: int, arr: Arrivals, t: bytes, a: bytes)
    requires Storable(a) && At(s, pos, t + a + CRLF) && -0x8000_0000 <= asked
    requires t != [] && t[|t| - 1] == LF && 0 !in t && '$' as byte !in t
    ensures Lags(ParseBulk(s, pos, asked, arr), a, s, pos + |t| + |a| + 2)
  {
    var r := ParseBulk(s, pos, asked, arr);
    if r.Arg? && r.value == a {
      FoundEarly(s, pos, asked, arr, t, a);
      NewlineSoon(s, pos, t, a);
      NoMarker(s, pos, t, a, r.next - pos);
    }
  }

  lemma {:induction false} StoppedLine(s: bytes, pos: nat, len: nat, n: nat, arr: Arrivals)
    requires pos + len <= |s| && LineFrom(s, pos) == pos + len && 0 < n < len <= LINE_MAX
    requires n == arr.At(|s| - pos).stop
    ensures LineAt(s, pos, arr) == pos + n
  {
  }

  /** The parse of an argument whose header's read stops after `n` bytes, for some number. */
  lemma {:induction false} HeaderStopped(s: bytes, pos: nat, a: bytes, n: nat, arr: Arrivals) returns (asked: int)
    requires Storable(a) && At(s, pos, EncodeArg(a))
    requires 0 < n == arr.At(|s| - pos).stop < |Dec(|a|)| + 3
    ensures pos + n <= |s| && asked >= -0x8000_0000
    ensures ParseArg(s, pos, arr) == ParseBulk(s, pos + n, asked, arr)
  {
    StoppedHeader(s, pos, a, n, arr);
    HeaderTo(s, pos, pos + n, arr);
    asked := Atoi(s, pos + 1, pos + n, arr.At(|s| - pos).stale);
  }

  lemma {:induction false} StoppedHeader(s: bytes, pos: nat, a: bytes, n: nat, arr: Arrivals)
    requires Storable(a) && At(s, pos, EncodeArg(a))
    requires 0 < n == arr.At(|s| - pos).stop < |Dec(|a|)| + 3
    ensures pos + n <= |s| && n <= 6 && s[pos] == '$' as byte && LineAt(s, pos, arr) == pos + n
  {
    HeaderLine(s, pos, a, []);
    StoppedLine(s, pos, |Dec(|a|)| + 3, n, arr);
  }

  lemma {:induction false} AtRest(s: bytes, pos: nat, head: bytes, n: nat, a: bytes)
    requires n <= |head| && At(s, pos, head) && At(s, pos + |head|, a)
    ensures At(s, pos + n, head[n..] + a)
  {
    var e := head[n..] + a;
    forall k | 0 <= k < |e|
      ensures s[pos + n + k] == e[k]
    {
      if n + k < |head| {
        AtByte(s, pos, head, n + k);
      } else {
        AtByte(s, pos + |head|, a, n + k - |head|);
      }
    }
  }

  /** What is left of the header, and what follows it. */
  lemma {:induction false} RestOfArg(s: bytes, pos: nat, a: bytes, n: nat) returns (t: bytes)
    requires Storable(a) && At(s, pos, EncodeArg(a)) && 0 < n < |Dec(|a|)| + 3
    ensures t != [] && t[|t| - 1] == LF && 0 !in t && '$' as byte !in t
    ensures At(s, pos + n, t + a + CRLF) && n + |t| + |a| + 2 == |EncodeArg(a)|
  {
    var head := ['$' as byte] + Dec(|a|) + CRLF;
    ArgLength(a);
    ArgParts(s, pos, a);
    HeaderRest(|a|, n);
    t := head[n..];
    AtRest(s, pos, head, n, a + CRLF);
    Assoc(t, a, CRLF);
  }

  lemma {:induction false} StoppedBulkLags(s: bytes, pos: nat, a: bytes, n: nat, asked: int, arr: Arrivals)
    requires Storable(a) && At(s, pos, EncodeArg(a)) && 0 < n < |Dec(|a|)| + 3 && asked >= -0x8000_0000
    ensures pos + n <= |s| && Lags(ParseBulk(s, pos + n, asked, arr), a, s, pos + |EncodeArg(a)|)
  {
    var t := RestOfArg(s, pos, a, n);
    BulkShifted(s, pos + n, asked, arr, t, a);
  }

  lemma {:induction false} StoppedHeaderLags(s: bytes, pos: nat, a: bytes, arr: Arrivals)
    requires Storable(a) && At(s, pos, EncodeArg(a)) && !Whole(arr.At(|s| - pos), |Dec(|a|)| + 3)
    ensures Lags(ParseArg(s, pos, arr), a, s, pos + |EncodeArg(a)|)
  {
    var n := arr.At(|s| - pos).stop;
    var asked := HeaderStopped(s, pos, a, n, arr);
    StoppedBulkLags(s, pos, a, n, asked, arr);
  }

  lemma {:induction false} LastByte(s: bytes, pos: nat, a: bytes)
    requires Storable(a) && At(s, pos, EncodeArg(a))
    ensures s[pos + |EncodeArg(a)| - 1] == LF
  {
    ArgLength(a);
    ArgParts(s, pos, a);
    AtByte(s, pos + |Dec(|a|)| + 3, a + CRLF, |a| + 1);
  }

  /** So does every read of an argument that stops early. */
  lemma {:induction false} StoppedArgLags(s: bytes, pos: nat, a: bytes, arr: Arrivals)
    requires Storable(a) && At(s, pos, EncodeArg(a)) && !ArgWhole(a, |s| - pos, arr)
    ensures Lags(ParseArg(s, pos, arr), a, s, pos + |EncodeArg(a)|)
  {
    if Whole(arr.At(|s| - pos), |Dec(|a|)| + 3) {
      ParseEncodedArg(s, pos, a, arr);
      LastByte(s, pos, a);
    } else {
      StoppedHeaderLags(s, pos, a, arr);
    }
  }

  lemma {:induction false} HeaderRest(n: nat, from: nat)
    requires 0 < from < |Dec(n)| + 3
    ensures var t := (['$' as byte] + Dec(n) + CRLF)[from..];
      t != [] && t[|t| - 1] == LF && 0 !in t && '$' as byte !in t
  {
    var h := ['$' as byte] + Dec(n) + CRLF;
    forall k | from <= k < |h|
      ensures h[k] != 0 && h[k] != '$' as byte
    {
      assert h[k] in Dec(n) || h[k] in CRLF;
    }
  }

  // ---- whole queries ----

  /** The first arguments were not read back, or the parser is behind them, and not at a header. */
  predicate ArgsLag(r: Args, args: seq<bytes>, s: bytes, end: nat)
    requires end <= |s|
  {
    r.NoArgs? || r.values != args || (r.next < end && s[r.next] != '$' as byte)
  }

  /** The first arguments are read back, and the parser is behind them; or they are not, or it lags. */
  predicate ReadAs(r: Args, args: seq<bytes>, s: bytes, end: nat, whole: bool)
    requires end <= |s|
  {
    if whole then r == Args(args, end) else ArgsLag(r, args, s, end)
  }

  /** One more argument, for a reader that finds it exactly if `last` is whole and none where no marker is. */
  lemma {:induction false} NextRead(
    f: nat -> Arg, s: bytes, r: Args, init: seq<bytes>, pos: nat, whole: bool, a: bytes, end: nat, last: bool)
    requires pos <= end <= |s| && ReadAs(r, init, s, pos, whole)
    requires if last then f(pos) == Arg(a, end) else Lags(f(pos), a, s, end)
    requires forall p: nat :: p < |s| && s[p] != '$' as byte ==> f(p).NoArg?
    ensures ReadAs(Next(f, r), init + [a], s, end, whole && last)
  {
    if r.Args? && f(r.next).Arg? {
      SnocIs(r.values, f(r.next).value, init, a);
    }
  }

  /** `f` reads the encoded arguments of `s` as the parser does. */
  ghost predicate ReadsArg(f: nat -> Arg, s: bytes, arr: Arrivals, pos: nat, a: bytes) {
    Storable(a) && At(s, pos, EncodeArg(a)) ==>
      if ArgWhole(a, |s| - pos, arr) then f(pos) == Arg(a, pos + |EncodeArg(a)|)
      else Lags(f(pos), a, s, pos + |EncodeArg(a)|)
  }

  ghost predicate ReadsArgs(f: nat -> Arg, s: bytes, arr: Arrivals) {
    && (forall pos: nat, a: bytes :: ReadsArg(f, s, arr, pos, a))
    && forall p: nat :: p < |s| && s[p] != '$' as byte ==> f(p).NoArg?
  }

  lemma {:induction false} ParserReadsArgs(s: bytes, arr: Arrivals)
    ensures ReadsArgs(ArgAt(s, arr), s, arr)
  {
    forall pos: nat, a: bytes
      ensures ReadsArg(ArgAt(s, arr), s, arr, pos, a)
    {
      if Storable(a) && At(s, pos, EncodeArg(a)) {
        ArgExact(s, pos, a, arr);
      }
    }
  }

  lemma {:induction false} ArgExact(s: bytes, pos: nat, a: bytes, arr: Arrivals)
    requires Storable(a) && At(s, pos, EncodeArg(a))
    ensures if ArgWhole(a, |s| - pos, arr) then ParseArg(s, pos, arr) == Arg(a, pos + |EncodeArg(a)|)
            else Lags(ParseArg(s, pos, arr), a, s, pos + |EncodeArg(a)|)
  {
    if ArgWhole(a, |s| - pos, arr) {
      CStrPlain(a);
      ParseEncodedArg(s, pos, a, arr);
    } else {
      StoppedArgLags(s, pos, a, arr);
    }
  }

  /** Encoded arguments are read back, and the parser is behind them, exactly if no read stops early. */
  lemma {:induction false} ParseEncodedArgs(f: nat -> Arg, s: bytes, args: seq<bytes>, arr: Arrivals)
    requires ReadsArgs(f, s, arr)
    requires (forall a :: a in args ==> Storable(a)) && At(s, 0, EncodeArgs(args))
    ensures ReadAs(ParseArgs(f, |args|), args, s, |EncodeArgs(args)|, ArgsWhole(args, |s|, arr))
    decreases |args|
  {
    if args != [] {
      var init, a := args[..|args| - 1], args[|args| - 1];
      var pos := |EncodeArgs(init)|;
      LastOf(args);
      AtParts(s, 0, EncodeArgs(init), EncodeArg(a));
      ParseEncodedArgs(f, s, init, arr);
      assert ReadsArg(f, s, arr, pos, a);
      NextRead(f, s, ParseArgs(f, |init|), init, pos, ArgsWhole(init, |s|, arr), a, |EncodeArgs(args)|,
               LastWhole(init, a, |s|, arr));
    }
  }

  lemma {:induction false} LastOf(args: seq<bytes>)
    requires args != []
    ensures var init, a := args[..|args| - 1], args[|args| - 1];
      init + [a] == args && EncodeArgs(args) == EncodeArgs(init) + EncodeArg(a)
  {
    Back(args);
  }

  lemma {:induction false} ParseEncodedBody(s: bytes, args: seq<bytes>, after: bytes, arr: Arrivals)
    requires (forall a :: a in args ==> Storable(a)) && s == EncodeArgs(args) + after
    ensures ParseBody(s, |args|, arr) == Parsed(args, after) <==> ArgsWhole(args, |s|, arr)
  {
    assert At(s, 0, EncodeArgs(args));
    ParserReadsArgs(s, arr);
    ParseEncodedArgs(ArgAt(s, arr), s, args, arr);
    ArgsInside(s, |args|, arr);
    BodyIs(s, ParseArgs(ArgAt(s, arr), |args|), args, after, |EncodeArgs(args)|, ArgsWhole(args, |s|, arr));
  }

  lemma {:induction false} BodyIs(s: bytes, r: Args, args: seq<bytes>, after: bytes, end: nat, whole: bool)
    requires (r.Args? ==> r.next <= |s|) && end <= |s| && s[end..] == after && ReadAs(r, args, s, end, whole)
    ensures whole <==> r.Args? && r.values == args && s[r.next..] == after
  {
  }

  /** The first line of a query, however it arrives. */
  lemma {:induction false} ReadCountLine(n: nat, after: bytes, arr: Arrivals)
    requires n < 10
    ensures var line, a := ['*' as byte] + Dec(n) + CRLF, arr.At(|Dec(n)| + 3 + |after|);
      && |line| == 4
      && ReadLine(line + after, LINE_MAX, a) ==
         (if Whole(a, 4) then Line(line, after) else Line(line[..a.stop], line[a.stop..] + after))
      && Atoi(line, 1, 4, []) == n
  {
    var line := ['*' as byte] + Dec(n) + CRLF;
    var a := arr.At(|Dec(n)| + 3 + |after|);
    var t := ['*' as byte, 48 + n, CR];
    assert Dec(n) == [48 + n];
    assert line == t + [LF] && LF !in t;
    ReadLineOf(t, after, LINE_MAX, a);
    assert line[..4] == line;
    NumberLine(line, 0, '*' as byte, n, []);
    if !Whole(a, 4) {
      assert line[..a.stop] == t[..a.stop] && line[a.stop..] == t[a.stop..] + [LF];
    }
  }

  /** Read whole, it leaves the arguments. */
  lemma {:induction false} CountRead(input: bytes, n: nat, s: bytes, arr: Arrivals)
    requires 0 < n <= REDIS_MAX_ARGS && Whole(arr.At(|Dec(n)| + 3 + |s|), 4)
    requires input == ['*' as byte] + Dec(n) + CRLF + s
    ensures ReadCount(input, arr) == Count(n, s)
  {
    ReadCountLine(n, s, arr);
  }

  /** Otherwise there is no count, or no header behind it. */
  lemma {:induction false} CountStopped(input: bytes, n: nat, after: bytes, arr: Arrivals)
    requires 0 < n < 10 && !Whole(arr.At(|Dec(n)| + 3 + |after|), 4)
    requires input == ['*' as byte] + Dec(n) + CRLF + after
    ensures var c := ReadCount(input, arr); c.Count? ==> c.rest != [] && c.rest[0] != '$' as byte
  {
    var line := ['*' as byte] + Dec(n) + CRLF;
    var stop := arr.At(|Dec(n)| + 3 + |after|).stop;
    ReadCountLine(n, after, arr);
    var rest := line[stop..] + after;
    assert Dec(n) == [48 + n] && rest[0] == line[stop];
    assert stop == 1 ==> Atoi(line[..stop], 1, stop, []) == 0;
  }

  lemma {:induction false} NoArgument(s: bytes, argc: nat, arr: Arrivals)
    requires argc > 0 && s != [] && s[0] != '$' as byte
    ensures ParseBody(s, argc, arr).Unparsed?
  {
    var f := ArgAt(s, arr);
    assert ParseArgs(f, 1) == Next(f, ParseArgs(f, 0));
    FailureStays(f, 1, argc);
  }

  /** A bulk header that asks for one byte less than none. */
  const MINUS_ONE: bytes := ['$' as byte, '-' as byte, '1' as byte, CR, LF]

  lemma {:induction false} MinusOneLine(s: bytes, x: bytes, stale: bytes)
    requires s == MINUS_ONE + x
    ensures LineFrom(s, 0) == 5 && HasEnd(s, 0) && s[0] == '$' as byte && Atoi(s, 1, 5, stale) == -1
  {
    assert s[0] == 36 && s[1] == 45 && s[2] == 49 && s[3] == CR && s[4] == LF;
    LineFromStops(s, 0, 4);
    assert ParseDigits(0, s, 2, 5, stale) == ParseDigits(1, s, 3, 5, stale) == 1;
    assert Number(s, 1, 5, stale) == -1;
  }

  /** A query of one argument is what its header and the rest are parsed as. */
  lemma {:induction false} OneArgument(s: bytes, arr: Arrivals)
    requires Steady(arr) && ParseArg(s, 0, arr).NoArg?
    ensures ParseQuery(['*' as byte] + Dec(1) + CRLF + s, arr) == Unparsed(ParseArg(s, 0, arr).why)
  {
    CountRead(['*' as byte] + Dec(1) + CRLF + s, 1, s, arr);
    var f := ArgAt(s, arr);
    assert ParseArgs(f, 1) == Next(f, ParseArgs(f, 0));
  }

  /**
   The input at which the bulk read leaves its buffer: a query of one argument whose header asks for -1
   bytes. All that follows is stored, through the end of the buffer if there are more than 64 bytes.
   */
  lemma {:induction false} NegativeBulkStoresAll(x: bytes, arr: Arrivals)
    requires |x| <= SSIZE_MAX && Steady(arr)
    ensures var r := ParseQuery(['*' as byte] + Dec(1) + CRLF + (MINUS_ONE + x), arr);
      r == Unparsed(if |x| > REDIS_MAX_BULK then Overrun(|x|) else Raised(EPIPE))
  {
    var s := MINUS_ONE + x;
    MinusOneLine(s, x, arr.At(|s|).stale);
    assert ParseArg(s, 0, arr) == ParseBulk(s, 5, -1, arr);
    OneArgument(s, arr);
  }

  /** The inputs at which a line leaves its buffer: any line of more than 128 bytes that is buffered whole. */
  lemma {:induction false} LongLineOverruns(text: bytes, after: bytes, arr: Arrivals)
    requires LF !in text && |text| >= LINE_SIZE
    requires Steady(arr) && !arr.At(|text| + 1 + |after|).late
    ensures ParseQuery(['*' as byte] + Dec(1) + CRLF + (text + [LF] + after), arr) == Unparsed(Overrun(|text| + 1))
  {
    var s := text + [LF] + after;
    LineFromAt(text, after);
    assert LineAt(s, 0, arr) == |text| + 1;
    OneArgument(s, arr);
  }

  /**
   The memory at which a read stops early: the count line of the query itself is left in the buffer, and
   of a header behind it two bytes arrive first. They are taken for the whole line.
   */
  lemma {:induction false} CountLineIsStale(digit: byte, after: bytes)
    requires IsDigit(digit)
    ensures var mem: bytes := ['*' as byte, '1' as byte, CR, LF, 0];
      Passes(['$' as byte, digit] + CRLF + after, mem, LINE_MAX, 0, [2]) == Stopped(2)
  {
    var s, mem: bytes := ['$' as byte, digit] + CRLF + after, ['*' as byte, '1' as byte, CR, LF, 0];
    PlainPass(s, mem, LINE_MAX, 0, [2]);
    assert Stale(mem, 2);
  }

  /**
   However it arrives, a query survives exactly if it has 1 to 8 arguments of at most 63 bytes, none of
   them NUL, and no read of a line of it stops early.
   */
  lemma {:induction false} QueryRoundTripIff(args: seq<bytes>, after: bytes, arr: Arrivals)
    ensures Encode(args) + after != []
    ensures ParseQuery(Encode(args) + after, arr) == Parsed(args, after) <==>
            Fits(args) && QueryWhole(args, |after|, arr)
  {
    if Fits(args) {
      FittingQuery(Encode(args) + after, args, after, arr);
    } else {
      ParseQueryFits(Encode(args) + after, arr);
    }
  }

  /** What the first line of a fitting query leads to. */
  lemma {:induction false} FirstLineOf(input: bytes, args: seq<bytes>, after: bytes, arr: Arrivals) returns (s: bytes)
    requires Fits(args) && input == Encode(args) + after
    ensures input != [] && s == EncodeArgs(args) + after && |s| == |EncodeArgs(args)| + |after|
    ensures var c := ReadCount(input, arr);
      if Whole(arr.At(|Encode(args)| + |after|), |Dec(|args|)| + 3) then c == Count(|args|, s)
      else c.Count? ==> c.rest != [] && c.rest[0] != '$' as byte
  {
    s := EncodeArgs(args) + after;
    Assoc(['*' as byte] + Dec(|args|) + CRLF, EncodeArgs(args), after);
    assert |Dec(|args|)| == 1;
    if Whole(arr.At(4 + |s|), 4) {
      CountRead(input, |args|, s, arr);
    } else {
      CountStopped(input, |args|, s, arr);
    }
  }

  /** Whether it is read whole, and how many bytes then follow. */
  lemma {:induction false} QueryParts(args: seq<bytes>, after: nat, arr: Arrivals) returns (whole: bool, n: nat)
    ensures whole == Whole(arr.At(|Encode(args)| + after), |Dec(|args|)| + 3) && n == |EncodeArgs(args)| + after
    ensures QueryWhole(args, after, arr) <==> whole && ArgsWhole(args, n, arr)
  {
    whole, n := Whole(arr.At(|Encode(args)| + after), |Dec(|args|)| + 3), |EncodeArgs(args)| + after;
  }

  lemma {:induction false} FirstLineParts(input: bytes, args: seq<bytes>, after: bytes, arr: Arrivals)
    returns (s: bytes, n: nat, whole: bool)
    requires Fits(args) && input == Encode(args) + after
    ensures input != [] && s == EncodeArgs(args) + after && n == |s|
    ensures var c := ReadCount(input, arr);
      if whole then c == Count(|args|, s) else c.Count? ==> c.rest != [] && c.rest[0] != '$' as byte
    ensures QueryWhole(args, |after|, arr) <==> whole && ArgsWhole(args, n, arr)
  {
    s := FirstLineOf(input, args, after, arr);
    whole, n := QueryParts(args, |after|, arr);
  }

  lemma {:induction false} FittingQuery(input: bytes, args: seq<bytes>, after: bytes, arr: Arrivals)
    requires Fits(args) && input == Encode(args) + after && input != []
    ensures ParseQuery(input, arr) == Parsed(args, after) <==> QueryWhole(args, |after|, arr)
  {
    var s, n, whole := FirstLineParts(input, args, after, arr);
    QueryOfCount(input, args, s, after, n, whole, arr);
  }

  lemma {:induction false} QueryOfCount(
      input: bytes, args: seq<bytes>, s: bytes, after: bytes, n: nat, whole: bool, arr: Arrivals)
    requires Fits(args) && s == EncodeArgs(args) + after && n == |s| && input != []
    requires var c := ReadCount(input, arr);
      if whole then c == Count(|args|, s) else c.Count? ==> c.rest != [] && c.rest[0] != '$' as byte
    ensures ParseQuery(input, arr) == Parsed(args, after) <==> whole && ArgsWhole(args, n, arr)
  {
    if whole {
      CountedQuery(input, args, s, after, n, arr);
    } else {
      StoppedCount(input, arr);
    }
  }

  lemma {:induction false} CountedQuery(
      input: bytes, args: seq<bytes>, s: bytes, after: bytes, n: nat, arr: Arrivals)
    requires Fits(args) && s == EncodeArgs(args) + after && input != [] && ReadCount(input, arr) == Count(|args|, s)
    requires n == |s|
    ensures ParseQuery(input, arr) == Parsed(args, after) <==> ArgsWhole(args, n, arr)
  {
    ParseEncodedBody(s, args, after, arr);
    SameBody(ParseQuery(input, arr), input, s, |args|, Parsed(args, after), ArgsWhole(args, n, arr), arr);
  }

  lemma {:induction false} SameBody(
      r: Parsed, input: bytes, s: bytes, argc: nat, want: Parsed, whole: bool, arr: Arrivals)
    requires input != [] && ReadCount(input, arr) == Count(argc, s) && r == ParseQuery(input, arr)
    requires ParseBody(s, argc, arr) == want <==> whole
    ensures r == want <==> whole
  {
    BodyOfCount(input, argc, s, arr);
  }

  lemma {:induction false} StoppedCount(input: bytes, arr: Arrivals)
    requires input != []
    requires var c := ReadCount(input, arr); c.Count? ==> c.rest != [] && c.rest[0] != '$' as byte
    ensures ParseQuery(input, arr).Unparsed?
  {
    var c := ReadCount(input, arr);
    if c.Count? {
      BodyOfCount(input, c.argc, c.rest, arr);
      NoArgument(c.rest, c.argc, arr);
    }
  }

  lemma {:induction false} BodyOfCount(input: bytes, argc: nat, rest: bytes, arr: Arrivals)
    requires input != [] && ReadCount(input, arr) == Count(argc, rest)
    ensures ParseQuery(input, arr) == ParseBody(rest, argc, arr)
  {
  }

  /** The queries through the first that closes the session. */
  function Through(qs: seq<seq<bytes>>): seq<Query> {
    if qs == [] then []
    else if Asked(qs[0]).close then [Asked(qs[0])]
    else [Asked(qs[0])] + Through(qs[1..])
  }

  predicate Closes(qs: seq<seq<bytes>>) {
    exists i :: 0 <= i < |qs| && Asked(qs[i]).close
  }

  /** It is a prefix, and only its last query closes. */
  lemma {:induction false} ThroughFirstClose(qs: seq<seq<bytes>>)
    ensures |Through(qs)| <= |qs|
    ensures forall i :: 0 <= i < |Through(qs)| ==> Through(qs)[i] == Asked(qs[i])
    ensures forall i :: 0 <= i < |Through(qs)| - 1 ==> !Asked(qs[i]).close
    ensures Closes(qs) <==> Through(qs) != [] && Through(qs)[|Through(qs)| - 1].close
    ensures !Closes(qs) ==> |Through(qs)| == |qs|
  {
    if qs != [] && !Asked(qs[0]).close {
      var t := Through(qs[1..]);
      ThroughFirstClose(qs[1..]);
      assert forall i :: 1 <= i < |qs| ==> qs[i] == qs[1..][i - 1];
      assert t != [] ==> Through(qs)[|t|] == t[|t| - 1];
    }
  }

  lemma {:induction false} ClosesLater(qs: seq<seq<bytes>>)
    requires qs != [] && !Asked(qs[0]).close
    ensures Closes(qs) <==> Closes(qs[1..])
  {
    assert forall i :: 1 <= i < |qs| ==> qs[i] == qs[1..][i - 1];
  }

  /** One turn of the parse loop. */
  lemma {:induction false} ServeOne(q: seq<bytes>, rest: bytes, done: seq<Query>, arr: Arrivals)
    requires Fits(q) && QueryWhole(q, |rest|, arr)
    ensures Serve(Encode(q) + rest, done, arr) ==
      if Asked(q).close then Session(done + [Asked(q)], rest, Closed) else Serve(rest, done + [Asked(q)], arr)
  {
    FittingQuery(Encode(q) + rest, q, rest, arr);
    ServeParsed(Encode(q) + rest, q, rest, done, arr);
  }

  /** No read of the queries through the first that closes stops early; `n` bytes follow them all. */
  predicate SessionWhole(qs: seq<seq<bytes>>, n: nat, arr: Arrivals) {
    qs == [] ||
    (QueryWhole(qs[0], |EncodeAll(qs[1..])| + n, arr) && (Asked(qs[0]).close || SessionWhole(qs[1..], n, arr)))
  }

  lemma {:induction false} SteadySession(qs: seq<seq<bytes>>, n: nat, arr: Arrivals)
    requires Steady(arr)
    ensures SessionWhole(qs, n, arr)
    decreases |qs|
  {
    if qs != [] {
      SteadyQuery(qs[0], |EncodeAll(qs[1..])| + n, arr);
      SteadySession(qs[1..], n, arr);
    }
  }

  lemma {:induction false} SteadyQuery(q: seq<bytes>, n: nat, arr: Arrivals)
    requires Steady(arr)
    ensures QueryWhole(q, n, arr)
  {
    SteadyWhole(q, |EncodeArgs(q)| + n, arr);
  }

  lemma {:induction false} ServeParsed(
    input: bytes, q: seq<bytes>, rest: bytes, done: seq<Query>, arr: Arrivals)
    requires input != [] && ParseQuery(input, arr) == Parsed(q, rest)
    ensures Serve(input, done, arr) ==
      if Asked(q).close then Session(done + [Asked(q)], rest, Closed) else Serve(rest, done + [Asked(q)], arr)
  {
  }

  /**
   Parsing the concatenated encodings gives the same queries through the first that closes, and leaves
   what follows it untouched; without one, the parser goes on with what follows.
   */
  lemma {:induction false} SessionRoundTrip(qs: seq<seq<bytes>>, done: seq<Query>, after: bytes, arr: Arrivals)
    requires SessionWhole(qs, |after|, arr) && forall i :: 0 <= i < |qs| ==> Fits(qs[i])
    ensures |Through(qs)| <= |qs|
    ensures Serve(EncodeAll(qs) + after, done, arr) ==
      if Closes(qs) then Session(done + Through(qs), EncodeAll(qs[|Through(qs)|..]) + after, Closed)
      else Serve(after, done + Through(qs), arr)
    decreases |qs|
  {
    if qs == [] {
      assert EncodeAll(qs) + after == after && done + Through(qs) == done;
    } else {
      var q, tail := qs[0], qs[1..];
      Assoc(Encode(q), EncodeAll(tail), after);
      ServeOne(q, EncodeAll(tail) + after, done, arr);
      if Asked(q).close {
        assert Closes(qs);
      } else {
        var s := Serve(EncodeAll(qs) + after, done, arr);
        assert s == Serve(EncodeAll(tail) + after, done + [Asked(q)], arr);
        SessionRoundTrip(tail, done + [Asked(q)], after, arr);
        SessionStep(s, qs, done, after, arr);
      }
    }
  }

  /** From the session behind the first query, which does not close it, to the whole. */
  lemma {:induction false} SessionStep(s: Session, qs: seq<seq<bytes>>, done: seq<Query>, after: bytes, arr: Arrivals)
    requires qs != [] && !Asked(qs[0]).close && |Through(qs[1..])| <= |qs| - 1
    requires var tail, served := qs[1..], done + [Asked(qs[0])];
      s == if Closes(tail) then Session(served + Through(tail), EncodeAll(tail[|Through(tail)|..]) + after, Closed)
           else Serve(after, served + Through(tail), arr)
    ensures |Through(qs)| <= |qs|
    ensures s == if Closes(qs) then Session(done + Through(qs), EncodeAll(qs[|Through(qs)|..]) + after, Closed)
                 else Serve(after, done + Through(qs), arr)
  {
    ClosesLater(qs);
    Assoc(done, [Asked(qs[0])], Through(qs[1..]));
    if Closes(qs) {
      Tails(qs, |Through(qs[1..])|);
    }
  }

  /** A client that stops after the query that closes leaves nothing unread. */
  lemma {:induction false} ClientAndServer(qs: seq<seq<bytes>>, arr: Arrivals)
    requires Steady(arr) && forall i :: 0 <= i < |qs| ==> Fits(qs[i])
    ensures |Through(qs)| <= |qs|
    ensures Serve(EncodeAll(qs[..|Through(qs)|]), [], arr) ==
      Session(Through(qs), [], if Closes(qs) then Closed else Exhausted)
  {
    ThroughFirstClose(qs);
    ThroughTwice(qs);
    AllServed(qs[..|Through(qs)|], arr);
  }

  lemma {:induction false} AllServed(qs: seq<seq<bytes>>, arr: Arrivals)
    requires Steady(arr) && forall i :: 0 <= i < |qs| ==> Fits(qs[i])
    requires |Through(qs)| == |qs|
    ensures Serve(EncodeAll(qs), [], arr) == Session(Through(qs), [], if Closes(qs) then Closed else Exhausted)
  {
    SteadySession(qs, 0, arr);
    SessionRoundTrip(qs, [], [], arr);
    assert EncodeAll(qs) + [] == EncodeAll(qs);
    assert [] + Through(qs) == Through(qs);
    assert EncodeAll(qs[|qs|..]) + [] == [];
  }

  lemma {:induction false} ThroughTwice(qs: seq<seq<bytes>>)
    ensures |Through(qs)| <= |qs|
    ensures Through(qs[..|Through(qs)|]) == Through(qs)
    ensures Closes(qs[..|Through(qs)|]) <==> Closes(qs)
    decreases |qs|
  {
    ThroughFirstClose(qs);
    if qs != [] {
      ThroughTwice(qs[1..]);
      assert qs[..|Through(qs)|][1..] == qs[1..][..|Through(qs)| - 1];
      assert Asked(qs[0]).close ==> qs[..1][1..] == [];
    }
    ThroughFirstClose(qs[..|Through(qs)|]);
  }

  // ---- the loops ----

  /** What the buffers hold, as strings. */
  function Strings(argv: seq<bytes>): (s: seq<bytes>)
    ensures |s| == |argv|
  {
    seq(|argv|, i requires 0 <= i < |argv| => CStr(argv[i]))
  }

  lemma {:induction false} StringsPush(argv: seq<bytes>, i: nat)
    requires i < |argv|
    ensures Strings(argv[..i + 1]) == Strings(argv[..i]) + [CStr(argv[i])]
  {
  }

  /** `struct redis_query` */
  class RedisQuery {
    var argc: nat
    var close: bool
    var shutdown: bool
    var argv: seq<bytes>

    ghost predicate Valid()
      reads this
    {
      |argv| == REDIS_MAX_ARGS && argc <= REDIS_MAX_ARGS && forall i :: 0 <= i < |argv| ==> |argv[i]| == REDIS_MAX_BULK
    }

    ghost function Value(): Query
      reads this
      requires Valid()
    {
      Query(Strings(argv[..argc]), close, shutdown)
    }

    constructor ()
      ensures Valid() && argc == 0 && !close && !shutdown
    {
      argc := 0;
      close := false;
      shutdown := false;
      argv := seq(REDIS_MAX_ARGS, _ => seq(REDIS_MAX_BULK, _ => 0));
    }

    /** The encode loop of the client. */
    method Send() returns (output: bytes)
      requires Valid()
      ensures output == Encode(Value().args)
    {
      ghost var args := Strings(argv[..argc]);
      ghost var head := ['*' as byte] + Dec(argc) + CRLF;
      output := ['*' as byte] + Dec(argc) + CRLF;
      var i := 0;
      while i < argc
        invariant i <= argc == |args| && output == head + EncodeArgs(args[..i])
      {
        var arg := argv[i];
        assert args[..i + 1][..i] == args[..i];
        CStrPlain(arg);
        CStrPlain(CStr(arg));
        Assoc(head, EncodeArgs(args[..i]), EncodeArg(args[i]));
        output := output + EncodeArg(arg);
        i := i + 1;
      }
      assert args[..i] == args;
    }

    /** One turn of the argument loop of the server, from position `pos`: length, bytes and line end. */
    method ReadArg(i: nat, input: bytes, pos: nat, arr: Arrivals) returns (failure: Option<Failure>, next: nat)
      requires Valid() && i < REDIS_MAX_ARGS && pos <= |input|
      modifies `argv
      ensures Valid() && argv[..i] == old(argv)[..i]
      ensures ParseArg(input, pos, arr) == if failure.Some? then NoArg(failure.value) else Arg(CStr(argv[i]), next)
    {
      next := LineAt(input, pos, arr);
      if next - pos > LINE_SIZE {
        return Some(Overrun(next - pos)), next;
      }
      if next == pos || input[pos] != '$' as byte {
        return Some(Raised(EPIPE)), next;
      }
      var len := Atoi(input, pos + 1, next, arr.At(|input| - pos).stale);
      failure, next := ReadBulk(i, input, next, len, arr);
    }

    /** The bulk read. Where it leaves the buffer nothing further is known of the memory. */
    method ReadBulk(i: nat, input: bytes, pos: nat, asked: int, arr: Arrivals)
      returns (failure: Option<Failure>, next: nat)
      requires Valid() && i < REDIS_MAX_ARGS && pos <= |input| && -0x8000_0000 <= asked
      modifies `argv
      ensures Valid() && argv[..i] == old(argv)[..i]
      ensures ParseBulk(input, pos, asked, arr) ==
              if failure.Some? then NoArg(failure.value) else Arg(CStr(argv[i]), next)
      ensures var n := Stored(input, pos, asked);
              n <= REDIS_MAX_BULK ==> argv[i][..n] == input[pos..pos + n]
    {
      var len := asked;
      if len >= REDIS_MAX_BULK {
        len := REDIS_MAX_BULK - 1;
      }
      var rc := Min(AsSize(len), |input| - pos);
      next := pos + rc;
      if rc > REDIS_MAX_BULK {
        return Some(Overrun(rc)), next;
      }
      ghost var data := input[pos..pos + rc];
      argv := argv[i := input[pos..pos + rc] + argv[i][rc..]];
      if rc != len {
        return Some(Raised(EPIPE)), next;
      }
      argv := argv[i := argv[i][..len] + [0] + argv[i][len + 1..]];
      CStrTerminated(data, argv[i][len + 1..]);
      assert argv[i] == data + [0] + argv[i][len + 1..];
      next := LineAt(input, pos + rc, arr);
      if next - (pos + rc) > LINE_SIZE {
        return Some(Overrun(next - (pos + rc))), next;
      }
      failure := if next == pos + rc then Some(Raised(EPIPE)) else None;
    }

    /** That turn, after `i` others. */
    method ReadNext(i: nat, input: bytes, pos: nat, arr: Arrivals) returns (failure: Option<Failure>, next: nat)
      requires Valid() && i < REDIS_MAX_ARGS && pos <= |input|
      requires ParseArgs(ArgAt(input, arr), i) == Args(Strings(argv[..i]), pos)
      modifies `argv
      ensures Valid()
      ensures ParseArgs(ArgAt(input, arr), i + 1) ==
              if failure.Some? then NoArgs(failure.value) else Args(Strings(argv[..i + 1]), next)
      ensures failure.None? ==> next <= |input|
    {
      ghost var values := Strings(argv[..i]);
      failure, next := ReadArg(i, input, pos, arr);
      if failure.None? {
        StringsPush(argv, i);
      }
    }

    /** The argument loop. */
    method ReadArgs(input: bytes, arr: Arrivals) returns (failure: Option<Failure>, pos: nat)
      requires Valid()
      modifies `argv
      ensures Valid()
      ensures ParseArgs(ArgAt(input, arr), argc) ==
              if failure.Some? then NoArgs(failure.value) else Args(Strings(argv[..argc]), pos)
    {
      pos := 0;
      var i := 0;
      while i < argc
        invariant Valid() && i <= argc && pos <= |input|
        invariant ParseArgs(ArgAt(input, arr), i) == Args(Strings(argv[..i]), pos)
      {
        failure, pos := ReadNext(i, input, pos, arr);
        i := i + 1;
        if failure.Some? {
          FailureStays(ArgAt(input, arr), i, argc);
          return;
        }
      }
      failure := None;
    }

    /** What follows the first line of a query. */
    method ReadBody(input: bytes, arr: Arrivals) returns (failure: Option<Failure>, rest: bytes)
      requires Valid()
      modifies `argv
      ensures Valid()
      ensures ParseBody(input, argc, arr) ==
              if failure.Some? then Unparsed(failure.value) else Parsed(Strings(argv[..argc]), rest)
    {
      var pos;
      failure, pos := ReadArgs(input, arr);
      rest := if failure.Some? then [] else input[pos..];
    }

    /** One query of the server loop, up to the flags it sets. */
    method ReadQuery(input: bytes, arr: Arrivals) returns (failure: Option<Failure>, rest: bytes)
      requires Valid() && input != []
      modifies this
      ensures Valid()
      ensures match ParseQuery(input, arr)
              case Parsed(args, more) => failure == None && rest == more && Value() == Asked(args)
              case Unparsed(why) => failure == Some(why)
    {
      close := false;
      var line := ReadLine(input, LINE_MAX, arr.At(|input|));
      if |line.text| + 1 > LINE_SIZE {
        return Some(Overrun(|line.text| + 1)), input;
      }
      if line.text[0] != '*' as byte {
        return Some(Raised(EINVAL)), input;
      }
      var count := Atoi(line.text, 1, |line.text|, []);
      if count <= 0 || count > REDIS_MAX_ARGS {
        return Some(Raised(EINVAL)), input;
      }
      argc := count;
      failure, rest := ReadBody(line.rest, arr);
      if failure.None? {
        SetFlags();
      }
    }

    /** The server loop, over everything that the client sent. */
    method ServeAll(input: bytes, arr: Arrivals) returns (session: Session)
      requires Valid()
      modifies this
      ensures Valid() && session == Serve(input, [], arr)
    {
      var rest := input;
      var queries: seq<Query> := [];
      while rest != []
        invariant Valid() && Serve(rest, queries, arr) == Serve(input, [], arr)
        decreases |rest|
      {
        var failure, more := ReadQuery(rest, arr);
        if failure.Some? {
          return Session(queries, rest, Failed(failure.value));
        }
        var query := Query(Strings(argv[..argc]), close, shutdown);
        queries := queries + [query];
        if close {
          return Session(queries, more, Closed);
        }
        rest := more;
      }
      session := Session(queries, [], Exhausted);
    }

    /** The comparisons with `SHUTDOWN` and `QUIT`. */
    method SetFlags()
      requires Valid()
      modifies `close, `shutdown
      ensures Valid() && Value() == Asked(Strings(argv[..argc]))
    {
      shutdown := false;
      close := false;
      if argc > 0 {
        var first := CStr(argv[0]);
        assert Strings(argv[..argc])[0] == first;
        if SameLetters(first, SHUTDOWN) {
          shutdown := true;
          close := true;
        } else if SameLetters(first, QUIT) {
          close := true;
        }
      }
    }
  }
}
