/**
 What the parser makes of queries that are malformed or cut off, how a session ends, and which commands end it.
 */
module RespErrors {
  import opened Machine
  import opened Newline
  import opened Lines
  import opened Resp

  // ---- commands ----

  /** The first argument is that word, in letters of any case. */
  predicate Says(args: seq<bytes>, word: bytes) {
    && args != [] && |args[0]| == |word|
    && forall k :: 0 <= k < |word| ==>
         args[0][k] == word[k] || ('a' as byte <= word[k] <= 'z' as byte && args[0][k] == word[k] - 32)
  }

  /** `quit` closes the session, and `shutdown` the server with it. */
  lemma {:induction false} AskedIs(args: seq<bytes>)
    ensures Asked(args).args == args
    ensures Asked(args).close <==> Says(args, QUIT) || Says(args, SHUTDOWN)
    ensures Asked(args).shutdown <==> Says(args, SHUTDOWN)
  {
    if args != [] {
      LettersAre(args, QUIT);
      LettersAre(args, SHUTDOWN);
    }
  }

  lemma {:induction false} LettersAre(args: seq<bytes>, word: bytes)
    requires args != [] && forall k :: 0 <= k < |word| ==> 'a' as byte <= word[k] <= 'z' as byte
    ensures SameLetters(args[0], word) <==> Says(args, word)
  {
  }

  // ---- sessions ----

  /** How a session may end that had served `done` queries: only its last query closes it, if any does. */
  ghost predicate EndsRight(r: Session, done: nat, arr: Arrivals) {
    && done <= |r.queries|
    && (forall i :: done <= i < |r.queries| ==> r.queries[i].close ==> i == |r.queries| - 1 && r.end == Closed)
    && match r.end
       case Exhausted => r.rest == []
       case Failed(why) => r.rest != [] && ParseQuery(r.rest, arr) == Unparsed(why)
       case Closed => done < |r.queries| && r.queries[|r.queries| - 1].close
  }

  /** A session ends at the end of its input, at a query that is refused, or behind one that closes it. */
  lemma {:induction false} ServeEnds(input: bytes, done: seq<Query>, arr: Arrivals)
    ensures var r := Serve(input, done, arr); done <= r.queries && EndsRight(r, |done|, arr)
    decreases |input|
  {
    if input != [] {
      match ParseQuery(input, arr)
      case Unparsed(_) =>
      case Parsed(args, rest) =>
        if !Asked(args).close {
          ServeEnds(rest, done + [Asked(args)], arr);
          OneServed(Serve(rest, done + [Asked(args)], arr), done, Asked(args), arr);
        }
    }
  }

  lemma {:induction false} OneServed(r: Session, done: seq<Query>, q: Query, arr: Arrivals)
    requires !q.close && done + [q] <= r.queries && EndsRight(r, |done| + 1, arr)
    ensures done <= r.queries && EndsRight(r, |done|, arr)
  {
    assert r.queries[|done|] == (done + [q])[|done|];
  }

  // ---- first lines ----

  /** A query that does not start with a star is refused. */
  lemma {:induction false} StarNeeded(input: bytes, arr: Arrivals)
    requires input != [] && input[0] != '*' as byte
    ensures var r := ParseQuery(input, arr); r.Unparsed? && (r.why == Raised(EINVAL) || r.why.Overrun?)
  {
    assert ReadLine(input, LINE_MAX, arr.At(|input|)).text[0] == input[0];
  }

  /** So is one that announces no argument, or more than the query holds. */
  lemma {:induction false} CountRefused(n: nat, after: bytes, arr: Arrivals)
    requires n < 1000 && arr.At(|Dec(n)| + 3 + |after|).stop == 0
    ensures var c := ReadCount(['*' as byte] + Dec(n) + CRLF + after, arr);
      c == if 0 < n <= REDIS_MAX_ARGS then Count(n, after) else NoCount(Raised(EINVAL))
  {
    var t := ['*' as byte] + Dec(n) + [CR];
    var line := ['*' as byte] + Dec(n) + CRLF;
    DecShort(n);
    DecPlain(n);
    assert line == t + [LF];
    ReadLineOf(t, after, LINE_MAX, arr.At(|line + after|));
    NumberLine(line, 0, '*' as byte, n, []);
  }

  lemma {:induction false} DecPlain(n: nat)
    ensures LF !in Dec(n)
  {
    assert forall c :: c in Dec(n) ==> IsDigit(c);
  }

  // ---- queries that are cut off ----

  /** The text from `i` on is `e`, as far as it goes. */
  predicate CutAt(s: bytes, pos: nat, e: bytes) {
    pos <= |s| <= pos + |e| && forall k :: pos <= k < |s| ==> s[k] == e[k - pos]
  }

  /** The header is cut off: nothing follows, and what is read of it does not matter. */
  lemma {:induction false} CutHeader(s: bytes, pos: nat, arr: Arrivals)
    requires pos < |s| <= pos + 5 && s[pos] == '$' as byte && NoNewline(s, pos, |s|) && arr.At(|s| - pos).stop == 0
    ensures ParseArg(s, pos, arr) == NoArg(Raised(EPIPE))
  {
    LineFromEnds(s, pos);
    HeaderTo(s, pos, |s|, arr);
  }

  /** The header is there, but not all of its bulk. */
  lemma {:induction false} CutBulk(s: bytes, pos: nat, a: bytes, arr: Arrivals)
    requires Storable(a) && CutAt(s, pos, a + CRLF) && |s| < pos + |a| + 2 && arr.At(|s| - pos - |a|).stop == 0
    ensures ParseBulk(s, pos, |a|, arr) ==
            if |s| == pos + |a| + 1 then Arg(a, |s|) else NoArg(Raised(EPIPE))
  {
    CStrPlain(a);
    if |s| == pos + |a| + 1 {
      assert s[pos + |a|] == (a + CRLF)[|a|] == CR;
      assert s[pos..pos + |a|] == a;
      LineFromEnds(s, pos + |a|);
    }
  }

  /** Of an encoded argument only the last byte may be missing. */
  lemma {:induction false} CutArg(s: bytes, pos: nat, a: bytes, arr: Arrivals)
    requires Storable(a) && CutAt(s, pos, EncodeArg(a)) && |s| < pos + |EncodeArg(a)| && Steady(arr)
    ensures ParseArg(s, pos, arr) ==
            if |s| + 1 == pos + |EncodeArg(a)| then Arg(a, |s|) else NoArg(Raised(EPIPE))
  {
    var head := CutArgParts(s, pos, a);
    CutArgAt(s, pos, a, head, arr);
  }

  lemma {:induction false} CutArgAt(s: bytes, pos: nat, a: bytes, head: nat, arr: Arrivals)
    requires Storable(a) && pos <= |s| < pos + head + |a| + 2 && head == |Dec(|a|)| + 3 <= 6 && Steady(arr)
    requires if |s| < pos + head then CutAt(s, pos, ['$' as byte] + Dec(|a|) + CRLF)
             else At(s, pos, ['$' as byte] + Dec(|a|) + CRLF) && CutAt(s, pos + head, a + CRLF)
    ensures ParseArg(s, pos, arr) ==
            if |s| + 1 == pos + head + |a| + 2 then Arg(a, |s|) else NoArg(Raised(EPIPE))
  {
    if |s| < pos + head {
      if pos < |s| {
        PlainHeader(s, pos, a);
        CutHeader(s, pos, arr);
      }
    } else {
      WholeHeader(s, pos, a, arr);
      CutBulk(s, pos + head, a, arr);
    }
  }

  lemma {:induction false} CutArgParts(s: bytes, pos: nat, a: bytes) returns (head: nat)
    requires Storable(a) && CutAt(s, pos, EncodeArg(a))
    ensures head == |Dec(|a|)| + 3 <= 6 && |EncodeArg(a)| == head + |a| + 2
    ensures if |s| < pos + head then CutAt(s, pos, ['$' as byte] + Dec(|a|) + CRLF)
            else At(s, pos, ['$' as byte] + Dec(|a|) + CRLF) && CutAt(s, pos + head, a + CRLF)
  {
    var line := ['$' as byte] + Dec(|a|) + CRLF;
    head := |line|;
    ArgLength(a);
    Assoc(line, a, CRLF);
    CutParts(s, pos, line, a + CRLF);
  }

  lemma {:induction false} CutParts(s: bytes, pos: nat, d: bytes, e: bytes)
    requires CutAt(s, pos, d + e)
    ensures if |s| < pos + |d| then CutAt(s, pos, d) else At(s, pos, d) && CutAt(s, pos + |d|, e)
  {
    forall k | pos <= k < |s|
      ensures k < pos + |d| ==> s[k] == d[k - pos]
      ensures k >= pos + |d| ==> s[k] == e[k - pos - |d|]
    {
    }
    if |s| >= pos + |d| {
      forall k | 0 <= k < |d|
        ensures s[pos + k] == d[k]
      {
        assert s[pos + k] == (d + e)[k];
      }
    }
  }

  /** What there is of the header has no line end. */
  lemma {:induction false} PlainHeader(s: bytes, pos: nat, a: bytes)
    requires CutAt(s, pos, ['$' as byte] + Dec(|a|) + CRLF) && pos < |s| < pos + |Dec(|a|)| + 3
    ensures s[pos] == '$' as byte && NoNewline(s, pos, |s|)
  {
    var head := ['$' as byte] + Dec(|a|) + CRLF;
    DecPlain(|a|);
    assert head == ['$' as byte] + Dec(|a|) + [CR] + [LF];
    forall k | pos <= k < |s|
      ensures s[k] != LF
    {
      assert s[k] == head[k - pos];
      assert 0 < k - pos <= |Dec(|a|)| ==> head[k - pos] == Dec(|a|)[k - pos - 1];
    }
  }

  lemma {:induction false} WholeHeader(s: bytes, pos: nat, a: bytes, arr: Arrivals)
    requires Storable(a) && At(s, pos, ['$' as byte] + Dec(|a|) + CRLF) && Steady(arr)
    ensures var mid := pos + |Dec(|a|)| + 3; mid <= |s| && ParseArg(s, pos, arr) == ParseBulk(s, mid, |a|, arr)
  {
    var mid := pos + |Dec(|a|)| + 3;
    ArgLength(a);
    NumberLine(s, pos, '$' as byte, |a|, arr.At(|s| - pos).stale);
    WholeLine(s, pos, |Dec(|a|)| + 3, arr);
    HeaderTo(s, pos, mid, arr);
  }

  /** How `f` reads encoded arguments of `s`, and what is left of one at its end. */
  ghost predicate CutReads(f: nat -> Arg, s: bytes) {
    forall pos: nat, a: bytes :: Storable(a) && pos <= |s| ==> CutReadsArg(f, s, pos, a)
  }

  ghost predicate CutReadsArg(f: nat -> Arg, s: bytes, pos: nat, a: bytes)
    requires pos <= |s|
  {
    var end := pos + |EncodeArg(a)|;
    && (At(s, pos, EncodeArg(a)) ==> f(pos) == Arg(a, end))
    && (CutAt(s, pos, EncodeArg(a)) && |s| < end ==>
          f(pos) == if |s| + 1 == end then Arg(a, |s|) else NoArg(Raised(EPIPE)))
  }

  lemma {:induction false} ParserReadsCut(s: bytes, arr: Arrivals)
    requires Steady(arr)
    ensures CutReads(ArgAt(s, arr), s)
  {
    forall pos: nat, a: bytes | Storable(a) && pos <= |s|
      ensures CutReadsArg(ArgAt(s, arr), s, pos, a)
    {
      ArgLength(a);
      if At(s, pos, EncodeArg(a)) {
        ParseEncodedArg(s, pos, a, arr);
      }
      if CutAt(s, pos, EncodeArg(a)) && |s| < pos + |EncodeArg(a)| {
        CutArg(s, pos, a, arr);
      }
    }
  }

  /** `s` and `e` begin with the same bytes, as far as both go. */
  predicate Agree(s: bytes, e: bytes) {
    forall k :: 0 <= k < |s| && k < |e| ==> s[k] == e[k]
  }

  /** What is left of encoded arguments reads as all of them if at most the last byte is missing. */
  function CutArgsRead(s: bytes, args: seq<bytes>): Args {
    var end := |EncodeArgs(args)|;
    if |s| >= end then Args(args, end)
    else if |s| + 1 == end then Args(args, |s|)
    else NoArgs(Raised(EPIPE))
  }

  lemma {:induction false} CutArgs(f: nat -> Arg, s: bytes, args: seq<bytes>)
    requires CutReads(f, s) && (forall a :: a in args ==> Storable(a)) && Agree(s, EncodeArgs(args))
    ensures ParseArgs(f, |args|) == CutArgsRead(s, args)
    decreases |args|
  {
    if args != [] {
      var init, a := args[..|args| - 1], args[|args| - 1];
      LastOf(args);
      AgreeParts(s, EncodeArgs(init), EncodeArg(a));
      CutArgs(f, s, init);
      CutLast(f, s, init, a, args);
    }
  }

  lemma {:induction false} AgreeParts(s: bytes, d: bytes, e: bytes)
    requires Agree(s, d + e)
    ensures Agree(s, d)
    ensures |s| >= |d| + |e| ==> At(s, |d|, e)
    ensures |d| <= |s| <= |d| + |e| ==> CutAt(s, |d|, e)
  {
    forall k | 0 <= k < |s| && k < |d| + |e|
      ensures k < |d| ==> s[k] == d[k]
      ensures k >= |d| ==> s[k] == e[k - |d|]
    {
      assert s[k] == (d + e)[k];
    }
  }

  lemma {:induction false} CutLast(f: nat -> Arg, s: bytes, init: seq<bytes>, a: bytes, args: seq<bytes>)
    requires CutReads(f, s) && Storable(a) && args == init + [a]
    requires EncodeArgs(args) == EncodeArgs(init) + EncodeArg(a)
    requires var start, end := |EncodeArgs(init)|, |EncodeArgs(args)|;
      && (|s| >= end ==> At(s, start, EncodeArg(a)))
      && (start <= |s| <= end ==> CutAt(s, start, EncodeArg(a)))
    ensures Next(f, CutArgsRead(s, init)) == CutArgsRead(s, args)
  {
    var start := |EncodeArgs(init)|;
    ArgLength(a);
    if |s| >= start {
      assert CutReadsArg(f, s, start, a);
    } else if |s| + 1 == start {
      assert CutReadsArg(f, s, |s|, a);
    }
  }

  /**
   Over all queries: cut off anywhere before its last byte a query is refused; only the last byte may be
   missing.
   */
  lemma {:induction false} CutQuery(args: seq<bytes>, k: nat, arr: Arrivals)
    requires Fits(args) && Steady(arr) && 0 < k < |Encode(args)|
    ensures var r := ParseQuery(Encode(args)[..k], arr);
      if k + 1 < |Encode(args)| then r.Unparsed? else r == Parsed(args, [])
  {
    var line := ['*' as byte] + Dec(|args|) + CRLF;
    var e := EncodeArgs(args);
    assert Encode(args) == line + e;
    SomeArgs(args);
    if k < |line| {
      assert (line + e)[..k] == line[..k];
      CutCount(line, |args|, k, arr);
    } else {
      var s := e[..k - |line|];
      assert (line + e)[..k] == line + s;
      CountRefused(|args|, s, arr);
      CutBody(s, args, arr);
    }
  }

  lemma {:induction false} SomeArgs(args: seq<bytes>)
    requires Fits(args)
    ensures |EncodeArgs(args)| >= 5
  {
    LastOf(args);
    assert args[|args| - 1] in args;
    ArgLength(args[|args| - 1]);
  }

  lemma {:induction false} CutBody(s: bytes, args: seq<bytes>, arr: Arrivals)
    requires Fits(args) && Steady(arr) && |s| < |EncodeArgs(args)| && s == EncodeArgs(args)[..|s|]
    ensures ParseBody(s, |args|, arr) ==
            if |s| + 1 < |EncodeArgs(args)| then Unparsed(Raised(EPIPE)) else Parsed(args, [])
  {
    ParserReadsCut(s, arr);
    CutArgs(ArgAt(s, arr), s, args);
    ArgsInside(s, |args|, arr);
    assert s[|s|..] == [];
  }

  /** Of the first line something is missing: nothing follows it, so no argument is read. */
  lemma {:induction false} CutCount(line: bytes, n: nat, k: nat, arr: Arrivals)
    requires line == ['*' as byte] + Dec(n) + CRLF && n < 1000 && 0 < k < |line| && Steady(arr)
    ensures ParseQuery(line[..k], arr).Unparsed?
  {
    var s := line[..k];
    DecShort(n);
    DecPlain(n);
    assert line == ['*' as byte] + Dec(n) + [CR] + [LF];
    assert LF !in s;
    var c := ReadCount(s, arr);
    LineFromEnds(s, 0);
    if c.Count? {
      assert c.rest == [];
      NoneRead([], c.argc, arr);
    }
  }

  lemma {:induction false} NoneRead(s: bytes, n: nat, arr: Arrivals)
    requires s == [] && n > 0
    ensures ParseBody(s, n, arr).Unparsed?
  {
    NoneParsed(ArgAt(s, arr), n);
    ArgsInside(s, n, arr);
  }

  lemma {:induction false} NoneParsed(f: nat -> Arg, n: nat)
    requires n > 0 && f(0).NoArg?
    ensures ParseArgs(f, n).NoArgs?
  {
    if n > 1 {
      NoneParsed(f, n - 1);
    } else {
      assert ParseArgs(f, 0) == Args([], 0);
    }
  }
}
