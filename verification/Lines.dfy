/**
 Reading a stream line by line: the passes of `vk_socket_readline` over what is buffered each time, and
 the ends that a read can come to.
 */
module Lines {
  import opened Machine
  import opened Newline

  const CRLF: bytes := [CR, LF]

  /** A failure of a reader: an error raised, or `stored` bytes written through a buffer's end. */
  datatype Failure = Raised(errno: nat) | Overrun(stored: nat)

  // ---- the first line ----

  /** Where the first line from `i` on ends, complete or not. */
  function LineFrom(s: bytes, i: nat): (n: nat)
    requires i <= |s|
    ensures i <= n <= |s| && (i < |s| ==> i < n)
    decreases |s| - i
  {
    if i == |s| then i else if s[i] == LF then i + 1 else LineFrom(s, i + 1)
  }

  /** That line has its newline. */
  predicate HasEnd(s: bytes, i: nat)
    requires i <= |s|
  {
    LineFrom(s, i) > i && s[LineFrom(s, i) - 1] == LF
  }

  lemma {:induction false} LineFromStops(s: bytes, i: nat, n: nat)
    requires i <= n < |s| && s[n] == LF && NoNewline(s, i, n)
    ensures LineFrom(s, i) == n + 1
    decreases n - i
  {
    if i < n {
      LineFromStops(s, i + 1, n);
    }
  }

  lemma {:induction false} LineFromBefore(s: bytes, i: nat, n: nat)
    requires i <= n < |s| && s[n] == LF
    ensures LineFrom(s, i) <= n + 1
    decreases n - i
  {
    if i < n && s[i] != LF {
      LineFromBefore(s, i + 1, n);
    }
  }

  lemma {:induction false} LineFromEnds(s: bytes, i: nat)
    requires i <= |s| && NoNewline(s, i, |s|)
    ensures LineFrom(s, i) == |s|
    decreases |s| - i
  {
    if i < |s| {
      LineFromEnds(s, i + 1);
    }
  }

  /** It is at least as long as what has no newline. */
  lemma {:induction false} LineFromBeyond(s: bytes, i: nat, n: nat)
    requires i <= n <= |s| && NoNewline(s, i, n)
    ensures LineFrom(s, i) >= n && (n < |s| ==> LineFrom(s, i) > n)
    decreases n - i
  {
    if i < n {
      LineFromBeyond(s, i + 1, n);
    }
  }

  /** Before its last byte there is no newline. */
  lemma {:induction false} LineFromPlain(s: bytes, i: nat)
    requires i <= |s|
    ensures HasEnd(s, i) ==> NoNewline(s, i, LineFrom(s, i) - 1)
    ensures !HasEnd(s, i) ==> LineFrom(s, i) == |s| && NoNewline(s, i, |s|)
    decreases |s| - i
  {
    if i < |s| && s[i] != LF {
      LineFromPlain(s, i + 1);
    }
  }

  /** This is the line that the newline scan finds. */
  lemma {:induction false} LineFromIsFirstLine(s: bytes)
    ensures LineFrom(s, 0) == FirstLine(s, |s|) && (HasEnd(s, 0) <==> LF in s)
  {
    if LF in s {
      LineFromStops(s, 0, LineLen(s) - 1);
    } else {
      LineFromEnds(s, 0);
    }
  }

  // ---- the passes of a read ----

  /**
   Where a read stands: over, because its room is used up or the stream has hung up; over, because the
   byte behind the advanced pointer happens to be a newline; or waiting for more bytes.
   */
  datatype Reading = Done(taken: nat) | Stopped(taken: nat) | Waiting(taken: nat, room: nat)

  /**
   The test for a read newline indexes the buffer pointer, which each pass advances, by the count of
   bytes read: it looks at byte `2 * taken - 1` of the memory from the buffer on, which still holds what
   it held before the read.
   */
  predicate Stale(mem: bytes, taken: nat) {
    0 < taken && 2 * taken - 1 < |mem| && mem[2 * taken - 1] == LF
  }

  /**
   The loop of `vk_socket_readline` on the stream `s`, of which `taken` bytes are read and `room` more
   are asked for, when `seen[k]` bytes of the rest are buffered at the `k`th pass from here on.
   */
  function Passes(s: bytes, mem: bytes, room: nat, taken: nat, seen: seq<nat>): Reading
    requires taken <= |s|
    decreases |seen|
  {
    if room == 0 || taken == |s| then Done(taken)
    else if Stale(mem, taken) then Stopped(taken)
    else if seen == [] then Waiting(taken, room)
    else
      var buffered := s[taken..Min(taken + seen[0], |s|)];
      var n := PassStores(buffered, room);
      Passes(s, mem, FirstLine(buffered, room) - n, taken + n, seen[1..])
  }

  /**
   How the bytes of one read arrive: whether its newline is buffered only after the room is used up;
   after how many bytes the read stops at a stale newline, if it does; and what the memory behind the
   text holds.
   */
  datatype Arrival = Arrival(late: bool, stop: nat, stale: bytes)

  /** The arrivals of the reads of a stream, by how many bytes before its end they start. */
  datatype Arrivals = Arrivals(known: seq<Arrival>, other: Arrival) {
    function At(n: int): Arrival {
      if 0 <= n < |known| then known[n] else other
    }
  }

  /** The read of the line from `pos` on stops early. */
  predicate Stops(s: bytes, pos: nat, max: nat, a: Arrival)
    requires pos <= |s|
  {
    0 < a.stop < max && pos + a.stop < LineFrom(s, pos)
  }

  /** The bytes that a read of `max` bytes may take; a line that is buffered in time is not limited by `max`. */
  function Limit(s: bytes, pos: nat, max: nat, a: Arrival): nat
    requires pos <= |s|
  {
    if 0 < a.stop < max then a.stop else if a.late || max == 0 || !HasEnd(s, pos) then max else |s|
  }

  /** Where a read of `max` bytes from `pos` ends. */
  function LineEnd(s: bytes, pos: nat, max: nat, a: Arrival): (end: nat)
    requires pos <= |s|
    ensures pos <= end <= LineFrom(s, pos) && (pos < |s| && max > 0 ==> pos < end)
  {
    Min(pos + Limit(s, pos, max, a), LineFrom(s, pos))
  }

  /** A read with `taken` bytes of a line ends in the pass that finds the newline buffered. */
  lemma {:induction false} LastPass(s: bytes, mem: bytes, max: nat, taken: nat, seen: seq<nat>)
    requires taken < |s| && taken < max && NoNewline(s, 0, taken) && !Stale(mem, taken) && seen != []
    requires LF in s[taken..Min(taken + seen[0], |s|)]
    ensures Passes(s, mem, max - taken, taken, seen) == Done(LineFrom(s, 0)) && HasEnd(s, 0)
  {
    PassOfLine(s, taken, |s[taken..Min(taken + seen[0], |s|)]|);
  }

  /** Another pass takes what is buffered, as far as there is room. */
  lemma {:induction false} PlainPass(s: bytes, mem: bytes, max: nat, taken: nat, seen: seq<nat>)
    requires taken < |s| && taken < max && NoNewline(s, 0, taken) && !Stale(mem, taken) && seen != []
    requires LF !in s[taken..Min(taken + seen[0], |s|)]
    ensures var n := taken + Min(max - taken, Min(taken + seen[0], |s|) - taken);
      n <= |s| && n <= max && NoNewline(s, 0, n)
      && Passes(s, mem, max - taken, taken, seen) == Passes(s, mem, max - n, n, seen[1..])
  {
    var b := s[taken..Min(taken + seen[0], |s|)];
    assert forall k :: 0 <= k < |b| ==> b[k] == s[taken + k];
  }

  /** The arrival of a read that stands at `taken` bytes without a newline and goes no further. */
  lemma {:induction false} Ending(s: bytes, max: nat, taken: nat) returns (a: Arrival)
    requires taken <= |s| && taken <= max && NoNewline(s, 0, taken)
    ensures taken == max || taken == |s| ==> LineEnd(s, 0, max, a) == taken
    ensures 0 < taken < max && taken < |s| ==> LineEnd(s, 0, max, a) == taken && Stops(s, 0, max, a)
  {
    LineFromBeyond(s, 0, taken);
    a := if taken == max || taken == |s| then Arrival(true, 0, []) else Arrival(false, taken, []);
  }

  /** From bytes without a newline on, a read ends as `LineEnd` says. */
  lemma {:induction false} PassesEnd(s: bytes, mem: bytes, max: nat, taken: nat, seen: seq<nat>) returns (a: Arrival)
    requires taken <= |s| && taken <= max && NoNewline(s, 0, taken)
    ensures EndsAs(Passes(s, mem, max - taken, taken, seen), s, mem, max, a)
    decreases |seen|
  {
    if taken == max || taken == |s| || Stale(mem, taken) {
      a := Ending(s, max, taken);
    } else if seen == [] {
      a := Arrival(false, 0, []);
    } else if LF in s[taken..Min(taken + seen[0], |s|)] {
      a := LastEnds(s, mem, max, taken, seen);
    } else {
      PlainPass(s, mem, max, taken, seen);
      a := PassesEnd(s, mem, max, taken + Min(max - taken, Min(taken + seen[0], |s|) - taken), seen[1..]);
    }
  }

  lemma {:induction false} LastEnds(s: bytes, mem: bytes, max: nat, taken: nat, seen: seq<nat>) returns (a: Arrival)
    requires taken < |s| && taken < max && NoNewline(s, 0, taken) && !Stale(mem, taken) && seen != []
    requires LF in s[taken..Min(taken + seen[0], |s|)]
    ensures EndsAs(Passes(s, mem, max - taken, taken, seen), s, mem, max, a)
  {
    LastPass(s, mem, max, taken, seen);
    a := Arrival(false, 0, []);
  }

  /** A read that is over has ended where one that arrives as `a` ends. */
  predicate EndsAs(r: Reading, s: bytes, mem: bytes, max: nat, a: Arrival) {
    r.Waiting? || (r.taken == LineEnd(s, 0, max, a) && (r.Stopped? ==> Stale(mem, r.taken) && Stops(s, 0, max, a)))
  }

  lemma {:induction false} PassOfLine(s: bytes, taken: nat, n: nat)
    requires taken + n <= |s| && NoNewline(s, 0, taken) && LF in s[taken..taken + n]
    ensures var len := LineLen(s[taken..taken + n]);
      LineFrom(s, 0) == taken + len && s[taken + len - 1] == LF
  {
    var b := s[taken..taken + n];
    assert forall k :: 0 <= k < n ==> b[k] == s[taken + k];
    LineFromStops(s, 0, taken + LineLen(b) - 1);
  }

  /** Whatever arrives when, a read that is over has ended as `LineEnd` says for some arrival. */
  lemma {:induction false} ReadEnds(s: bytes, mem: bytes, max: nat, seen: seq<nat>) returns (a: Arrival)
    ensures EndsAs(Passes(s, mem, max, 0, seen), s, mem, max, a)
  {
    a := PassesEnd(s, mem, max, 0, seen);
  }

  /** And each of these ends is one that a read can come to, in one pass. */
  lemma {:induction false} EndHappens(s: bytes, max: nat, a: Arrival) returns (mem: bytes)
    ensures var r := Passes(s, mem, max, 0, [LineEnd(s, 0, max, a)]);
      !r.Waiting? && r.taken == LineEnd(s, 0, max, a)
    ensures mem != [] ==> Stops(s, 0, max, a)
  {
    var end := LineEnd(s, 0, max, a);
    mem := if Stops(s, 0, max, a) then seq(2 * end, k => LF) else [];
    LineFromPlain(s, 0);
    if max > 0 && s != [] {
      if LF in s[0..Min(0 + end, |s|)] {
        LastPass(s, mem, max, 0, [end]);
      } else {
        PlainPass(s, mem, max, 0, [end]);
      }
    }
  }

  /**
   What a read stores fits a buffer of `size` bytes if and only if it stops early, or its newline is late,
   or the line is no longer than the buffer.
   */
  lemma {:induction false} ReadInsideIff(s: bytes, pos: nat, max: nat, size: nat, a: Arrival)
    requires pos <= |s| && 0 < max <= size
    ensures LineEnd(s, pos, max, a) - pos <= size <==>
            Stops(s, pos, max, a) || a.late || !HasEnd(s, pos) || LineFrom(s, pos) - pos <= size
  {
  }

  // ---- whole lines ----

  datatype Line = Line(text: bytes, rest: bytes)

  /** Read one line, newline included. */
  function ReadLine(input: bytes, max: nat, a: Arrival): (r: Line)
    ensures |r.text| + |r.rest| == |input|
    ensures input != [] && max > 0 ==> r.text != []
  {
    var n := LineEnd(input, 0, max, a);
    Line(input[..n], input[n..])
  }

  /** The first line of `s + [LF] + t`, however it arrives. */
  lemma {:induction false} ReadLineOf(s: bytes, t: bytes, max: nat, a: Arrival)
    requires LF !in s && max > 0
    ensures ReadLine(s + [LF] + t, max, a) ==
      if 0 < a.stop < max && a.stop <= |s| then Line(s[..a.stop], s[a.stop..] + [LF] + t)
      else if !a.late || |s| < max then Line(s + [LF], t)
      else Line(s[..max], s[max..] + [LF] + t)
  {
    var u := s + [LF] + t;
    LineFromAt(s, t);
    var n := LineEnd(u, 0, max, a);
    if n == |s| + 1 {
      assert u[..n] == s + [LF] && u[n..] == t;
    } else {
      assert u[..n] == s[..n] && u[n..] == s[n..] + [LF] + t;
    }
  }

  lemma {:induction false} LineFromAt(s: bytes, t: bytes)
    requires LF !in s
    ensures LineFrom(s + [LF] + t, 0) == |s| + 1 && HasEnd(s + [LF] + t, 0)
  {
    var u := s + [LF] + t;
    assert forall k :: 0 <= k < |s| ==> s[k] in s && u[k] == s[k];
    LineFromStops(u, 0, |s|);
  }

  /** No read stops early. */
  ghost predicate Steady(arr: Arrivals) {
    forall n :: arr.At(n).stop == 0
  }

  /** A read that asks for a line of `len` bytes does not stop before its end. */
  predicate Whole(a: Arrival, len: nat) {
    a.stop == 0 || a.stop >= len
  }

  lemma {:induction false} Assoc<T>(a: seq<T>, b: seq<T>, c: seq<T>)
    ensures a + b + c == a + (b + c)
  {
  }

  lemma {:induction false} Tails<T>(s: seq<T>, n: nat)
    requires s != [] && n < |s|
    ensures s[n + 1..] == s[1..][n..]
  {
  }

  lemma {:induction false} SnocIs<T>(xs: seq<T>, x: T, ys: seq<T>, y: T)
    ensures xs + [x] == ys + [y] <==> xs == ys && x == y
  {
    assert (xs + [x])[..|xs|] == xs && (xs + [x])[|xs|] == x;
    assert (ys + [y])[..|ys|] == ys && (ys + [y])[|ys|] == y;
  }

  lemma {:induction false} Back<T>(s: seq<T>)
    requires s != []
    ensures s[..|s| - 1] + [s[|s| - 1]] == s
  {
  }
}
