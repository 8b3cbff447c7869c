/**
 The hexadecimal conversions of `vk_rfc.c`: digit values without branches, the digit count by
 find-last-set, and the loops over 64-bit sizes.
 */
module Hex {
  import opened Machine
  import opened Newline
  import opened WrapGuard

  const BIT_60: nat := 0x1000_0000_0000_0000
  const BIT_61: nat := 0x2000_0000_0000_0000

  // ---- powers and digits ----

  function Pow16(k: nat): (p: nat)
    ensures p >= 1
  {
    if k == 0 then 1 else 16 * Pow16(k - 1)
  }

  /** Shifting by one digit and then by more is shifting once; the low digit is what the first shift drops. */
  lemma {:induction false} ShiftStep(n: nat, k: nat)
    requires k > 0
    ensures n / Pow16(k) == (n / 16) / Pow16(k - 1)
    ensures n % Pow16(k) == 16 * ((n / 16) % Pow16(k - 1)) + n % 16
  {
    var p := Pow16(k - 1);
    var a, r := n / 16, n % 16;
    var q, c := a / p, a % p;
    assert n == 16 * (p * q + c) + r;
    assert n == q * (16 * p) + (16 * c + r);
    DivUnique(n, 16 * p, q, 16 * c + r);
  }

  lemma {:induction false} Pow16Split(j: nat, k: nat)
    ensures Pow16(j + k) == Pow16(j) * Pow16(k)
    decreases k
  {
    if k > 0 {
      Pow16Split(j, k - 1);
      assert Pow16(j + k) == 16 * (Pow16(j) * Pow16(k - 1));
    }
  }

  lemma Pow16Fifteen()
    ensures Pow16(15) == BIT_60 && Pow16(16) == TWO_TO_THE_64
  {
    assert Pow16(3) == 0x1000;
    assert Pow16(6) == 0x100_0000;
    assert Pow16(9) == 0x10_0000_0000;
    assert Pow16(12) == 0x1_0000_0000_0000;
  }

  // ---- find last set ----

  /** The position of the highest set bit, counted from one. */
  function Bits(n: nat): nat {
    if n == 0 then 0 else 1 + Bits(n / 2)
  }

  /** `flsl`, on the bit pattern of its argument. */
  method Flsl(mask: size_t) returns (bit: nat)
    ensures bit == Bits(mask)
    ensures mask > 0 ==> Pow2(bit - 1) <= mask < Pow2(bit)
  {
    if mask == 0 {
      return 0;
    }
    BitsRange(mask);
    var m: nat := mask;
    bit := 1;
    while m != 1
      invariant m > 0 && bit > 0 && bit + Bits(m) == 1 + Bits(mask)
      decreases m
    {
      m := m / 2;
      bit := bit + 1;
    }
  }

  lemma {:induction false} BitsRange(n: nat)
    requires n > 0
    ensures Bits(n) > 0 && Pow2(Bits(n) - 1) <= n < Pow2(Bits(n))
  {
    if n > 1 {
      BitsRange(n / 2);
    }
  }

  lemma {:induction false} Pow2Is16(k: nat)
    ensures Pow2(4 * k) == Pow16(k)
  {
    if k > 0 {
      Pow2Is16(k - 1);
      assert Pow2(4 * k - 2) == 2 * (2 * Pow2(4 * k - 4));
      assert Pow2(4 * k) == 2 * (2 * Pow2(4 * k - 2));
    }
  }

  lemma {:induction false} Pow2Monotone(i: nat, j: nat)
    requires i <= j
    ensures Pow2(i) <= Pow2(j)
    decreases j
  {
    if i < j {
      Pow2Monotone(i, j - 1);
    }
  }

  lemma {:induction false} Pow16Monotone(i: nat, j: nat)
    requires i <= j
    ensures Pow16(i) <= Pow16(j)
    decreases j
  {
    if i < j {
      Pow16Monotone(i, j - 1);
    }
  }

  /** `flsh`: the shift by three loses the top three bits of a 64-bit size. */
  function Flsh(size: size_t): nat {
    Bits((size * 8) % TWO_TO_THE_64) / 4
  }

  predicate Bit60(size: size_t) {
    (size / BIT_60) % 2 == 1
  }

  lemma {:induction false} FlshIs(size: size_t)
    ensures Flsh(size) == (if size % BIT_61 == 0 then 0 else (Bits(size % BIT_61) + 3) / 4)
  {
    var m := size % BIT_61;
    assert size * 8 == (size / BIT_61) * TWO_TO_THE_64 + 8 * m;
    DivUnique(size * 8, TWO_TO_THE_64, size / BIT_61, 8 * m);
    if m > 0 {
      assert Bits(8 * m) == 1 + Bits(4 * m) == 2 + Bits(2 * m) == 3 + Bits(m);
    }
  }

  lemma {:induction false} DigitsOfBits(m: nat, k: nat)
    requires 0 < m && k == (Bits(m) + 3) / 4
    ensures k > 0 && Pow16(k - 1) <= m < Pow16(k)
  {
    BitsRange(m);
    DigitsOfRange(m, Bits(m), k);
  }

  lemma {:induction false} DigitsOfRange(m: nat, n: nat, k: nat)
    requires 0 < k && 4 * (k - 1) < n <= 4 * k && Pow2(n - 1) <= m < Pow2(n)
    ensures Pow16(k - 1) <= m < Pow16(k)
  {
    Pow2Monotone(4 * (k - 1), n - 1);
    Pow2Monotone(n, 4 * k);
    Pow2Is16(k);
    Pow2Is16(k - 1);
  }

  lemma {:induction false} SixteenDigits(m: nat, k: nat)
    requires 0 < k && Pow16(k - 1) <= m < Pow16(k) && m < BIT_61
    ensures k <= 16 && (k == 16 <==> m >= BIT_60)
  {
    Pow16Fifteen();
    if k > 16 {
      Pow16Monotone(16, k - 1);
    }
    if k < 16 {
      Pow16Monotone(k, 15);
    }
  }

  /** It counts the hexadecimal digits of the low 61 bits, and none for zero. */
  lemma {:induction false} FlshCounts(size: size_t)
    ensures var m, k := size % BIT_61, Flsh(size);
      && k <= 16
      && (m == 0 <==> k == 0)
      && (m > 0 ==> Pow16(k - 1) <= m < Pow16(k))
      && (k == 16 <==> Bit60(size))
  {
    var m, k := size % BIT_61, Flsh(size);
    FlshIs(size);
    Bit60Is(size);
    if m > 0 {
      DigitsOfBits(m, k);
      SixteenDigits(m, k);
    }
  }

  lemma {:induction false} Bit60Is(size: size_t)
    ensures Bit60(size) <==> size % BIT_61 >= BIT_60
  {
    var q, r := size / BIT_60, size % BIT_60;
    assert size == (q / 2) * BIT_61 + ((q % 2) * BIT_60 + r);
    DivUnique(size, BIT_61, q / 2, (q % 2) * BIT_60 + r);
  }

  // ---- digit values ----

  /** The branchless digit character: two masked alternatives joined by a bitwise or. */
  function ValHexBits(v: bv32): bv32 {
    ((v + 48) & -(((v - 10) & 0x80) >> 7)) | ((v + 55) & -(((9 - v) & 0x80) >> 7))
  }

  function ValHex(v: nat): (c: byte)
    requires v < 16
    ensures c == if v < 10 then '0' as byte + v else 'A' as byte + (v - 10)
  {
    ValHexDigits(v);
    ValHexBits(v as bv32) as int
  }

  lemma {:induction false} ValHexDigits(v: nat)
    requires v < 16
    ensures ValHexBits(v as bv32) as int == if v < 10 then '0' as int + v else 'A' as int + (v - 10)
  {
    if v < 8 {
      LowValHexDigits(v);
    } else {
      HighValHexDigits(v);
    }
  }

  lemma {:induction false} LowValHexDigits(v: nat)
    requires v < 8
    ensures ValHexBits(v as bv32) as int == '0' as int + v
  {
    assert ValHexBits(0) == 48 && ValHexBits(1) == 49 && ValHexBits(2) == 50 && ValHexBits(3) == 51;
    assert ValHexBits(4) == 52 && ValHexBits(5) == 53 && ValHexBits(6) == 54 && ValHexBits(7) == 55;
  }

  lemma {:induction false} HighValHexDigits(v: nat)
    requires 8 <= v < 16
    ensures ValHexBits(v as bv32) as int == if v < 10 then '0' as int + v else 'A' as int + (v - 10)
  {
    assert ValHexBits(8) == 56 && ValHexBits(9) == 57 && ValHexBits(10) == 65 && ValHexBits(11) == 66;
    assert ValHexBits(12) == 67 && ValHexBits(13) == 68 && ValHexBits(14) == 69 && ValHexBits(15) == 70;
  }

  /** The branchless value of a character, on a signed `char`; the masks are Euclidean remainders. */
  function HexVal(c: byte): (v: nat)
    ensures v < 16
  {
    var s := if c < 128 then c as int else c - 256;
    (s % 32 + (s / 64) * 0x19 - 0x10) % 16
  }

  lemma {:induction false} HexValInverts(d: nat)
    requires d < 16
    ensures HexVal(ValHex(d)) == d
  {
    if d < 10 {
      assert ValHex(d) % 32 == 16 + d && ValHex(d) / 64 == 0;
    } else {
      assert ValHex(d) % 32 == d - 9 && ValHex(d) / 64 == 1;
    }
  }

  // ---- writing ----

  /** The last `k` hexadecimal digits of `n`, as characters. */
  function Digits(n: nat, k: nat): (s: bytes)
    ensures |s| == k
  {
    if k == 0 then [] else Digits(n / 16, k - 1) + [ValHex(n % 16)]
  }

  /** Digit `j` is what the shift in the loop of `size_hex` brings down. */
  lemma {:induction false} DigitAt(n: nat, k: nat, j: nat)
    requires j < k
    ensures Digits(n, k)[j] == ValHex(n / Pow16(k - 1 - j) % 16)
  {
    if j < k - 1 {
      DigitAt(n / 16, k - 1, j);
      ShiftStep(n, k - 1 - j);
    }
  }

  /** No digit is a newline, a return or a terminator. */
  lemma {:induction false} DigitsPlain(n: nat, k: nat)
    ensures LF !in Digits(n, k) && CR !in Digits(n, k) && 0 !in Digits(n, k)
  {
    if k > 0 {
      DigitsPlain(n / 16, k - 1);
    }
  }

  lemma {:induction false} TopDigit(n: nat, k: nat)
    requires k > 0 && n % Pow16(k) >= Pow16(k - 1)
    ensures n / Pow16(k - 1) % 16 != 0
  {
    if k > 1 {
      ShiftStep(n, k);
      ShiftStep(n, k - 1);
      TopDigit(n / 16, k - 1);
    }
  }

  /** Below 61 bits, or where bit 60 is set, the digits that are counted start with a nonzero one. */
  lemma {:induction false} FirstDigitNonzero(size: size_t)
    requires Flsh(size) > 0
    ensures size / Pow16(Flsh(size) - 1) % 16 != 0
  {
    var k, m := Flsh(size), size % BIT_61;
    FlshCounts(size);
    Pow16Fifteen();
    if k == 16 {
      assert size / BIT_60 < 16;
    } else {
      LowDigits(size, k);
      TopDigit(size, k);
    }
  }

  lemma {:induction false} LowDigits(n: nat, k: nat)
    requires k < 16 && n % BIT_61 < Pow16(k)
    ensures n % Pow16(k) == n % BIT_61
  {
    Pow16Fifteen();
    Pow16Split(k, 15 - k);
    LowPart(n, BIT_61, Pow16(k), 2 * Pow16(15 - k));
  }

  /** The remainder by a multiple of `p`, where it is below `p`, is the remainder by `p`. */
  lemma {:induction false} LowPart(n: nat, m: nat, p: nat, t: nat)
    requires 0 < m == t * p && n % m < p
    ensures n % p == n % m
  {
    var q, r := n / m, n % m;
    assert q * (t * p) == (q * t) * p;
    DivUnique(n, p, q * t, r);
  }

  /** What `size_hex` writes: the counted digits, as many as fit. */
  function Written(size: size_t, len: nat): (s: bytes)
    ensures |s| == Min(Min(len, 16), Flsh(size))
  {
    FlshAtMost(size);
    Digits(size, Flsh(size))[..Min(Min(len, 16), Flsh(size))]
  }

  /** The digit of the loop's step `i`; the first one moves the write cursor. */
  lemma {:induction false} LoopDigit(size: size_t, i: nat, j: nat)
    requires i < 16 && Flsh(size) <= 16 && j == i - (16 - Flsh(size))
    ensures var c := ShiftDigits(size, 15 - i) % 16;
      Digits(size, Flsh(size))[j] == ValHex(c) && (j > 0 || c > 0)
  {
    DigitAt(size, Flsh(size), j);
    if j == 0 {
      FirstDigitNonzero(size);
    }
  }

  /** `flsh`, by `flsl`. */
  method FindLastSetHex(size: size_t) returns (k: nat)
    ensures k == Flsh(size) <= 16
  {
    FlshAtMost(size);
    var bits := Flsl((size * 8) % TWO_TO_THE_64);
    k := bits / 4;
  }

  /** `size_hex`. With no digit to write it reports one character that it has not written. */
  method SizeHex(val: array<byte>, len: nat, size: size_t) returns (j: nat)
    requires len <= val.Length
    modifies val
    ensures val[..] == Written(size, len) + old(val[|Written(size, len)|..])
    ensures j == if Written(size, len) == [] then 1 else |Written(size, len)|
  {
    var l := if len > 16 then 16 else len;
    var k := FindLastSetHex(size);
    ghost var was := val[..];
    var i := 16 - k;
    j := 0;
    ghost var d := Digits(size, k);
    while j < l && i < 16
      invariant 16 - k <= i <= 16 && j == i - (16 - k) && j <= l
      invariant forall x :: 0 <= x < j ==> val[x] == d[x]
      invariant forall x :: j <= x < val.Length ==> val[x] == was[x]
    {
      LoopDigit(size, i, j);
      var c: nat := ShiftDigits(size, 15 - i) % 16;
      val[j] := ValHex(c);
      i := i + 1;
      if j > 0 || c > 0 {
        j := j + 1;
      }
    }
    assert val[..] == d[..j] + was[j..];
    assert Digits(size, k)[..j] == Written(size, len);
    if j == 0 {
      j := j + 1;
    }
  }

  /** A right shift by `k` digits. */
  function ShiftDigits(size: size_t, k: nat): (r: nat)
    ensures r == size / Pow16(k)
    decreases k
  {
    if k == 0 then size else ShiftStep(size, k); ShiftDigits(size / 16, k - 1)
  }

  // ---- reading ----

  /** The value of at most 16 characters, up to a terminator. */
  function HexFrom(acc: size_t, s: bytes, i: nat): size_t
    decreases |s|
  {
    if i >= 16 || s == [] || s[0] == 0 then acc
    else HexFrom(Push(acc, HexVal(s[0])), s[1..], i + 1)
  }

  /** A left shift by four, which keeps the low 60 bits, and an or with one digit. */
  function Push(acc: size_t, v: nat): size_t
    requires v < 16
  {
    16 * (acc % BIT_60) + v
  }

  function HexSize(s: bytes): size_t {
    HexFrom(0, s, 0)
  }

  /** The same digit, as a capital or a small letter. */
  predicate SameDigit(c: byte, d: byte) {
    || c == d
    || ('A' as byte <= c <= 'F' as byte && d == c + 32)
    || ('A' as byte <= d <= 'F' as byte && c == d + 32)
  }

  /** Small letters are read as capitals are. */
  lemma {:induction false} HexIgnoresCase(s: bytes, t: bytes)
    requires |s| == |t| && forall k :: 0 <= k < |s| ==> SameDigit(s[k], t[k])
    ensures HexSize(s) == HexSize(t)
  {
    FromIgnoresCase(0, s, t, 0);
  }

  lemma {:induction false} FromIgnoresCase(acc: size_t, s: bytes, t: bytes, i: nat)
    requires |s| == |t| && forall k :: 0 <= k < |s| ==> SameDigit(s[k], t[k])
    ensures HexFrom(acc, s, i) == HexFrom(acc, t, i)
    decreases |s|
  {
    if i < 16 && s != [] && s[0] != 0 {
      assert SameDigit(s[0], t[0]);
      ValIgnoresCase(s[0], t[0]);
      FromIgnoresCase(Push(acc, HexVal(s[0])), s[1..], t[1..], i + 1);
    }
  }

  lemma {:induction false} ValIgnoresCase(c: byte, d: byte)
    requires SameDigit(c, d)
    ensures HexVal(c) == HexVal(d) && (c == 0 <==> d == 0)
  {
    if c < d {
      SmallLetter(c);
    } else if d < c {
      SmallLetter(d);
    }
  }

  lemma {:induction false} SmallLetter(c: byte)
    requires 'A' as byte <= c <= 'F' as byte
    ensures HexVal(c + 32) == HexVal(c)
  {
    assert (c + 32) % 32 == c % 32 && (c + 32) / 64 == 1 == c / 64;
  }

  /** `hex_size`, on a buffer with a terminator after the text `s`. */
  method ReadHex(val: array<byte>, ghost s: bytes) returns (size: size_t)
    requires |s| < val.Length && val[..|s|] == s && val[|s|] == 0
    ensures size == HexSize(s)
  {
    size := 0;
    var i := 0;
    while i < 16 && val[i] != 0
      invariant i <= |s| && i <= 16
      invariant HexFrom(size, s[i..], i) == HexSize(s)
    {
      assert val[..|s|][i] == s[i];
      assert s[i..][1..] == s[i + 1..];
      size := Push(size, HexVal(val[i]));
      i := i + 1;
    }
  }

  lemma {:induction false} HexAppend(acc: size_t, s: bytes, c: byte, i: nat)
    requires 0 !in s && c != 0 && i + |s| < 16
    ensures HexFrom(acc, s + [c], i) == Push(HexFrom(acc, s, i), HexVal(c))
    decreases |s|
  {
    if s == [] {
      assert (s + [c])[1..] == [];
    } else {
      assert (s + [c])[1..] == s[1..] + [c];
      HexAppend(Push(acc, HexVal(s[0])), s[1..], c, i + 1);
    }
  }

  /** Reading digits gives the part of the number that they hold. */
  lemma {:induction false} HexOfDigits(n: nat, k: nat)
    requires k <= 16
    ensures HexSize(Digits(n, k)) == n % Pow16(k)
  {
    if k > 0 {
      HexOfDigits(n / 16, k - 1);
      DigitsPlain(n / 16, k - 1);
      HexAppend(0, Digits(n / 16, k - 1), ValHex(n % 16), 0);
      HexValInverts(n % 16);
      PushLow(n, k);
    }
  }

  lemma {:induction false} PushSmall(acc: size_t, v: nat)
    requires acc < BIT_60 && v < 16
    ensures Push(acc, v) == 16 * acc + v
  {
  }

  lemma {:induction false} Below(n: nat, p: nat, b: nat)
    requires 0 < p <= b
    ensures n % p < b
  {
  }

  lemma {:induction false} PushLow(n: nat, k: nat)
    requires 0 < k <= 16
    ensures (n / 16) % Pow16(k - 1) <= SIZE_MAX
    ensures Push((n / 16) % Pow16(k - 1), n % 16) == n % Pow16(k)
  {
    ShiftStep(n, k);
    Pow16Fifteen();
    Pow16Monotone(k - 1, 15);
    Below(n / 16, Pow16(k - 1), BIT_60);
    PushSmall((n / 16) % Pow16(k - 1), n % 16);
  }

  /** What is written reads back as the low digits of the size, as many as are counted. */
  lemma {:induction false} WrittenReadsBack(size: size_t)
    ensures HexSize(Written(size, 16)) == size % Pow16(Flsh(size))
  {
    FlshCounts(size);
    HexOfDigits(size, Flsh(size));
    assert Written(size, 16) == Digits(size, Flsh(size));
  }

  lemma {:induction false} FewDigits(size: size_t, k: nat)
    requires k < 16 && k == Flsh(size)
    ensures size % Pow16(k) < BIT_60 && !Bit60(size)
  {
    FlshCounts(size);
    Pow16Fifteen();
    Pow16Monotone(k, 15);
    Below(size, Pow16(k), BIT_60);
  }

  lemma {:induction false} SmallKept(size: size_t, k: nat)
    requires k < 16 && k == Flsh(size) && size < BIT_61
    ensures size % Pow16(k) == size
  {
    LowCount(size, k);
    LowDigits(size, k);
  }

  lemma {:induction false} LowCount(size: size_t, k: nat)
    requires k == Flsh(size) && size < BIT_61
    ensures size % BIT_61 == size < Pow16(k)
  {
    FlshCounts(size);
    assert size % BIT_61 == size;
  }

  lemma {:induction false} AllDigits(size: size_t)
    requires Flsh(size) == 16
    ensures Bit60(size) && size % Pow16(16) == size
  {
    FlshCounts(size);
    Pow16Fifteen();
  }

  lemma {:induction false} SixteenReadBack(size: size_t)
    requires |Written(size, 16)| == 16
    ensures size > 0 && HexSize(Written(size, 16)) == size
  {
    FlshAtMost(size);
    WrittenReadsBack(size);
    AllDigits(size);
    NonzeroBit60(size);
  }

  lemma {:induction false} NonzeroBit60(size: size_t)
    requires Bit60(size)
    ensures size > 0
  {
    assert 0 / BIT_60 == 0;
  }

  /**
   The digits that `size_hex` writes read back as the size exactly when it has no bit above the
   sixtieth that the shift by three loses, or has bit 60 set so that all sixteen digits are written.
   */
  lemma {:induction false} HexRoundTripIff(size: size_t)
    ensures HexSize(Written(size, 16)) == size <==> size < BIT_61 || Bit60(size)
  {
    WrittenReadsBack(size);
    if Flsh(size) < 16 {
      FewDigits(size, Flsh(size));
      if size < BIT_61 {
        SmallKept(size, Flsh(size));
      }
    } else {
      FlshAtMost(size);
      AllDigits(size);
    }
  }

  lemma {:induction false} DigitsPrefix(n: nat, k: nat, j: nat)
    requires j <= k
    ensures Digits(n, k)[..j] == Digits(n / Pow16(k - j), j)
    decreases k
  {
    if j < k {
      DigitsPrefix(n / 16, k - 1, j);
      ShiftStep(n, k - j);
    }
  }

  /** Some of the digits, but not all, read as a smaller number. */
  lemma {:induction false} PrefixReadsLess(size: size_t, j: nat)
    requires 0 < j < |Written(size, 16)|
    ensures HexSize(Written(size, 16)[..j]) < size
  {
    var k := Flsh(size);
    WrittenIsDigits(size);
    WrittenCounts(size);
    DigitsPrefix(size, k, j);
    FlshAtMost(size);
    PrefixLess(size, k - j, j);
  }

  lemma {:induction false} WrittenIsDigits(size: size_t)
    ensures Written(size, 16) == Digits(size, Flsh(size))
  {
    FlshAtMost(size);
  }

  lemma {:induction false} WrittenCounts(size: size_t)
    ensures Written(size, 16) != [] ==> size > 0
    ensures Written(size, 16) == [] ==> size == 0 || size >= BIT_61
  {
    NoDigits(size, Flsh(size));
  }

  lemma {:induction false} NoDigits(size: size_t, k: nat)
    requires k == Flsh(size)
    ensures k > 0 ==> size > 0
    ensures k == 0 ==> size == 0 || size >= BIT_61
  {
    FlshCounts(size);
    LowZero(size, size % BIT_61);
  }

  lemma {:induction false} LowZero(size: nat, m: nat)
    requires m == size % BIT_61
    ensures m == 0 && size < BIT_61 ==> size == 0
    ensures m > 0 ==> size > 0
  {
  }

  lemma {:induction false} PrefixLess(n: nat, k: nat, j: nat)
    requires n > 0 && k > 0 && j <= 16
    ensures HexSize(Digits(n / Pow16(k), j)) < n
  {
    HexOfDigits(n / Pow16(k), j);
    ModAtMost(n / Pow16(k), Pow16(j));
    ShiftShrinks(n, k);
  }

  lemma {:induction false} ModAtMost(n: nat, p: nat)
    requires p > 0
    ensures n % p <= n
  {
  }

  lemma {:induction false} ShiftShrinks(n: nat, k: nat)
    requires k > 0 && n > 0
    ensures n / Pow16(k) < n
    decreases k
  {
    ShiftStep(n, k);
    if k > 1 && n / 16 > 0 {
      ShiftShrinks(n / 16, k - 1);
    }
  }

  lemma {:induction false} FlshAtMost(size: size_t)
    ensures Flsh(size) <= 16
  {
    FlshCounts(size);
  }
}
