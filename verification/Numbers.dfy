/**
 The number printers and parsers: itoa (lib/string.c), atoi (lib/stdlib.c), addressToHex and hexToAddress
 (kernel/comhand.c).
 */
module Numbers {
  import opened Common

  const INT_MIN: int := -0x8000_0000
  const INT_MAX: int := 0x7FFF_FFFF
  const WORD: nat := 0x1_0000_0000

  const NUL: byte := 0
  const ZERO: byte := 0x30
  const NINE: byte := 0x39
  const MINUS: byte := 0x2D
  const PLUS: byte := 0x2B
  const LOWER_X: byte := 0x78

  /** The two bases the kernel prints in. */
  type Base = b: nat | b == 10 || b == 16 witness 10

  /** Division in C truncates toward zero. */
  function Quot(n: int, base: Base): (q: int)
    ensures n > 0 ==> 0 <= q < n
    ensures n < 0 ==> n < q <= 0
    ensures n == 0 ==> q == 0
  {
    if base == 10 then if n >= 0 then n / 10 else -(-n / 10)
    else if n >= 0 then n / 16 else -(-n / 16)
  }

  function Rem(n: int, base: Base): (r: int)
    ensures -(base as int) < r < base
    ensures n >= 0 ==> r >= 0
    ensures n <= 0 ==> r <= 0
  {
    if base == 10 then if n >= 0 then n % 10 else -(-n % 10)
    else if n >= 0 then n % 16 else -(-n % 16)
  }

  /** The digits of `n`, highest first; those of a negative number are negative. */
  function Digits(n: int, base: Base): seq<int>
    decreases if n < 0 then -n else n
  {
    if n == 0 then [] else Digits(Quot(n, base), base) + [Rem(n, base)]
  }

  /** Horner's rule. */
  function Value(digits: seq<int>, base: Base, start: int): int
    decreases |digits|
  {
    if digits == [] then start else Value(digits[1..], base, start * base + digits[0])
  }

  lemma {:induction false} ValueLast(digits: seq<int>, d: int, base: Base, start: int)
    ensures Value(digits + [d], base, start) == Value(digits, base, start) * base + d
    decreases |digits|
  {
    if digits == [] {
      assert Value([d], base, start) == Value([], base, start * base + d);
    } else {
      assert (digits + [d])[1..] == digits[1..] + [d];
      ValueLast(digits[1..], d, base, start * base + digits[0]);
    }
  }

  /** The digits spell the number. */
  lemma {:induction false} DigitsValue(n: int, base: Base)
    ensures Value(Digits(n, base), base, 0) == n
    decreases if n < 0 then -n else n
  {
    if n != 0 {
      DigitsValue(Quot(n, base), base);
      ValueLast(Digits(Quot(n, base), base), Rem(n, base), base, 0);
      Division(n, base);
    }
  }

  lemma Division(n: int, base: Base)
    ensures Quot(n, base) * base + Rem(n, base) == n
  {
  }

  /** Every digit has the sign of the number, and the first is not zero. */
  lemma {:induction false} DigitRange(n: int, base: Base)
    requires n != 0
    ensures Digits(n, base) != [] && Digits(n, base)[0] != 0
    ensures n > 0 ==> forall k :: 0 <= k < |Digits(n, base)| ==> 0 <= Digits(n, base)[k] < base
    ensures n < 0 ==> forall k :: 0 <= k < |Digits(n, base)| ==> -(base as int) < Digits(n, base)[k] <= 0
    decreases if n < 0 then -n else n
  {
    Division(n, base);
    if Quot(n, base) != 0 {
      DigitRange(Quot(n, base), base);
    }
  }

  // ---------------------------------------------------------------- printing

  /** The character stored for a digit; storing truncates to a byte. */
  function Char(d: int, base: Base): byte {
    if base == 16 && d > 9 then (d - 10 + 0x41) % 256 else (d + ZERO) % 256
  }

  function Chars(digits: seq<int>, base: Base): seq<byte> {
    seq(|digits|, i requires 0 <= i < |digits| => Char(digits[i], base))
  }

  function Printed(n: int, base: Base): seq<byte> {
    if n == 0 then [ZERO] else Chars(Digits(n, base), base)
  }

  /** The counting loop. */
  method CountDigits(n: int, base: Base) returns (size: nat)
    ensures size == |Digits(n, base)|
  {
    var temp := n;
    size := 0;
    while temp != 0
      invariant size + |Digits(temp, base)| == |Digits(n, base)|
      decreases if temp < 0 then -temp else temp
    {
      temp := Quot(temp, base);
      size := size + 1;
    }
  }

  /** The printing loop: digits are stored from the last to the first, the first at index `from`. */
  method StoreDigits(buf: array<byte>, from: nat, size: nat, n: int, base: Base)
    requires size == |Digits(n, base)| && from + size <= buf.Length
    modifies buf
    ensures buf[from..from + size] == Chars(Digits(n, base), base)
    ensures forall k :: 0 <= k < from || from + size <= k < buf.Length ==> buf[k] == old(buf[k])
  {
    hide Char, Quot, Rem;
    var temp: int := from + size - 1;
    var rest := n;
    while temp >= from
      invariant temp == from + |Digits(rest, base)| - 1 && Digits(rest, base) <= Digits(n, base)
      invariant forall k :: temp < k < from + size ==> buf[k] == Char(Digits(n, base)[k - from], base)
      invariant forall k :: 0 <= k < from || from + size <= k < buf.Length ==> buf[k] == old(buf[k])
      decreases temp - from
    {
      assert rest != 0;
      buf[temp] := Char(Rem(rest, base), base);
      rest := Quot(rest, base);
      temp := temp - 1;
    }
  }

  method Itoa(buf: array<byte>, integer: int)
    requires INT_MIN <= integer <= INT_MAX && |Printed(integer, 10)| < buf.Length
    modifies buf
    ensures var n := |Printed(integer, 10)|;
            && buf[..n] == Printed(integer, 10) && buf[n] == NUL
            && forall k :: n < k < buf.Length ==> buf[k] == old(buf[k])
  {
    var size := 0;
    if integer == 0 {
      buf[0] := ZERO;
      size := 1;
    } else {
      size := CountDigits(integer, 10);
      StoreDigits(buf, 0, size, integer, 10);
    }
    buf[size] := NUL;
  }

  /** Room for eleven bytes suffices: see HexLength. */
  method AddressToHex(buf: array<byte>, address: nat)
    requires address < WORD && 2 + |Printed(address, 16)| < buf.Length
    modifies buf
    ensures var n := |Printed(address, 16)|;
            && buf[..2 + n] == [ZERO, LOWER_X] + Printed(address, 16) && buf[2 + n] == NUL
            && forall k :: 2 + n < k < buf.Length ==> buf[k] == old(buf[k])
  {
    var size := 2;
    buf[0] := ZERO;
    buf[1] := LOWER_X;
    if address == 0 {
      buf[2] := ZERO;
      size := size + 1;
    } else {
      var count := CountDigits(address, 16);
      size := size + count;
      StoreDigits(buf, 2, count, address, 16);
    }
    buf[size] := NUL;
  }

  // ---------------------------------------------------------------- parsing

  predicate IsDigit(c: byte) {
    ZERO <= c <= NINE
  }

  /** A C string from position `i` on. */
  ghost predicate Ends(s: seq<byte>, i: nat) {
    exists k :: i <= k < |s| && s[k] == NUL
  }

  function SkipSpaces(s: seq<byte>, i: nat): (j: nat)
    requires i <= |s|
    ensures i <= j <= |s|
    decreases |s| - i
  {
    if i < |s| && IsSpace(s[i]) then SkipSpaces(s, i + 1) else i
  }

  function ReadDigits(s: seq<byte>, i: nat, start: int): int
    decreases |s| - i
  {
    if i < |s| && IsDigit(s[i]) then ReadDigits(s, i + 1, start * 10 + (s[i] as int - ZERO as int)) else start
  }

  /** What atoi makes of a string, in unbounded integers. */
  function Parsed(s: seq<byte>): int {
    var i := SkipSpaces(s, 0);
    if i < |s| && s[i] == MINUS then -ReadDigits(s, i + 1, 0)
    else if i < |s| && s[i] == PLUS then ReadDigits(s, i + 1, 0)
    else ReadDigits(s, i, 0)
  }

  method Atoi(s: seq<byte>) returns (res: int)
    requires Ends(s, 0)
    ensures res == Parsed(s)
  {
    var i := 0;
    while IsSpace(s[i])
      invariant i < |s| && Ends(s, i) && SkipSpaces(s, i) == SkipSpaces(s, 0)
      decreases |s| - i
    {
      i := i + 1;
    }
    var sign: byte := 0x20;
    if s[i] == MINUS || s[i] == PLUS {
      sign := s[i];
      i := i + 1;
    }
    res := 0;
    ghost var from := i;
    while ZERO <= s[i] <= NINE
      invariant i < |s| && Ends(s, i) && ReadDigits(s, i, res) == ReadDigits(s, from, 0)
      decreases |s| - i
    {
      res := res * 10 + (s[i] as int - ZERO as int);
      i := i + 1;
    }
    if sign == MINUS {
      res := -res;
    }
  }

  function HexDigit(c: byte): Option<nat> {
    if IsDigit(c) then Some(c - ZERO)
    else if 0x41 <= c <= 0x46 then Some(c - 0x41 + 10)
    else if 0x61 <= c <= 0x66 then Some(c - 0x61 + 10)
    else None
  }

  /** `res << 4` drops the bits beyond the word. */
  function ReadHex(s: seq<byte>, i: nat, start: nat): nat
    decreases |s| - i
  {
    if i < |s| && s[i] != NUL && HexDigit(s[i]).Some?
    then ReadHex(s, i + 1, start * 16 % WORD + HexDigit(s[i]).value)
    else start
  }

  function HexStart(s: seq<byte>): nat {
    if |s| > 1 && s[0] == ZERO && (s[1] == LOWER_X || s[1] == 0x58) then 2 else 0
  }

  method HexToAddress(s: seq<byte>) returns (res: nat)
    requires Ends(s, 0)
    ensures res == ReadHex(s, HexStart(s), 0)
  {
    var i := 0;
    res := 0;
    if s[0] == ZERO && (s[1] == LOWER_X || s[1] == 0x58) {
      i := 2;
    }
    while s[i] != NUL
      invariant i < |s| && Ends(s, i) && ReadHex(s, i, res) == ReadHex(s, HexStart(s), 0)
      decreases |s| - i
    {
      if ZERO <= s[i] <= NINE {
        res := res * 16 % WORD + (s[i] - ZERO);
      } else if 0x41 <= s[i] <= 0x46 {
        res := res * 16 % WORD + (s[i] - 0x41 + 10);
      } else if 0x61 <= s[i] <= 0x66 {
        res := res * 16 % WORD + (s[i] - 0x61 + 10);
      } else {
        break;
      }
      i := i + 1;
    }
  }

  // ---------------------------------------------------------------- round trips

  lemma {:induction false} ReadBack(s: seq<byte>, i: nat, digits: seq<int>, start: int)
    requires i + |digits| < |s| && !IsDigit(s[i + |digits|])
    requires forall k :: 0 <= k < |digits| ==> 0 <= digits[k] < 10 && s[i + k] == Char(digits[k], 10)
    ensures ReadDigits(s, i, start) == Value(digits, 10, start)
    decreases |digits|
  {
    if digits != [] {
      forall k | 0 <= k < |digits[1..]| ensures s[i + 1 + k] == Char(digits[1..][k], 10) {
        assert digits[1..][k] == digits[k + 1];
        assert s[i + (k + 1)] == Char(digits[k + 1], 10);
      }
      assert s[i + 0] == Char(digits[0], 10);
      ReadBack(s, i + 1, digits[1..], start * 10 + digits[0]);
    }
  }

  /** In place of the digits of a negative number stand characters that are not digits, or zeros. */
  lemma {:induction false} ReadNothing(s: seq<byte>, i: nat, n: nat)
    requires i + n < |s| && s[i + n] == NUL
    requires forall k :: i <= k < i + n ==> s[k] <= ZERO
    ensures ReadDigits(s, i, 0) == 0
    decreases n
  {
    if n > 0 {
      ReadNothing(s, i + 1, n - 1);
    }
  }

  /** atoi undoes itoa exactly on the non-negative integers; every negative one comes back as 0. */
  lemma AtoiOfItoa(n: int, rest: seq<byte>)
    requires INT_MIN <= n <= INT_MAX
    ensures Parsed(Printed(n, 10) + [NUL] + rest) == if n >= 0 then n else 0
  {
    hide Digits, ReadDigits, Printed, Chars, Char, Parsed;
    var s := Printed(n, 10) + [NUL] + rest;
    var digits := PrintedDigits(n, 10);
    TextAt(s, [], digits, 10, rest);
    if n >= 0 {
      ParsedDigits(s, digits);
    } else {
      ParsedNothing(s, digits);
    }
  }

  /** The digits behind the printed form. */
  lemma PrintedDigits(n: int, base: Base) returns (digits: seq<int>)
    ensures digits != [] && Printed(n, base) == Chars(digits, base) && Value(digits, base, 0) == n
    ensures n >= 0 ==> forall k :: 0 <= k < |digits| ==> 0 <= digits[k] < base
    ensures n < 0 ==> forall k :: 0 <= k < |digits| ==> -(base as int) < digits[k] <= 0
  {
    hide Digits;
    if n == 0 {
      digits := [0];
      assert Value([0], base, 0) == 0;
    } else {
      digits := Digits(n, base);
      DigitRange(n, base);
      DigitsValue(n, base);
    }
  }

  lemma TextAt(s: seq<byte>, head: seq<byte>, digits: seq<int>, base: Base, rest: seq<byte>)
    requires s == head + Chars(digits, base) + [NUL] + rest || (head == [] && s == Chars(digits, base) + [NUL] + rest)
    ensures |s| > |head| + |digits| && s[..|head|] == head && s[|head| + |digits|] == NUL
    ensures forall k :: 0 <= k < |digits| ==> s[|head| + k] == Char(digits[k], base)
  {
  }

  lemma ParsedDigits(s: seq<byte>, digits: seq<int>)
    requires 0 < |digits| < |s| && s[|digits|] == NUL
    requires forall k :: 0 <= k < |digits| ==> 0 <= digits[k] < 10 && s[0 + k] == Char(digits[k], 10)
    ensures Parsed(s) == Value(digits, 10, 0)
  {
    hide ReadDigits, Value;
    assert s[0 + 0] == Char(digits[0], 10);
    assert IsDigit(s[0]);
    ReadBack(s, 0, digits, 0);
  }

  lemma ParsedNothing(s: seq<byte>, digits: seq<int>)
    requires 0 < |digits| < |s| && s[|digits|] == NUL
    requires forall k :: 0 <= k < |digits| ==> -10 < digits[k] <= 0 && s[0 + k] == Char(digits[k], 10)
    ensures Parsed(s) == 0
  {
    hide ReadDigits;
    forall k | 0 <= k < |digits| ensures 0x26 < s[k] <= ZERO {
      assert s[0 + k] == Char(digits[k], 10);
    }
    ReadNothing(s, 0, |digits|);
    ReadNothing(s, 1, |digits| - 1);
  }

  lemma AtoiUndoesItoa(n: int, rest: seq<byte>)
    requires INT_MIN <= n <= INT_MAX
    ensures Parsed(Printed(n, 10) + [NUL] + rest) == n <==> n >= 0
  {
    AtoiOfItoa(n, rest);
  }

  /** Reading more digits never makes the value smaller. */
  lemma {:induction false} ValueGrows(digits: seq<int>, start: int)
    requires start >= 0 && forall k :: 0 <= k < |digits| ==> 0 <= digits[k]
    ensures Value(digits, 16, start) >= start
    decreases |digits|
  {
    if digits != [] {
      ValueGrows(digits[1..], start * 16 + digits[0]);
    }
  }

  lemma HexDigitOfChar(d: int)
    requires 0 <= d < 16
    ensures HexDigit(Char(d, 16)) == Some(d) && Char(d, 16) != NUL
  {
  }

  /** No digit is shifted out while the value fits in a word. */
  lemma {:induction false} ReadHexBack(s: seq<byte>, i: nat, digits: seq<int>, start: nat)
    requires i + |digits| < |s| && s[i + |digits|] == NUL
    requires forall k :: 0 <= k < |digits| ==> 0 <= digits[k] < 16 && s[i + k] == Char(digits[k], 16)
    requires Value(digits, 16, start) < WORD
    ensures ReadHex(s, i, start) == Value(digits, 16, start)
    decreases |digits|
  {
    if digits != [] {
      var next := start * 16 + digits[0];
      Shifted(s, i, digits, 16);
      ValueGrows(digits[1..], next);
      ReadHexBack(s, i + 1, digits[1..], next);
      ReadHexStep(s, i, digits[0], start);
      hide Char, ReadHex;
    }
  }

  lemma ReadHexStep(s: seq<byte>, i: nat, d: int, start: nat)
    requires 0 <= d < 16 && i < |s| && s[i] == Char(d, 16) && start * 16 + d < WORD
    ensures ReadHex(s, i, start) == ReadHex(s, i + 1, start * 16 + d)
  {
    HexDigitOfChar(d);
  }

  /** The text of the digits but the first. */
  lemma Shifted(s: seq<byte>, i: nat, digits: seq<int>, base: Base)
    requires digits != [] && i + |digits| < |s|
    requires forall k :: 0 <= k < |digits| ==> s[i + k] == Char(digits[k], base)
    ensures s[i] == Char(digits[0], base)
    ensures forall k :: 0 <= k < |digits[1..]| ==> s[i + 1 + k] == Char(digits[1..][k], base)
  {
    assert s[i + 0] == Char(digits[0], base);
    forall k | 0 <= k < |digits[1..]| ensures s[i + 1 + k] == Char(digits[1..][k], base) {
      assert s[i + (k + 1)] == Char(digits[k + 1], base);
    }
  }

  /** hexToAddress undoes addressToHex for every address. */
  lemma HexUndoesAddress(a: nat, rest: seq<byte>)
    requires a < WORD
    ensures var s := [ZERO, LOWER_X] + Printed(a, 16) + [NUL] + rest;
            ReadHex(s, HexStart(s), 0) == a
  {
    hide Digits, ReadHex, Printed, Chars, Char;
    var s := [ZERO, LOWER_X] + Printed(a, 16) + [NUL] + rest;
    var digits := PrintedDigits(a, 16);
    TextAt(s, [ZERO, LOWER_X], digits, 16, rest);
    assert s[0] == s[..2][0] && s[1] == s[..2][1];
    ReadHexBack(s, 2, digits, 0);
  }

  function Power(base: Base, k: nat): nat {
    if k == 0 then 1 else base * Power(base, k - 1)
  }

  lemma {:induction false} DigitCount(n: int, base: Base, k: nat)
    requires -(Power(base, k) as int) < n < Power(base, k)
    ensures |Digits(n, base)| <= k
    decreases k
  {
    if n != 0 {
      DigitCount(Quot(n, base), base, k - 1);
    }
  }

  /** addressToHex writes at most eleven bytes, itoa at most eleven as well. */
  lemma HexLength(a: nat)
    requires a < WORD
    ensures 2 + |Printed(a, 16)| + 1 <= 11
  {
    assert Power(16, 4) == 0x1_0000 && Power(16, 8) == WORD;
    DigitCount(a, 16, 8);
  }

  lemma DecimalLength(n: int)
    requires INT_MIN <= n <= INT_MAX
    ensures |Printed(n, 10)| + 1 <= 11
  {
    assert Power(10, 5) == 100000 && Power(10, 10) == 10000000000;
    DigitCount(n, 10, 10);
  }

  // ---------------------------------------------------------------- what the parsers read

  lemma {:induction false} Skips(s: seq<byte>, k: nat, i: nat)
    requires k <= i < |s| && forall l :: k <= l < i ==> IsSpace(s[l])
    requires !IsSpace(s[i])
    ensures SkipSpaces(s, k) == i
    decreases i - k
  {
    if k < i {
      Skips(s, k + 1, i);
    }
  }

  /**
   atoi takes white space (0x09 to 0x0D and 0x20), one sign 0x2D or 0x2B, and the digits up to the first byte that
   is none; the value is negative exactly after 0x2D.
   */
  lemma AtoiReads(s: seq<byte>, i: nat, j: nat, digits: seq<int>)
    requires i <= j && j + |digits| < |s|
    requires forall k :: 0 <= k < i ==> 0x09 <= s[k] <= 0x0D || s[k] == 0x20
    requires (j == i + 1 && (s[i] == 0x2D || s[i] == 0x2B)) ||
             (j == i && s[i] != 0x2D && s[i] != 0x2B && s[i] != 0x20 && !(0x09 <= s[i] <= 0x0D))
    requires forall k :: 0 <= k < |digits| ==> 0 <= digits[k] < 10 && s[j + k] as int == 0x30 + digits[k]
    requires !(0x30 <= s[j + |digits|] <= 0x39)
    ensures Parsed(s) == if s[i] == 0x2D then -Value(digits, 10, 0) else Value(digits, 10, 0)
  {
    hide ReadDigits, Value;
    Skips(s, 0, i);
    ReadBack(s, j, digits, 0);
  }

  lemma WordShifted(a: int, b: int, d: int)
    requires a % WORD == b % WORD
    ensures (a * 16 + d) % WORD == (b * 16 + d) % WORD
  {
    var k := a / WORD - b / WORD;
    assert a * 16 + d == b * 16 + d + 16 * k * WORD;
    WholeWords(b * 16 + d, 16 * k);
  }

  lemma WholeWords(x: int, j: int)
    ensures (x + j * WORD) % WORD == x % WORD
  {
  }

  /** Numbers that agree in a word still do after more digits. */
  lemma {:induction false} ValueInWord(digits: seq<int>, a: int, b: int)
    requires a % WORD == b % WORD
    ensures Value(digits, 16, a) % WORD == Value(digits, 16, b) % WORD
    decreases |digits|
  {
    if digits != [] {
      WordShifted(a, b, digits[0]);
      ValueInWord(digits[1..], a * 16 + digits[0], b * 16 + digits[0]);
    }
  }

  /** The byte is the hexadecimal digit `d`, in either case. */
  predicate Spells(c: byte, d: int) {
    || (0 <= d < 10 && c as int == 0x30 + d)
    || (10 <= d < 16 && (c as int == 0x41 + (d - 10) || c as int == 0x61 + (d - 10)))
  }

  /** The byte is no hexadecimal digit. */
  predicate NoDigit(c: byte) {
    !(0x30 <= c <= 0x39) && !(0x41 <= c <= 0x46) && !(0x61 <= c <= 0x66)
  }

  lemma TakeHexDigit(s: seq<byte>, i: nat, d: int, start: nat)
    requires i < |s| && Spells(s[i], d) && start < WORD
    ensures 0 <= start * 16 % WORD + d < WORD
    ensures ReadHex(s, i, start) == ReadHex(s, i + 1, start * 16 % WORD + d)
    ensures (start * 16 % WORD + d) % WORD == (start * 16 + d) % WORD
  {
    HexDigitSpelt(s[i], d);
    var k := start * 16 / WORD;
    assert start * 16 + d == start * 16 % WORD + d + k * WORD;
    WholeWords(start * 16 % WORD + d, k);
  }

  lemma {:induction false} ReadHexDigits(s: seq<byte>, i: nat, digits: seq<int>, start: nat)
    requires i + |digits| < |s| && NoDigit(s[i + |digits|])
    requires forall k :: 0 <= k < |digits| ==> Spells(s[i + k], digits[k])
    requires start < WORD
    ensures ReadHex(s, i, start) == Value(digits, 16, start) % WORD
    decreases |digits|
  {
    if digits == [] {
      NoHexDigit(s[i]);
    } else {
      var d := digits[0];
      assert Spells(s[i + 0], d);
      TakeHexDigit(s, i, d, start);
      hide ReadHex, Spells;
      forall k | 0 <= k < |digits[1..]| ensures Spells(s[i + 1 + k], digits[1..][k]) {
        assert Spells(s[i + (k + 1)], digits[k + 1]);
      }
      var next := start * 16 % WORD + d;
      ReadHexDigits(s, i + 1, digits[1..], next);
      ValueInWord(digits[1..], next, start * 16 + d);
    }
  }

  lemma HexDigitSpelt(c: byte, d: int)
    requires Spells(c, d)
    ensures HexDigit(c) == Some(d) && c != NUL
  {
  }

  lemma NoHexDigit(c: byte)
    requires NoDigit(c)
    ensures HexDigit(c) == None
  {
  }

  /**
   hexToAddress takes 0x30 with 0x78 or 0x58 behind it as a prefix, and then the digits up to the first byte that is
   none; the value is what is left in 32 bits.
   */
  lemma HexReads(s: seq<byte>, from: nat, digits: seq<int>)
    requires from + |digits| < |s| && NoDigit(s[from + |digits|])
    requires forall k :: 0 <= k < |digits| ==> Spells(s[from + k], digits[k])
    requires from == if |s| > 1 && s[0] == 0x30 && (s[1] == 0x78 || s[1] == 0x58) then 2 else 0
    ensures ReadHex(s, HexStart(s), 0) == Value(digits, 16, 0) % 0x1_0000_0000
  {
    ReadHexDigits(s, from, digits, 0);
  }

  // ---------------------------------------------------------------- how numbers are printed

  /** The printed form of a number that is not negative: digits and capital letters, and no leading zero but for 0. */
  lemma PrintedForm(n: nat, base: Base)
    ensures Printed(n, base) != [] && (n > 0 ==> Printed(n, base)[0] != 0x30) && (n == 0 ==> Printed(n, base) == [0x30])
    ensures forall k :: 0 <= k < |Printed(n, base)| ==>
              0x30 <= Printed(n, base)[k] <= 0x39 || (base == 16 && 0x41 <= Printed(n, base)[k] <= 0x46)
  {
    hide Digits, Char;
    if n > 0 {
      DigitRange(n, base);
      var digits := Digits(n, base);
      forall k | 0 <= k < |digits|
        ensures 0x30 <= Char(digits[k], base) <= 0x39 || (base == 16 && 0x41 <= Char(digits[k], base) <= 0x46)
        ensures digits[k] != 0 ==> Char(digits[k], base) != 0x30
      {
        CharForm(digits[k], base);
      }
    }
  }

  lemma CharForm(d: int, base: Base)
    requires 0 <= d < base
    ensures 0x30 <= Char(d, base) <= 0x39 || (base == 16 && 0x41 <= Char(d, base) <= 0x46)
    ensures d != 0 ==> Char(d, base) != 0x30
  {
  }

  lemma {:induction false} DigitsNegated(n: int)
    requires n >= 0
    ensures |Digits(-n, 10)| == |Digits(n, 10)|
    ensures forall k :: 0 <= k < |Digits(n, 10)| ==> Digits(-n, 10)[k] == -Digits(n, 10)[k]
    decreases n
  {
    if n > 0 {
      DigitsNegated(n / 10);
      assert Quot(-n, 10) == -(n / 10) && Rem(-n, 10) == -(n % 10);
    }
  }

  /** itoa prints no sign: a negative number has the digits of its opposite, mirrored at '0'. */
  lemma NegativeForm(n: int)
    requires 0 < n <= 0x8000_0000
    ensures |Printed(-n, 10)| == |Printed(n, 10)|
    ensures forall k :: 0 <= k < |Printed(n, 10)| ==> Printed(-n, 10)[k] as int == 0x60 - Printed(n, 10)[k] as int
  {
    hide Digits;
    DigitsNegated(n);
    DigitRange(n, 10);
  }
}
