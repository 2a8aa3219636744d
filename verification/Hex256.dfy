/** The 256-bit hexadecimal parser of the congestion-control configuration tool. */
module Hex256 {
  import opened Basics

  datatype ParseResult = Parsed | InvalidDigit | TooLong

  /** `isxdigit` */
  predicate IsHexDigit(c: char) {
    '0' <= c <= '9' || 'a' <= c <= 'f' || 'A' <= c <= 'F'
  }

  function DigitValue(c: char): (v: nat)
    requires IsHexDigit(c)
    ensures v < 16
  {
    if '0' <= c <= '9' then c as int - '0' as int
    else if 'a' <= c <= 'f' then c as int - 'a' as int + 10
    else c as int - 'A' as int + 10
  }

  const LOWER := "0123456789abcdef"
  const UPPER := "0123456789ABCDEF"

  /** The hex digits are the sixteen characters of either alphabet, in the order of their values. */
  lemma DigitsInOrder(c: char, v: nat)
    requires v < 16
    ensures IsHexDigit(LOWER[v]) && IsHexDigit(UPPER[v]) && DigitValue(LOWER[v]) == v == DigitValue(UPPER[v])
    ensures IsHexDigit(c) ==> c == LOWER[DigitValue(c)] || c == UPPER[DigitValue(c)]
    ensures c in LOWER || c in UPPER ==> IsHexDigit(c)
  {
    assert forall w: nat :: w < 10 ==> LOWER[w] == UPPER[w] == ('0' as int + w) as char;
    assert forall w: nat :: 10 <= w < 16 ==>
      LOWER[w] == ('a' as int + w - 10) as char && UPPER[w] == ('A' as int + w - 10) as char;
  }

  predicate AllHex(s: string) {
    forall i :: 0 <= i < |s| ==> IsHexDigit(s[i])
  }

  /** The number the first `n` digits of a string stand for. */
  function HexValue(s: string, n: nat): nat
    requires AllHex(s) && n <= |s|
  {
    if n == 0 then 0 else 16 * HexValue(s, n - 1) + DigitValue(s[n - 1])
  }

  /** The number the bytes from `lo` up to `hi` stand for, most significant byte first. */
  function BigEndian(b: seq<Byte>, lo: nat, hi: nat): nat
    requires lo <= hi <= |b|
  {
    if lo == hi then 0 else 256 * BigEndian(b, lo, hi - 1) + b[hi - 1]
  }

  /** The argument without its optional prefix. */
  function Digits(arg: string): string {
    if "0x" <= arg || "0X" <= arg then arg[2..] else arg
  }

  /** Index of the first byte that the digits reach, two to a byte. */
  function StartIndex(n: nat): (i: nat)
    requires 0 < n <= 64
    ensures n <= 2 * (32 - i) <= n + 1
  {
    32 - (n - 1) / 2 - 1
  }

  /** `parseint` in base 16 on one or two digits */
  function ParseByte(tmp: string): (v: Byte)
    requires AllHex(tmp) && 1 <= |tmp| <= 2
    ensures v == HexValue(tmp, |tmp|)
  {
    assert HexValue(tmp, 0) == 0 && HexValue(tmp, 1) == DigitValue(tmp[0]);
    if |tmp| == 1 then DigitValue(tmp[0]) else 16 * DigitValue(tmp[0]) + DigitValue(tmp[1])
  }

  // ----- numbers as they are written

  function Power16(k: nat): (p: nat)
    ensures p > 0
  {
    if k == 0 then 1 else 16 * Power16(k - 1)
  }

  /** The `k` low digits of `n` in one of the alphabets, most significant first. */
  function Written(n: nat, k: nat, upper: bool): (s: string)
    ensures |s| == k
  {
    if k == 0 then "" else Written(n / 16, k - 1, upper) + [(if upper then UPPER else LOWER)[n % 16]]
  }

  lemma {:induction false} WrittenIsHex(n: nat, k: nat, upper: bool)
    ensures AllHex(Written(n, k, upper))
  {
    if k > 0 {
      WrittenIsHex(n / 16, k - 1, upper);
      DigitsInOrder('0', n % 16);
    }
  }

  /** The first digits of a longer string stand for the same number. */
  lemma {:induction false} FirstDigits(s: string, c: char, n: nat)
    requires AllHex(s) && IsHexDigit(c) && n <= |s|
    ensures HexValue(s + [c], n) == HexValue(s, n)
  {
    if n > 0 {
      FirstDigits(s, c, n - 1);
    }
  }

  /** What is written of a number is read as that number. */
  lemma {:induction false} ReadsWhatIsWritten(n: nat, k: nat, upper: bool)
    requires n < Power16(k)
    ensures AllHex(Written(n, k, upper)) && HexValue(Written(n, k, upper), k) == n
  {
    hide Power16, DigitValue, IsHexDigit, Written, HexValue;
    WrittenIsHex(n, k, upper);
    if k == 0 {
      NothingWritten(n, upper);
    } else {
      var c := (if upper then UPPER else LOWER)[n % 16];
      Sixteenth(n, k);
      ReadsWhatIsWritten(n / 16, k - 1, upper);
      WrittenSplits(n, k, upper);
      DigitsInOrder('0', n % 16);
      FirstDigits(Written(n / 16, k - 1, upper), c, k - 1);
      LastDigit(Written(n, k, upper), k);
    }
  }

  lemma NothingWritten(n: nat, upper: bool)
    ensures n < Power16(0) ==> n == 0
    ensures Written(n, 0, upper) == "" && HexValue(Written(n, 0, upper), 0) == 0
  {
  }

  lemma WrittenSplits(n: nat, k: nat, upper: bool)
    requires k > 0
    ensures Written(n, k, upper) == Written(n / 16, k - 1, upper) + [(if upper then UPPER else LOWER)[n % 16]]
  {
  }

  lemma LastDigit(s: string, n: nat)
    requires AllHex(s) && 0 < n <= |s|
    ensures HexValue(s, n) == 16 * HexValue(s, n - 1) + DigitValue(s[n - 1])
  {
  }

  lemma Sixteenth(n: nat, k: nat)
    requires k > 0 && n < Power16(k)
    ensures n / 16 < Power16(k - 1)
  {
  }

  /** The scan for characters that are not digits */
  method ScanDigits(d: string) returns (ok: bool)
    ensures ok <==> AllHex(d)
  {
    var n := 0;
    while n < |d|
      invariant n <= |d| && forall i :: 0 <= i < n ==> IsHexDigit(d[i])
    {
      if !IsHexDigit(d[n]) {
        return false;
      }
      n := n + 1;
    }
    ok := true;
  }

  /** The digits up to and including the one or two of the next byte. */
  lemma NextDigits(d: string, pos: nat, tmp: string)
    requires AllHex(d) && AllHex(tmp) && pos + |tmp| <= |d| && 1 <= |tmp| <= 2 && (|tmp| == 1 ==> pos == 0)
    requires forall i :: 0 <= i < |tmp| ==> tmp[i] == d[pos + i]
    ensures HexValue(d, pos + |tmp|) == 256 * HexValue(d, pos) + HexValue(tmp, |tmp|)
  {
    hide DigitValue;
    assert HexValue(tmp, 0) == 0 && HexValue(tmp, 1) == DigitValue(d[pos]);
    assert HexValue(d, pos + 1) == 16 * HexValue(d, pos) + DigitValue(d[pos]);
  }

  /** The bytes up to `hi` do not depend on one behind them. */
  lemma {:induction false} LaterByte(b: seq<Byte>, lo: nat, hi: nat, i: nat, x: Byte)
    requires lo <= hi <= i < |b|
    ensures BigEndian(b[i := x], lo, hi) == BigEndian(b, lo, hi)
  {
    if lo < hi {
      LaterByte(b, lo, hi - 1, i, x);
    }
  }

  lemma ByteWritten(b: seq<Byte>, start: nat, i: nat, x: Byte, d: string, pos: nat, tmp: string)
    requires start <= i < |b| && AllHex(d)
    requires pos + |tmp| <= |d| && 1 <= |tmp| <= 2 && (|tmp| == 1 ==> pos == 0)
    requires BigEndian(b, start, i) == HexValue(d, pos)
    requires tmp == d[pos..pos + |tmp|] && x == HexValue(tmp, |tmp|)
    ensures BigEndian(b[i := x], start, i + 1) == HexValue(d, pos + |tmp|)
  {
    hide HexValue;
    NextDigits(d, pos, tmp);
    LaterByte(b, start, i, i, x);
  }

  /** The loop that writes the bytes */
  method Fill(d: string, buf: array<Byte>)
    requires buf.Length == 32 && 0 < |d| <= 64 && AllHex(d)
    modifies buf
    ensures BigEndian(buf[..], StartIndex(|d|), 32) == HexValue(d, |d|)
    ensures forall j :: 0 <= j < StartIndex(|d|) ==> buf[j] == old(buf[j])
  {
    var start := 32 - (|d| - 1) / 2 - 1;
    var i, pos := start, 0;
    ghost var b := buf[..];
    assert BigEndian(b, start, i) == HexValue(d, pos) == 0;
    hide HexValue, BigEndian, IsHexDigit;
    while i <= 31
      invariant start <= i <= 32 && pos <= |d|
      invariant |d| - pos == if i == start then |d| else 2 * (32 - i)
      invariant b == buf[..] && forall j :: 0 <= j < start ==> b[j] == old(buf[j])
      invariant BigEndian(b, start, i) == HexValue(d, pos)
    {
      var tmp := if i == start && |d| % 2 == 1 then d[pos..pos + 1] else d[pos..pos + 2];
      buf[i] := ParseByte(tmp);
      ByteWritten(b, start, i, buf[i], d, pos, tmp);
      b := b[i := buf[i]];
      i, pos := i + 1, pos + |tmp|;
    }
  }

  /** `parse256`: a bad character or too many digits is refused with the buffer untouched;
      otherwise the bytes from the start index on, read as a big-endian number, are exactly
      the value of the digits, and the bytes before it are left alone. The 64 digits written for
      any 256-bit number store that number. */
  method Parse256(arg: string, buf: array<Byte>) returns (r: ParseResult)
    requires buf.Length == 32 && Digits(arg) != ""
    modifies buf
    ensures !AllHex(Digits(arg)) ==> r == InvalidDigit && buf[..] == old(buf[..])
    ensures AllHex(Digits(arg)) && |Digits(arg)| > 64 ==> r == TooLong && buf[..] == old(buf[..])
    ensures AllHex(Digits(arg)) && |Digits(arg)| <= 64 ==>
              var d := Digits(arg);
              && r == Parsed
              && BigEndian(buf[..], StartIndex(|d|), 32) == HexValue(d, |d|)
              && (forall j :: 0 <= j < StartIndex(|d|) ==> buf[j] == old(buf[j]))
    ensures r == Parsed && (forall i :: 0 <= i < 32 ==> old(buf[i]) == 0) ==>
              BigEndian(buf[..], 0, 32) == HexValue(Digits(arg), |Digits(arg)|)
    ensures forall n: nat, upper :: n < Power16(64) && Digits(arg) == Written(n, 64, upper) ==>
              r == Parsed && BigEndian(buf[..], 0, 32) == n
  {
    hide HexValue, BigEndian, Written, Power16;
    forall n: nat, upper | n < Power16(64) && Digits(arg) == Written(n, 64, upper)
      ensures AllHex(Digits(arg)) && |Digits(arg)| == 64 && HexValue(Digits(arg), 64) == n
    {
      ReadsWhatIsWritten(n, 64, upper);
    }
    var d := arg;
    if "0x" <= arg || "0X" <= arg {
      d := arg[2..];
    }
    var ok := ScanDigits(d);
    if !ok {
      return InvalidDigit;
    }
    if |d| > 64 {
      return TooLong;
    }
    Fill(d, buf);
    r := Parsed;
    if forall i :: 0 <= i < 32 ==> old(buf[i]) == 0 {
      LeadingZeros(buf[..], StartIndex(|d|), 32);
    }
  }

  /** Zero bytes in front do not change the number. */
  lemma {:induction false} LeadingZeros(b: seq<Byte>, lo: nat, hi: nat)
    requires lo <= hi <= |b| && forall i :: 0 <= i < lo ==> b[i] == 0
    ensures BigEndian(b, 0, hi) == BigEndian(b, lo, hi)
  {
    if lo < hi {
      LeadingZeros(b, lo, hi - 1);
    } else if lo > 0 {
      LeadingZeros(b, lo - 1, lo - 1);
    }
  }
}
