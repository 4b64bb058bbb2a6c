/** Decimal text as C prints and reads it: printf's %d (C11 section 7.21.6.1), scanf's %d (section
    7.21.6.2) and atoi (section 7.22.1.2). */
module Decimal {
  const INT32_MAX := 0x7FFF_FFFF

  type int32 = x: int | -INT32_MAX - 1 <= x <= INT32_MAX

  /** One %d conversion: the value and the input left, or a mismatch. */
  datatype Scan = Mismatch | Match(value: int, rest: string)

  predicate IsDigit(c: char) {
    '0' <= c <= '9'
  }

  predicate IsSpace(c: char): (space: bool)
    ensures space <==> c in [' ', '\t', '\n', '\U{0B}', '\U{0C}', '\r']
  {
    c == ' ' || ('\t' <= c <= '\r')
  }

  function DigitValue(c: char): (d: nat)
    requires IsDigit(c)
    ensures d < 10
  {
    c as int - '0' as int
  }

  function DigitChar(d: nat): (c: char)
    requires d < 10
    ensures IsDigit(c) && DigitValue(c) == d
  {
    '0' + d as char
  }

  predicate AllDigits(s: string) {
    forall i :: 0 <= i < |s| ==> IsDigit(s[i])
  }

  function Digits(n: nat): (s: string)
    ensures |s| >= 1 && AllDigits(s)
  {
    if n < 10 then [DigitChar(n)] else Digits(n / 10) + [DigitChar(n % 10)]
  }

  function Print(n: int): (s: string)
    ensures |s| >= 1 && IsDigit(s[|s| - 1]) && if n < 0 then s[0] == '-' else IsDigit(s[0])
  {
    if n < 0 then ['-'] + Digits(-n) else Digits(n)
  }

  function Value(s: string): nat
    requires AllDigits(s)
  {
    if s == [] then 0 else Value(s[..|s| - 1]) * 10 + DigitValue(s[|s| - 1])
  }

  /** How many digits a string starts with. */
  function DigitRun(s: string): (n: nat)
    ensures n <= |s| && (forall i :: 0 <= i < n ==> IsDigit(s[i]))
    ensures n < |s| ==> !IsDigit(s[n])
  {
    if s == [] || !IsDigit(s[0]) then 0 else 1 + DigitRun(s[1..])
  }

  function Signed(n: nat, negative: bool): int {
    if negative then 0 - n else n
  }

  function SkipSpace(s: string): (t: string)
    ensures |t| <= |s| && (t != [] ==> !IsSpace(t[0]))
  {
    if s != [] && IsSpace(s[0]) then SkipSpace(s[1..]) else s
  }

  /** Digits after the sign. */
  function ScanUnsigned(s: string, negative: bool): Scan {
    var n := DigitRun(s);
    if n == 0 then Mismatch
    else Match(Signed(Value(s[..n]), negative), s[n..])
  }

  function ScanInt(s: string): Scan {
    var t := SkipSpace(s);
    if t != [] && t[0] == '-' then ScanUnsigned(t[1..], true)
    else if t != [] && t[0] == '+' then ScanUnsigned(t[1..], false)
    else ScanUnsigned(t, false)
  }

  function Atoi(s: string): int {
    match ScanInt(s)
    case Mismatch => 0
    case Match(v, _) => v
  }

  // ---------------------------------------------------------------- reading back what was printed

  lemma {:induction false} ValueOfDigits(n: nat)
    ensures Value(Digits(n)) == n
  {
    if n >= 10 {
      ValueOfDigits(n / 10);
      assert (Digits(n / 10) + [DigitChar(n % 10)])[..|Digits(n)| - 1] == Digits(n / 10);
    } else {
      assert Digits(n)[..0] == [];
    }
  }

  lemma DigitRunUnique(s: string, n: nat)
    requires n <= |s| && (forall i :: 0 <= i < n ==> IsDigit(s[i])) && (n < |s| ==> !IsDigit(s[n]))
    ensures DigitRun(s) == n
  {}

  lemma ScanDigits(n: nat, rest: string, negative: bool)
    requires rest == [] || !IsDigit(rest[0])
    ensures ScanUnsigned(Digits(n) + rest, negative) == Match(Signed(n, negative), rest)
  {
    var s, k := Digits(n) + rest, |Digits(n)|;
    assert s[..k] == Digits(n) && s[k..] == rest;
    DigitRunUnique(s, k);
    ValueOfDigits(n);
  }

  lemma SkipNothing(s: string)
    requires s != [] && !IsSpace(s[0])
    ensures SkipSpace(s) == s
  {}

  lemma ScanMinus(t: string)
    ensures ScanInt(['-'] + t) == ScanUnsigned(t, true)
  {
    SkipNothing(['-'] + t);
    assert (['-'] + t)[1..] == t;
  }

  lemma ScanNegative(n: nat, rest: string)
    requires rest == [] || !IsDigit(rest[0])
    ensures ScanInt(['-'] + Digits(n) + rest) == Match(Signed(n, true), rest)
  {
    assert ['-'] + Digits(n) + rest == ['-'] + (Digits(n) + rest);
    ScanMinus(Digits(n) + rest);
    ScanDigits(n, rest, true);
  }

  lemma ScanNonNegative(n: nat, rest: string)
    requires rest == [] || !IsDigit(rest[0])
    ensures ScanInt(Digits(n) + rest) == Match(Signed(n, false), rest)
  {
    var s := Digits(n) + rest;
    assert IsDigit(s[0]) by { assert s[0] == Digits(n)[0]; }
    SkipNothing(s);
    ScanDigits(n, rest, false);
  }

  /** A printed integer followed by anything but a digit reads back, leaving what follows. */
  lemma ScanPrinted(n: int, rest: string)
    requires rest == [] || !IsDigit(rest[0])
    ensures ScanInt(Print(n) + rest) == Match(n, rest)
  {
    if n < 0 {
      ScanNegative(-n, rest);
    } else {
      ScanNonNegative(n, rest);
    }
  }

  lemma AtoiPrinted(n: int)
    ensures Atoi(Print(n)) == n
  {
    ScanPrinted(n, []);
    assert Print(n) + [] == Print(n);
  }

  function Pow10(k: nat): nat {
    if k == 0 then 1 else 10 * Pow10(k - 1)
  }

  lemma {:induction false} DigitsLength(n: nat, k: nat)
    requires 1 <= k && n < Pow10(k)
    ensures |Digits(n)| <= k
  {
    if n >= 10 {
      assert k >= 2;
      DigitsLength(n / 10, k - 1);
    }
  }

  lemma Pow10Ten()
    ensures Pow10(10) == 10_000_000_000
  {
    assert Pow10(2) == 100;
    assert Pow10(4) == 10_000;
    assert Pow10(6) == 1_000_000;
    assert Pow10(8) == 100_000_000;
  }

  /** A printed 32-bit integer takes at most 11 characters. */
  lemma PrintLength(n: int32)
    ensures |Print(n)| <= 11
  {
    Pow10Ten();
    var v: int := n;
    if v < 0 { DigitsLength(-v, 10); } else { DigitsLength(v, 10); }
  }
}
