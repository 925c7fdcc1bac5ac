/**
 Decimal numbers as the server writes and reads them: printf("%d"), atoi, and the character classes of ctype.h
 in the C locale.  Integers are unbounded here.
 */
module Decimal {
  predicate IsDigit(c: char) { '0' <= c <= '9' }

  predicate IsAlpha(c: char) { 'a' <= c <= 'z' || 'A' <= c <= 'Z' }

  /** Space, tab, newline, vertical tab, form feed, carriage return */
  predicate IsSpace(c: char) { c == ' ' || 9 <= c as int <= 13 }

  function Digit(d: nat): char
    requires d < 10
  {
    '0' + d as char
  }

  function DigitValue(c: char): nat
    requires IsDigit(c)
  {
    c as nat - '0' as nat
  }

  /** The digits of a number, most significant first */
  function ShowNat(n: nat): (s: string)
    ensures s != [] && forall i :: 0 <= i < |s| ==> IsDigit(s[i])
  {
    if n < 10 then [Digit(n)] else ShowNat(n / 10) + [Digit(n % 10)]
  }

  /** "%d" */
  function Show(n: int): (s: string)
    ensures s != [] && (IsDigit(s[0]) <==> n >= 0) && (n < 0 ==> s[0] == '-')
  {
    if n < 0 then "-" + ShowNat(-n) else ShowNat(n)
  }

  /** The leading digits of a text and the number they make, starting from `acc` */
  function ReadDigits(s: string, acc: nat): (nat, string)
    decreases |s|
  {
    if s != [] && IsDigit(s[0]) then ReadDigits(s[1..], acc * 10 + DigitValue(s[0])) else (acc, s)
  }

  function SkipSpace(s: string): (r: string)
    ensures |r| <= |s| && (r != [] ==> !IsSpace(r[0]))
    ensures s != [] && !IsSpace(s[0]) ==> r == s
    decreases |s|
  {
    if s != [] && IsSpace(s[0]) then SkipSpace(s[1..]) else s
  }

  /** atoi: white space, an optional sign, digits */
  function Atoi(s: string): int {
    var t := SkipSpace(s);
    if t != [] && t[0] == '-' then 0 - ReadDigits(t[1..], 0).0
    else if t != [] && t[0] == '+' then ReadDigits(t[1..], 0).0
    else ReadDigits(t, 0).0
  }

  function Pow10(k: nat): nat { if k == 0 then 1 else 10 * Pow10(k - 1) }

  lemma {:induction false} ReadDigitsOfShow(n: nat, acc: nat, t: string)
    requires t == [] || !IsDigit(t[0])
    ensures ReadDigits(ShowNat(n) + t, acc) == (acc * Pow10(|ShowNat(n)|) + n, t)
  {
    ReadDigitsAfter(n, acc, t);
    var k := |ShowNat(n)|;
    if t != [] { assert !IsDigit(t[0]); }
    assert ReadDigits(t, acc * Pow10(k) + n) == (acc * Pow10(k) + n, t);
  }

  /** Reading the digits of n before anything else */
  lemma {:induction false} ReadDigitsAfter(n: nat, acc: nat, t: string)
    ensures ReadDigits(ShowNat(n) + t, acc) == ReadDigits(t, acc * Pow10(|ShowNat(n)|) + n)
    decreases n
  {
    if n < 10 {
      var s := ShowNat(n) + t;
      assert s[0] == Digit(n) && s[1..] == t && DigitValue(s[0]) == n;
      assert Pow10(1) == 10;
    } else {
      var d := [Digit(n % 10)];
      var k := |ShowNat(n / 10)|;
      assert ShowNat(n) + t == ShowNat(n / 10) + (d + t);
      ReadDigitsAfter(n / 10, acc, d + t);
      var mid := acc * Pow10(k) + n / 10;
      assert (d + t)[1..] == t && DigitValue((d + t)[0]) == n % 10;
      assert ReadDigits(d + t, mid) == ReadDigits(t, mid * 10 + n % 10);
      Shift(acc, k, n);
    }
  }

  lemma Shift(acc: nat, k: nat, n: nat)
    ensures (acc * Pow10(k) + n / 10) * 10 + n % 10 == acc * Pow10(k + 1) + n
  {
    var p := Pow10(k);
    assert (acc * p + n / 10) * 10 == acc * (10 * p) + (n / 10) * 10;
  }

  /** atoi undoes printf, whatever non-digit follows. */
  lemma AtoiOfShow(n: int, t: string)
    requires t == [] || !IsDigit(t[0])
    ensures Atoi(Show(n) + t) == n
  {
    var s := Show(n) + t;
    assert !IsSpace(s[0]);
    assert SkipSpace(s) == s;
    if n < 0 {
      assert s[1..] == ShowNat(-n) + t;
      ReadDigitsOfShow(-n, 0, t);
    } else {
      ReadDigitsOfShow(n, 0, t);
    }
  }

  lemma ReadShow(n: nat, t: string)
    requires t == [] || !IsDigit(t[0])
    ensures ReadDigits(ShowNat(n) + t, 0) == (n, t)
  {
    ReadDigitsOfShow(n, 0, t);
  }
}
