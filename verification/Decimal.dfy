/** Unsigned numbers as decimal text: `%u` on the way out, `strtoul` base 10 on the way in. */
module Decimal {

  const ULONG: nat := 0x1_0000_0000_0000_0000

  predicate IsDigit(c: char) { '0' <= c <= '9' }

  /** White space as `isspace` sees it, vertical tab included. */
  predicate IsCSpace(c: char) { c == ' ' || '\t' <= c <= '\r' }

  function DigitChar(d: nat): (c: char)
    requires d < 10
    ensures IsDigit(c) && DigitValue(c) == d
  {
    '0' + d as char
  }

  function DigitValue(c: char): (d: nat)
    requires IsDigit(c)
    ensures d < 10
  {
    (c - '0') as nat
  }

  predicate AllDigits(s: string) { forall i :: 0 <= i < |s| ==> IsDigit(s[i]) }

  /** `printf("%u")`. */
  function Dec(n: nat): string
  {
    if n < 10 then [DigitChar(n)] else Dec(n / 10) + [DigitChar(n % 10)]
  }

  lemma {:induction false} DecIsDigits(n: nat)
    ensures |Dec(n)| > 0 && AllDigits(Dec(n))
  {
    if n >= 10 {
      DecIsDigits(n / 10);
    }
  }

  function DecValue(s: string): nat
    requires AllDigits(s)
  {
    if s == [] then 0 else 10 * DecValue(s[..|s| - 1]) + DigitValue(s[|s| - 1])
  }

  lemma {:induction false} DecValueOfDec(n: nat)
    ensures AllDigits(Dec(n)) && DecValue(Dec(n)) == n
  {
    DecIsDigits(n);
    if n < 10 {
      assert Dec(n)[..0] == [];
    } else {
      DecValueOfDec(n / 10);
      assert Dec(n)[..|Dec(n)| - 1] == Dec(n / 10);
    }
  }

  function DigitPrefix(s: string): (n: nat)
    ensures n <= |s| && AllDigits(s[..n])
    ensures n < |s| ==> !IsDigit(s[n])
  {
    if s != [] && IsDigit(s[0]) then
      assert forall n :: 0 < n <= |s| ==> s[..n] == [s[0]] + s[1..][..n - 1];
      1 + DigitPrefix(s[1..])
    else 0
  }

  lemma {:induction false} DigitPrefixOf(s: string, t: string)
    requires AllDigits(s)
    requires t == [] || !IsDigit(t[0])
    ensures DigitPrefix(s + t) == |s|
  {
    if s == [] {
      assert s + t == t;
    } else {
      assert (s + t)[1..] == s[1..] + t;
      DigitPrefixOf(s[1..], t);
    }
  }

  /** What `strtoul(text, &end, 10)` reports: `rest` is the text from `end` on. */
  datatype Number = Number(value: nat, rest: string, found: bool, overflow: bool)

  function SkipCSpace(s: string): string
  {
    if s != [] && IsCSpace(s[0]) then SkipCSpace(s[1..]) else s
  }

  function Strtoul(s: string): Number
  {
    var t := SkipCSpace(s);
    var negative := t != [] && t[0] == '-';
    var u := if t != [] && (t[0] == '-' || t[0] == '+') then t[1..] else t;
    var n := DigitPrefix(u);
    if n == 0 then Number(0, s, false, false)
    else
      var v := DecValue(u[..n]);
      if v >= ULONG then Number(ULONG - 1, u[n..], true, true)
      else Number(if negative then (ULONG - v) % ULONG else v, u[n..], true, false)
  }

  /** Reading back a printed number stops exactly behind it. */
  lemma StrtoulOfDec(n: nat, rest: string)
    requires n < ULONG
    requires rest == [] || !IsDigit(rest[0])
    ensures Strtoul(Dec(n) + rest) == Number(n, rest, true, false)
  {
    hide Dec, DigitPrefix, DecValue;
    var s := Dec(n) + rest;
    DecIsDigits(n);
    DigitPrefixOf(Dec(n), rest);
    DecValueOfDec(n);
    assert s[0] == Dec(n)[0];
    assert SkipCSpace(s) == s;
    assert s[..|Dec(n)|] == Dec(n) && s[|Dec(n)|..] == rest;
  }

  /** Appending a digit to the text multiplies the number by ten. */
  lemma DecAppendDigit(n: nat, d: nat)
    requires 0 < n && d < 10
    ensures Dec(10 * n + d) == Dec(n) + [DigitChar(d)]
  {
    assert (10 * n + d) / 10 == n && (10 * n + d) % 10 == d;
  }
}
