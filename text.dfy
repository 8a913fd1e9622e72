/** The handful of printf and C-string behaviours the listing engine relies on:
    decimal rendering of integers, field padding, truncation by snprintf, and
    reading a NUL-terminated buffer back as text. */
module Text {

  const NUL: char := '\0'

  function Max(a: int, b: int): int { if a >= b then a else b }

  function Min(a: int, b: int): int { if a <= b then a else b }

  function Pow10(k: nat): (p: nat)
    ensures p >= 1
  {
    if k == 0 then 1 else 10 * Pow10(k - 1)
  }

  predicate IsDigit(c: char) { '0' <= c <= '9' }

  predicate AllDigits(s: seq<char>) { forall k :: 0 <= k < |s| ==> IsDigit(s[k]) }

  function DigitChar(d: nat): (c: char)
    requires d < 10
    ensures IsDigit(c)
  {
    ('0' as int + d) as char
  }

  function DigitValue(c: char): nat
    requires IsDigit(c)
  {
    c as int - '0' as int
  }

  /** `%d` (or `%ju`) of a non-negative number: its decimal digits, most
      significant first. The length is the number of decimal digits of `n`
      and there is no leading zero. */
  function NatText(n: nat): (s: seq<char>)
    ensures 1 <= |s| && AllDigits(s)
    ensures (s[0] == '0') == (n == 0)
    ensures n < Pow10(|s|)
    ensures |s| > 1 ==> Pow10(|s| - 1) <= n
  {
    if n < 10 then [DigitChar(n)] else NatText(n / 10) + [DigitChar(n % 10)]
  }

  /** The value of a string of decimal digits (a reference reading of NatText). */
  function NatValue(s: seq<char>): nat
    requires AllDigits(s)
  {
    if s == [] then 0 else 10 * NatValue(s[..|s| - 1]) + DigitValue(s[|s| - 1])
  }

  lemma {:induction false} NatTextRoundTrip(n: nat)
    ensures NatValue(NatText(n)) == n
  {
    if n >= 10 {
      var s := NatText(n);
      assert s[..|s| - 1] == NatText(n / 10);
      NatTextRoundTrip(n / 10);
    }
  }

  /** Decimal text of `n` has at most `k` characters exactly when `n < 10^k`. */
  lemma NatTextFits(n: nat, k: nat)
    requires k >= 1
    ensures |NatText(n)| <= k <==> n < Pow10(k)
  {
    var d := |NatText(n)|;
    if d <= k { Pow10Monotone(d, k); }
    if d > k { Pow10Monotone(k, d - 1); }
  }

  lemma {:induction false} Pow10Monotone(a: nat, b: nat)
    requires a <= b
    ensures Pow10(a) <= Pow10(b)
  {
    if a < b { Pow10Monotone(a, b - 1); }
  }

  /** `floor(log10(x) + 1)` for a positive `x`: the `d` with 10^(d-1) <= x < 10^d. */
  function DigitCount(x: nat): (d: nat)
    requires x > 0
    ensures d >= 1 && Pow10(d - 1) <= x < Pow10(d)
  {
    if x < 10 then 1 else 1 + DigitCount(x / 10)
  }

  lemma {:induction false} DigitCountIsTextLength(x: nat)
    requires x > 0
    ensures DigitCount(x) == |NatText(x)|
  {
    if x >= 10 {
      DigitCountIsTextLength(x / 10);
    }
  }

  /** `%d` of any integer: a minus sign before the digits of a negative value. */
  function IntText(i: int): (s: seq<char>)
    ensures 1 <= |s|
    ensures (s[0] == '-') == (i < 0)
  {
    if i < 0 then ['-'] + NatText(-i) else NatText(i)
  }

  /** A reference reading of IntText: an optional minus sign and digits. */
  function IntValue(s: seq<char>): int
    requires |s| > 0 && (if s[0] == '-' then AllDigits(s[1..]) else AllDigits(s))
  {
    if s[0] == '-' then -(NatValue(s[1..]) as int) else NatValue(s)
  }

  lemma IntTextRoundTrip(i: int)
    ensures var s := IntText(i); if s[0] == '-' then AllDigits(s[1..]) else AllDigits(s)
    ensures IntValue(IntText(i)) == i
  {
    var s := IntText(i);
    if i < 0 {
      var t := NatText(-i);
      assert s == ['-'] + t;
      assert s[1..] == t;
      NatTextRoundTrip(-i);
    } else {
      NatTextRoundTrip(i);
    }
  }

  lemma IntTextNoNul(i: int)
    ensures NoNul(IntText(i))
  {
  }

  /** printf's right-justified field `%*s` (with `fill` = ' ') and the zero
      padding of `%02d` (with `fill` = '0'): never truncates. */
  function PadLeft(s: seq<char>, w: int, fill: char): (r: seq<char>)
    ensures |r| == Max(|s|, w)
    ensures r[|r| - |s|..] == s
    ensures forall k :: 0 <= k < |r| - |s| ==> r[k] == fill
  {
    if |s| >= w then s else seq(w - |s|, _ => fill) + s
  }

  /** printf's left-justified field `%-*s`. */
  function PadRight(s: seq<char>, w: int): (r: seq<char>)
    ensures |r| == Max(|s|, w)
    ensures r[..|s|] == s
    ensures forall k :: |s| <= k < |r| ==> r[k] == ' '
  {
    if |s| >= w then s else s + seq(w - |s|, _ => ' ')
  }

  /** What snprintf leaves in a buffer of `cap` bytes: the longest prefix of
      the formatted text that still leaves room for the terminating NUL. */
  function Truncate(cap: nat, s: seq<char>): (r: seq<char>)
    ensures cap > 0 ==> |r| == Min(|s|, cap - 1)
    ensures cap == 0 ==> r == []
    ensures r <= s
  {
    if cap == 0 then [] else s[..Min(|s|, cap - 1)]
  }

  predicate NoNul(s: seq<char>) { forall k :: 0 <= k < |s| ==> s[k] != NUL }

  /** The C string held by a buffer: everything before the first NUL. */
  function CString(a: seq<char>): (r: seq<char>)
    ensures r <= a && NoNul(r)
    ensures |r| < |a| ==> a[|r|] == NUL
  {
    if a == [] || a[0] == NUL then [] else [a[0]] + CString(a[1..])
  }

  lemma {:induction false} CStringOfTerminated(s: seq<char>, a: seq<char>)
    requires NoNul(s) && |s| < |a| && a[..|s|] == s && a[|s|] == NUL
    ensures CString(a) == s
  {
    if s != [] {
      CStringOfTerminated(s[1..], a[1..]);
    }
  }
}
