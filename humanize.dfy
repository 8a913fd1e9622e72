/** `humanize_number`: a signed byte count rendered as a short string such as
    `999B`, `1.0K` or `12K`, computed in integer arithmetic on a value scaled
    to hundredths, with the buffer-length rules of the source.

    `Humanize` is the reference definition, built from the same steps as the
    source (prepare, scale, render); `HumanizeNumber` is the step-by-step
    procedure that writes into the caller's buffer and is proved to agree
    with it. The lemmas below state what the reference promises. */
module Humanize {
  import opened Text

  const HnDecimal: bv32 := 0x01
  const HnNoSpace: bv32 := 0x02
  const HnB: bv32 := 0x04
  const HnDivisor1000: bv32 := 0x08
  const HnGetScale: bv32 := 0x10
  const HnAutoScale: bv32 := 0x20

  const MaxScale: nat := 6
  const Int64Max: int := 0x7fff_ffff_ffff_ffff
  const Int64Min: int := -0x8000_0000_0000_0000

  /** `localeconv()->decimal_point` in the C locale. */
  const DecimalPoint: seq<char> := "."

  /** The flags every caller in the listing engine passes. */
  const ListingFlags: bv32 := HnDecimal | HnB | HnNoSpace

  type Int32 = x: int | -0x8000_0000 <= x < 0x8000_0000

  predicate Has(flags: bv32, f: bv32) { flags & f != 0 }

  /** The scale argument carries the AUTOSCALE or GETSCALE bit. */
  predicate Automatic(scale: Int32)
    requires scale >= 0
  {
    Has(scale as bv32, HnAutoScale | HnGetScale)
  }

  /** The scale argument is refused before anything is written. */
  predicate ScaleRejected(scale: Int32) {
    scale < 0 || (scale > MaxScale && !Automatic(scale))
  }

  function Divisor(flags: bv32): nat {
    if Has(flags, HnDivisor1000) then 1000 else 1024
  }

  /** The prefix table: a bare `B` (only with HN_B) or nothing for scale 0,
      then K, M, G, T, P, E, with a lower-case `k` for SI multiples. */
  function PrefixOf(flags: bv32, i: nat): (p: seq<char>)
    requires i <= MaxScale
    ensures |p| == (if i == 0 && !Has(flags, HnB) then 0 else 1)
  {
    var unit := if Has(flags, HnB) then "B" else "";
    var kilo := if Has(flags, HnDivisor1000) then "k" else "K";
    [unit, kilo, "M", "G", "T", "P", "E"][i]
  }

  function Power(b: nat, e: nat): nat {
    if e == 0 then 1 else b * Power(b, e - 1)
  }

  /** The state after the sign is taken off and the magnitude is scaled to
      hundredths: when that would overflow 64 bits the magnitude is kept as
      it is, `post` is 100 and two more columns are reserved. `baselen`
      counts the sign, one digit, the prefix, the separator and the suffix. */
  datatype Prepared = Prepared(negative: bool, magnitude: nat, post: nat, baselen: nat, sep: seq<char>)

  function Prepare(bytes: int, suffix: seq<char>, flags: bv32): (p: Prepared)
    ensures p.negative == (bytes < 0) && (p.post == 1 || p.post == 100) && |p.sep| <= 1 && NoNul(p.sep)
    ensures p.baselen == (if p.negative then 3 else 2) + (if p.post == 100 then 2 else 0) + |p.sep| + |suffix|
  {
    var negative := bytes < 0;
    var abs := if negative then -bytes else bytes;
    var fits := abs < Int64Max / 100;
    var sep := if Has(flags, HnNoSpace) then "" else " ";
    Prepared(negative,
             if fits then abs * 100 else abs,
             if fits then 1 else 100,
             (if negative then 3 else 2) + (if fits then 0 else 2) + |sep| + |suffix|,
             sep)
  }

  /** The auto-scaling loop: divide while the value does not fit the column
      budget `max` (less 50, for the rounding that follows), at most six times. */
  function AutoDivide(m: nat, max: int, d: nat, i: nat): (r: (nat, nat))
    requires i <= MaxScale && d > 0
    ensures i <= r.1 <= MaxScale
    ensures r.1 < MaxScale ==> r.0 < max - 50
    decreases MaxScale - i
  {
    if m >= max - 50 && i < MaxScale then AutoDivide(m / d, max, d, i + 1) else (m, i)
  }

  /** The explicit-scale loop: divide `scale` times, but at most six times. */
  function FixedDivide(m: nat, scale: nat, d: nat, i: nat): (r: (nat, nat))
    requires i <= MaxScale && d > 0
    ensures r.1 == Max(i, Min(scale, MaxScale))
    decreases MaxScale - i
  {
    if i < scale && i < MaxScale then FixedDivide(m / d, scale, d, i + 1) else (m, i)
  }

  /** Where the computation stands before anything is rendered. */
  datatype Stage = Rejected | ScaleOnly(i: nat) | ToRender(p: Prepared, value: nat, i: nat)

  function Scale(len: nat, bytes: int, suffix: seq<char>, scale: Int32, flags: bv32): (st: Stage)
    ensures st.ScaleOnly? ==> st.i <= MaxScale && scale >= 0 && Has(scale as bv32, HnGetScale)
    ensures st.ToRender? ==> st.i <= MaxScale && st.p == Prepare(bytes, suffix, flags) && len >= st.p.baselen + 1
  {
    if ScaleRejected(scale) then Rejected
    else
      var p := Prepare(bytes, suffix, flags);
      if len < p.baselen + 1 then Rejected
      else ScaleMagnitude(len, p, scale, flags)
  }

  /** The division loop that applies, for an accepted scale and a buffer
      long enough for the prepared text. */
  function ScaleMagnitude(len: nat, p: Prepared, scale: Int32, flags: bv32): (st: Stage)
    requires scale >= 0 && len >= p.baselen + 1
    ensures !st.Rejected?
    ensures st.ScaleOnly? ==> st.i <= MaxScale && Has(scale as bv32, HnGetScale)
    ensures st.ToRender? ==> st.i <= MaxScale && st.p == p
  {
    if Automatic(scale) then
      var r := AutoDivide(p.magnitude, ColumnMax(len, p.baselen), Divisor(flags), 0);
      if Has(scale as bv32, HnGetScale) then ScaleOnly(r.1) else ToRender(p, Hundredths(r.0, p.post), r.1)
    else
      var r := FixedDivide(p.magnitude, scale, Divisor(flags), 0);
      ToRender(p, Hundredths(r.0, p.post), r.1)
  }

  /** The scaled magnitude back in hundredths, `bytes * post`. */
  function Hundredths(m: nat, post: nat): nat { m * post }

  /** `max`: 100 times ten for every column beyond `baselen`. */
  function ColumnMax(len: nat, baselen: nat): int
    requires len >= baselen
  {
    100 * Pow10(len - baselen)
  }

  /** A sign when it is wanted, then digits. */
  function Signed(minus: bool, digits: seq<char>): seq<char> {
    (if minus then "-" else "") + digits
  }

  /** The decimal branch is taken: below 9.95 after scaling, at least one
      division, and HN_DECIMAL set. */
  predicate DecimalBranch(value: nat, i: nat, flags: bv32) {
    value < 995 && i > 0 && Has(flags, HnDecimal)
  }

  /** The `s1.s2` text for `b` tenths: a minus sign whenever the input was
      negative and the printed value is not zero. */
  function DecimalText(negative: bool, b: nat): seq<char>
    requires b < 100
  {
    Signed(negative && b > 0, NatText(b / 10)) + DecimalPoint + NatText(b % 10)
  }

  /** The `s1.s2` text as the source prints it, `%d` of `sign * s1`: the
      minus sign is lost whenever `s1` is zero. */
  function DecimalTextAsWritten(negative: bool, b: nat): seq<char>
    requires b < 100
  {
    IntText(if negative then -(b / 10) else b / 10) + DecimalPoint + NatText(b % 10)
  }

  /** The integer text: `%d` of `sign * ((bytes + 50) / 100)`, half-up. */
  function IntegerText(negative: bool, value: nat): seq<char> {
    var v := (value + 50) / 100;
    IntText(if negative then -v else v)
  }

  datatype Outcome = Failed | Scaled(scale: nat) | Written(text: seq<char>)

  function Render(p: Prepared, value: nat, i: nat, len: nat, flags: bv32, suffix: seq<char>): Outcome
    requires i <= MaxScale
  {
    if DecimalBranch(value, i, flags) then
      if len < p.baselen + 1 + 2 then Failed
      else Written(DecimalText(p.negative, (value + 5) / 10) + p.sep + PrefixOf(flags, i) + suffix)
    else
      Written(IntegerText(p.negative, value) + p.sep + PrefixOf(flags, i) + suffix)
  }

  /** Render with the decimal text exactly as the source prints it. */
  function RenderAsWritten(p: Prepared, value: nat, i: nat, len: nat, flags: bv32, suffix: seq<char>): Outcome
    requires i <= MaxScale
  {
    if DecimalBranch(value, i, flags) then
      if len < p.baselen + 1 + 2 then Failed
      else Written(DecimalTextAsWritten(p.negative, (value + 5) / 10) + p.sep + PrefixOf(flags, i) + suffix)
    else
      Written(IntegerText(p.negative, value) + p.sep + PrefixOf(flags, i) + suffix)
  }

  /** The reference definition of `humanize_number` with a buffer of `len`
      bytes; `Written` carries the whole formatted text. */
  function Humanize(len: nat, bytes: int, suffix: seq<char>, scale: Int32, flags: bv32): (o: Outcome)
    ensures o.Scaled? ==> o.scale <= MaxScale && scale >= 0 && Has(scale as bv32, HnGetScale)
    ensures ScaleRejected(scale) ==> o.Failed?
  {
    match Scale(len, bytes, suffix, scale, flags)
    case Rejected => Failed
    case ScaleOnly(i) => Scaled(i)
    case ToRender(p, value, i) => Render(p, value, i, len, flags, suffix)
  }

  /** The function's return value: -1 on failure, the scale with GETSCALE,
      and otherwise snprintf's count of the characters of the whole text. */
  function CReturn(o: Outcome): int {
    match o
    case Failed => -1
    case Scaled(i) => i
    case Written(s) => |s|
  }

  /** `humanize_number(buf, len, bytes, suffix, scale, flags)`. A scale that
      is refused leaves the buffer alone; otherwise `buf[0]` is cleared, and a
      rendered text is copied in as far as `len - 1` characters and NUL
      terminated. */
  method HumanizeNumber(buf: array<char>, len: nat, bytes: int, suffix: seq<char>, scale: Int32, flags: bv32)
    returns (r: int)
    requires len <= buf.Length
    modifies buf
    ensures r == CReturn(Humanize(len, bytes, suffix, scale, flags))
    ensures ScaleRejected(scale) || len == 0 ==> buf[..] == old(buf[..])
    ensures !ScaleRejected(scale) && len > 0 && !Humanize(len, bytes, suffix, scale, flags).Written? ==>
              buf[0] == NUL && buf[1..] == old(buf[1..])
    ensures Humanize(len, bytes, suffix, scale, flags).Written? ==>
              BufferHolds(Humanize(len, bytes, suffix, scale, flags).text, len, buf[..], old(buf[..]))
  {
    if scale < 0 {
      return -1;
    }
    if scale > MaxScale && !Automatic(scale) {
      return -1;
    }
    if len > 0 {
      buf[0] := NUL;
    }

    var o := Format(len, bytes, suffix, scale, flags);
    if o.Written? {
      r := Snprintf(buf, len, o.text);
    } else {
      r := CReturn(o);
    }
  }

  /** Everything between the scale check and the final snprintf: prepare,
      check the buffer length, scale and format the text. */
  method Format(len: nat, bytes: int, suffix: seq<char>, scale: Int32, flags: bv32) returns (o: Outcome)
    requires !ScaleRejected(scale)
    ensures o == Humanize(len, bytes, suffix, scale, flags)
  {
    var divisor: nat := if Has(flags, HnDivisor1000) then 1000 else 1024;
    var negative, b, post, baselen, sep := PrepareMagnitude(bytes, suffix, flags);
    var p := Prepared(negative, b, post, baselen, sep);

    if len < baselen + 1 {
      return Failed;
    }

    var i: nat;
    if Automatic(scale) {
      var max := ColumnBudget(len, baselen);
      b, i := DivideToFit(b, max, divisor);
      if Has(scale as bv32, HnGetScale) {
        assert Scale(len, bytes, suffix, scale, flags) == ScaleOnly(i);
        return Scaled(i);
      }
      assert Scale(len, bytes, suffix, scale, flags) == ToRender(p, Hundredths(b, post), i);
    } else {
      b, i := DivideBy(b, scale, divisor);
      assert Scale(len, bytes, suffix, scale, flags) == ToRender(p, Hundredths(b, post), i);
    }
    o := RenderText(p, Hundredths(b, post), i, len, flags, suffix);
  }

  /** The final formatting: the decimal `s1.s2` branch (which needs two more
      columns) or the rounded integer. */
  method RenderText(p: Prepared, b: nat, i: nat, len: nat, flags: bv32, suffix: seq<char>) returns (o: Outcome)
    requires i <= MaxScale
    ensures o == Render(p, b, i, len, flags, suffix)
  {
    if b < 995 && i > 0 && Has(flags, HnDecimal) {
      if len < p.baselen + 1 + 2 {
        return Failed;
      }
      o := Written(DecimalText(p.negative, (b + 5) / 10) + p.sep + PrefixOf(flags, i) + suffix);
    } else {
      o := Written(IntegerText(p.negative, b) + p.sep + PrefixOf(flags, i) + suffix);
    }
  }

  /** The sign, the magnitude in hundredths (or unscaled, with `post` = 100,
      when that would overflow), the separator and `baselen`. */
  method PrepareMagnitude(bytes: int, suffix: seq<char>, flags: bv32)
    returns (negative: bool, b: nat, post: nat, baselen: nat, sep: seq<char>)
    ensures Prepared(negative, b, post, baselen, sep) == Prepare(bytes, suffix, flags)
  {
    post := 1;
    if bytes < 0 {
      negative, baselen := true, 3;
      if -bytes < Int64Max / 100 {
        b := bytes * -100;
      } else {
        b := -bytes;
        post := 100;
        baselen := baselen + 2;
      }
    } else {
      negative, baselen := false, 2;
      if bytes < Int64Max / 100 {
        b := bytes * 100;
      } else {
        b := bytes;
        post := 100;
        baselen := baselen + 2;
      }
    }
    if Has(flags, HnNoSpace) {
      sep := "";
    } else {
      sep := " ";
      baselen := baselen + 1;
    }
    baselen := baselen + |suffix|;
  }

  /** The state of a buffer after snprintf of `s` into its first `len` bytes. */
  ghost predicate BufferHolds(s: seq<char>, len: nat, now: seq<char>, before: seq<char>) {
    var k := Min(|s|, len - 1);
    0 <= k < len <= |now| == |before| && now[..k] == s[..k] && now[k] == NUL && now[k + 1..] == before[k + 1..]
  }

  /** The column budget: 100, times ten for every column beyond `baselen`. */
  method ColumnBudget(len: nat, baselen: nat) returns (max: int)
    requires len >= baselen
    ensures max == ColumnMax(len, baselen)
  {
    max := 100;
    var c := len - baselen;
    while c > 0
      invariant 0 <= c <= len - baselen
      invariant max * Pow10(c) == ColumnMax(len, baselen)
    {
      max := max * 10;
      c := c - 1;
    }
  }

  /** The automatic scaling loop: divide until the value fits the budget or
      the largest prefix is reached. */
  method DivideToFit(m: nat, max: int, divisor: nat) returns (b: nat, i: nat)
    requires divisor > 0
    ensures (b, i) == AutoDivide(m, max, divisor, 0)
  {
    b, i := m, 0;
    while b >= max - 50 && i < MaxScale
      invariant i <= MaxScale
      invariant AutoDivide(b, max, divisor, i) == AutoDivide(m, max, divisor, 0)
      decreases MaxScale - i
    {
      var q := b / divisor;
      assert AutoDivide(b, max, divisor, i) == AutoDivide(q, max, divisor, i + 1);
      b, i := q, i + 1;
    }
  }

  /** The explicit scaling loop: divide `scale` times, at most six. */
  method DivideBy(m: nat, scale: nat, divisor: nat) returns (b: nat, i: nat)
    requires divisor > 0
    ensures (b, i) == FixedDivide(m, scale, divisor, 0)
  {
    b, i := m, 0;
    while i < scale && i < MaxScale
      invariant i <= MaxScale
      invariant FixedDivide(b, scale, divisor, i) == FixedDivide(m, scale, divisor, 0)
      decreases MaxScale - i
    {
      var q := b / divisor;
      assert FixedDivide(b, scale, divisor, i) == FixedDivide(q, scale, divisor, i + 1);
      b, i := q, i + 1;
    }
  }

  /** `snprintf(buf, len, "%s", s)` for a buffer of at least `len > 0` bytes:
      copies what fits, terminates it and returns the length of `s`. */
  method Snprintf(buf: array<char>, len: nat, s: seq<char>) returns (r: int)
    requires 0 < len <= buf.Length
    modifies buf
    ensures r == |s|
    ensures BufferHolds(s, len, buf[..], old(buf[..]))
  {
    var n := Min(|s|, len - 1);
    var j := 0;
    while j < n
      invariant 0 <= j <= n
      invariant buf[..j] == s[..j]
      invariant buf[j..] == old(buf[j..])
    {
      buf[j] := s[j];
      j := j + 1;
    }
    ghost var copied := buf[..];
    assert copied[n + 1..] == copied[n..][1..] == old(buf[n..])[1..] == old(buf[n + 1..]);
    buf[n] := NUL;
    assert buf[n + 1..] == copied[n + 1..];
    assert buf[..n] == copied[..n];
    r := |s|;
  }

  // ---------------------------------------------------------------------
  // What the reference definition promises.

  const AutoScaleArg: Int32 := 0x20
  const GetScaleArg: Int32 := 0x10

  lemma ScaleArgBits()
    ensures Automatic(AutoScaleArg) && !Has(AutoScaleArg as bv32, HnGetScale)
    ensures Automatic(GetScaleArg) && Has(GetScaleArg as bv32, HnGetScale)
  {
    assert AutoScaleArg as bv32 == HnAutoScale;
    assert GetScaleArg as bv32 == HnGetScale;
  }

  /** The error cases: a refused scale, a buffer without room for the sign,
      one digit, the prefix, the separator, the suffix and the NUL, or a
      decimal rendering without room for the two extra characters. */
  lemma FailsExactly(len: nat, bytes: int, suffix: seq<char>, scale: Int32, flags: bv32)
    ensures Humanize(len, bytes, suffix, scale, flags).Failed? <==>
              ScaleRejected(scale) || len < Prepare(bytes, suffix, flags).baselen + 1 ||
              (Scale(len, bytes, suffix, scale, flags).ToRender? &&
               DecimalBranch(Scale(len, bytes, suffix, scale, flags).value, Scale(len, bytes, suffix, scale, flags).i, flags) &&
               len < Prepare(bytes, suffix, flags).baselen + 3)
  {
  }

  /** With GETSCALE the function reports exactly the scale whose prefix the
      AUTOSCALE rendering of the same value uses. */
  lemma GetScaleMatchesAutoScale(len: nat, bytes: int, suffix: seq<char>, flags: bv32)
    ensures var g := Humanize(len, bytes, suffix, GetScaleArg, flags);
            var a := Humanize(len, bytes, suffix, AutoScaleArg, flags);
            (g.Failed? <==> len < Prepare(bytes, suffix, flags).baselen + 1) &&
            (g.Scaled? && a.Written? ==> EndsWith(a.text, PrefixOf(flags, g.scale) + suffix))
  {
    ScaleArgBits();
    var p := Prepare(bytes, suffix, flags);
    if len >= p.baselen + 1 {
      var r := AutoDivide(p.magnitude, ColumnMax(len, p.baselen), Divisor(flags), 0);
      var v := Hundredths(r.0, p.post);
      assert Scale(len, bytes, suffix, GetScaleArg, flags) == ScaleOnly(r.1);
      assert Scale(len, bytes, suffix, AutoScaleArg, flags) == ToRender(p, v, r.1);
      assert Humanize(len, bytes, suffix, GetScaleArg, flags) == Scaled(r.1);
      assert Humanize(len, bytes, suffix, AutoScaleArg, flags) == Render(p, v, r.1, len, flags, suffix);
      RenderEndsWithPrefix(p, v, r.1, len, flags, suffix);
    }
  }

  /** Every rendering ends with the prefix of its scale and the suffix. */
  lemma RenderEndsWithPrefix(p: Prepared, value: nat, i: nat, len: nat, flags: bv32, suffix: seq<char>)
    requires i <= MaxScale
    ensures var a := Render(p, value, i, len, flags, suffix);
            a.Written? ==> EndsWith(a.text, PrefixOf(flags, i) + suffix)
  {
    var a := Render(p, value, i, len, flags, suffix);
    var tail := PrefixOf(flags, i) + suffix;
    if a.Written? {
      var head := if DecimalBranch(value, i, flags)
                  then DecimalText(p.negative, (value + 5) / 10) + p.sep
                  else IntegerText(p.negative, value) + p.sep;
      assert a.text == head + tail;
    }
  }

  /** Every rendering is NUL-free when the suffix is, so reading the buffer
      back as a C string yields the (truncated) text. */
  lemma HumanizeTextNoNul(len: nat, bytes: int, suffix: seq<char>, scale: Int32, flags: bv32)
    requires NoNul(suffix)
    ensures Humanize(len, bytes, suffix, scale, flags).Written? ==> NoNul(Humanize(len, bytes, suffix, scale, flags).text)
  {
    var st := Scale(len, bytes, suffix, scale, flags);
    if st.ToRender? {
      RenderNoNul(st.p, st.value, st.i, len, flags, suffix);
    }
  }

  lemma RenderNoNul(p: Prepared, v: nat, i: nat, len: nat, flags: bv32, suffix: seq<char>)
    requires i <= MaxScale && NoNul(suffix) && NoNul(p.sep)
    ensures Render(p, v, i, len, flags, suffix).Written? ==> NoNul(Render(p, v, i, len, flags, suffix).text)
  {
    var tail := p.sep + PrefixOf(flags, i) + suffix;
    assert NoNul(PrefixOf(flags, i));
    assert NoNul(tail);
    var o := Render(p, v, i, len, flags, suffix);
    if DecimalBranch(v, i, flags) {
      if o.Written? {
        var head := DecimalText(p.negative, (v + 5) / 10);
        DecimalTextNoNul(p.negative, (v + 5) / 10);
        assert o.text == head + tail;
      }
    } else {
      var q: int := (v + 50) / 100;
      IntTextNoNul(if p.negative then -q else q);
      assert o.text == IntegerText(p.negative, v) + tail;
    }
  }

  lemma DecimalTextNoNul(negative: bool, b: nat)
    requires b < 100
    ensures NoNul(DecimalText(negative, b))
  {
    assert NoNul(NatText(b / 10)) && NoNul(NatText(b % 10));
  }

  predicate EndsWith(s: seq<char>, t: seq<char>) {
    |t| <= |s| && s[|s| - |t|..] == t
  }

  /** In automatic mode, and whenever the input lies in the 64-bit range, the
      scaling loop stops because the value fits the column budget, never
      because it ran out of prefixes. */
  lemma {:induction false} AutoDivideFits(m: nat, max: int, d: nat, i: nat)
    requires i <= MaxScale && d >= 1000 && max >= 1000
    requires m * Power(d, i) <= Int64Max + 1
    ensures AutoDivide(m, max, d, i).0 < max - 50
    decreases MaxScale - i
  {
    if m >= max - 50 && i < MaxScale {
      QuotientScaled(m, d, i);
      AutoDivideFits(m / d, max, d, i + 1);
    } else if m >= max - 50 {
      TooLargeForSixDivisions(m, d);
    }
  }

  /** Dividing by `d` and multiplying by one more power of `d` never grows. */
  lemma QuotientScaled(m: nat, d: nat, i: nat)
    requires d > 0
    ensures (m / d) * Power(d, i + 1) <= m * Power(d, i)
  {
    var q := m / d;
    assert q * d <= m;
    MulMonotone(q * d, m, Power(d, i));
    assert q * Power(d, i + 1) == (q * d) * Power(d, i);
  }

  /** Ten units still left after six divisions by at least 1000 means the
      input was beyond the 64-bit range. */
  lemma TooLargeForSixDivisions(m: nat, d: nat)
    requires d >= 1000 && m >= 10
    ensures m * Power(d, 6) > Int64Max + 1
  {
    PowerAtLeast(d, 6);
    assert Power(1000, 6) == 1_000_000_000_000_000_000;
    MulMonotone(10, m, Power(d, 6));
  }

  lemma MulMonotone(a: int, b: int, c: nat)
    requires a <= b
    ensures a * c <= b * c
  {
  }

  lemma {:induction false} PowerAtLeast(d: nat, e: nat)
    requires d >= 1000
    ensures Power(1000, e) <= Power(d, e)
  {
    if e > 0 {
      PowerAtLeast(d, e - 1);
      MulMonotone(Power(1000, e - 1), Power(d, e - 1), 1000);
      MulMonotone(1000, d, Power(d, e - 1));
    }
  }

  lemma DivMonotone(a: int, b: int, d: nat)
    requires 0 <= a <= b && d > 0
    ensures a / d <= b / d
  {
    var qa, qb := a / d, b / d;
    if qa > qb {
      MulMonotone(qb + 1, qa, d);
      assert false;
    }
  }

  /** Once the loop has divided, the value is at least the budget divided once. */
  lemma {:induction false} AutoDivideLowerBound(m: nat, max: int, d: nat, i: nat)
    requires i <= MaxScale && d > 0 && max >= 50
    requires i > 0 ==> m >= (max - 50) / d
    ensures var r := AutoDivide(m, max, d, i); r.1 > 0 ==> r.0 >= (max - 50) / d
    decreases MaxScale - i
  {
    if m >= max - 50 && i < MaxScale {
      DivMonotone(max - 50, m, d);
      AutoDivideLowerBound(m / d, max, d, i + 1);
    }
  }

  /** In automatic mode the source's decimal text and the corrected one
      agree: a value that takes the decimal branch is at least 0.97 of a
      unit, so its integer part is never 0. */
  lemma AutoScaleRendersAsWritten(len: nat, bytes: int, suffix: seq<char>, scale: Int32, flags: bv32)
    requires scale >= 0 && Automatic(scale)
    ensures var st := Scale(len, bytes, suffix, scale, flags);
            st.ToRender? ==> Render(st.p, st.value, st.i, len, flags, suffix) == RenderAsWritten(st.p, st.value, st.i, len, flags, suffix)
  {
    var p := Prepare(bytes, suffix, flags);
    if !ScaleRejected(scale) && len >= p.baselen + 1 {
      var max := ColumnMax(len, p.baselen);
      var d := Divisor(flags);
      var r := AutoDivide(p.magnitude, max, d, 0);
      var st := Scale(len, bytes, suffix, scale, flags);
      assert st.ToRender? ==> st == ToRender(p, Hundredths(r.0, p.post), r.1);
      if st.ToRender? && DecimalBranch(st.value, st.i, flags) && len >= p.baselen + 3 {
        AutoDividedValue(p.magnitude, len - p.baselen, d);
        assert r.0 >= 97;
        MulMonotone(1, p.post, r.0);
        RendersAgreeFrom97(p, st.value, st.i, len, flags, suffix);
      }
    }
  }

  /** From 0.97 of a unit up, the two decimal texts agree. */
  lemma RendersAgreeFrom97(p: Prepared, value: nat, i: nat, len: nat, flags: bv32, suffix: seq<char>)
    requires i <= MaxScale && value >= 97
    ensures Render(p, value, i, len, flags, suffix) == RenderAsWritten(p, value, i, len, flags, suffix)
  {
    if DecimalBranch(value, i, flags) && len >= p.baselen + 3 {
      SignKeptFromOne(p.negative, (value + 5) / 10);
    }
  }

  /** After at least one automatic division into a budget of three or more
      columns, the value is at least 97 hundredths. */
  lemma AutoDividedValue(m: nat, k: nat, d: nat)
    requires k >= 3 && (d == 1000 || d == 1024)
    ensures var r := AutoDivide(m, 100 * Pow10(k), d, 0); r.1 > 0 ==> r.0 >= 97
  {
    var max := 100 * Pow10(k);
    Pow10Monotone(3, k);
    assert max >= 100000;
    AutoDivideLowerBound(m, max, d, 0);
    DivMonotone(99950, max - 50, d);
    assert 99950 / d >= 97;
  }

  lemma SignKeptFromOne(negative: bool, b: nat)
    requires 10 <= b < 100
    ensures DecimalText(negative, b) == DecimalTextAsWritten(negative, b)
  {
    assert b / 10 >= 1;
  }

  lemma DecimalTextLength(negative: bool, b: nat)
    requires b < 100
    ensures |DecimalText(negative, b)| <= 4
  {
    assert |NatText(b / 10)| == 1 && |NatText(b % 10)| == 1;
  }

  lemma IntegerTextLength(negative: bool, value: nat, k: nat)
    requires k >= 1 && value + 50 < 100 * Pow10(k)
    ensures |IntegerText(negative, value)| <= (if negative then 1 else 0) + k
  {
    var v := (value + 50) / 100;
    assert v < Pow10(k);
    NatTextFits(v, k);
  }

  /** The length of a rendering, given how far the value was scaled down. */
  lemma RenderFits(p: Prepared, m: nat, i: nat, len: nat, flags: bv32, suffix: seq<char>)
    requires i <= MaxScale && len >= p.baselen + 1 && |p.sep| <= 1
    requires p.post == 1 || p.post == 100
    requires p.baselen == (if p.negative then 3 else 2) + (if p.post == 100 then 2 else 0) + |p.sep| + |suffix|
    requires m < ColumnMax(len, p.baselen) - 50
    ensures var o := Render(p, Hundredths(m, p.post), i, len, flags, suffix);
            o.Written? ==> |o.text| <= len - 1
  {
    var k := len - p.baselen;
    var value := Hundredths(m, p.post);
    var tail := p.sep + PrefixOf(flags, i) + suffix;
    assert |tail| <= |p.sep| + 1 + |suffix|;
    if DecimalBranch(value, i, flags) {
      if len >= p.baselen + 3 {
        DecimalTextLength(p.negative, (value + 5) / 10);
      }
    } else if p.post == 1 {
      IntegerTextLength(p.negative, value, k);
    } else {
      assert 100 * Pow10(k) == Pow10(k + 2);
      IntegerTextLength(p.negative, value, k + 2);
    }
  }

  /** In automatic mode a 64-bit input is rendered without truncation: the
      whole text, with room for the terminating NUL, fits in `len` bytes. */
  lemma AutoScaleFits(len: nat, bytes: int, suffix: seq<char>, scale: Int32, flags: bv32)
    requires Int64Min <= bytes <= Int64Max
    requires scale >= 0 && Automatic(scale)
    ensures var o := Humanize(len, bytes, suffix, scale, flags);
            o.Written? ==> |o.text| <= len - 1
  {
    var st := Scale(len, bytes, suffix, scale, flags);
    if st.ToRender? {
      var p := st.p;
      var max := ColumnMax(len, p.baselen);
      Pow10Monotone(1, len - p.baselen);
      var d := Divisor(flags);
      MagnitudeInRange(bytes, suffix, flags);
      assert p.magnitude * Power(d, 0) == p.magnitude;
      AutoDivideFits(p.magnitude, max, d, 0);
      var r := AutoDivide(p.magnitude, max, d, 0);
      assert st == ToRender(p, Hundredths(r.0, p.post), r.1);
      RenderFits(p, r.0, r.1, len, flags, suffix);
      assert Humanize(len, bytes, suffix, scale, flags) == Render(p, Hundredths(r.0, p.post), r.1, len, flags, suffix);
    }
  }

  /** A 64-bit input keeps a 64-bit magnitude: scaled to hundredths only
      when that cannot overflow, as it is otherwise. */
  lemma MagnitudeInRange(bytes: int, suffix: seq<char>, flags: bv32)
    requires Int64Min <= bytes <= Int64Max
    ensures Prepare(bytes, suffix, flags).magnitude <= Int64Max + 1
  {
  }

  /** The calls of the listing engine (`len` 5, AUTOSCALE, DECIMAL|B|NOSPACE)
      always succeed on a non-negative value below INT64_MAX / 100, with at
      most four characters. */
  lemma ListingHumanizeSucceeds(v: int)
    requires 0 <= v < Int64Max / 100
    ensures var o := Humanize(5, v, "", AutoScaleArg, ListingFlags);
            o.Written? && |o.text| <= 4
  {
    ScaleArgBits();
    var p := Prepare(v, "", ListingFlags);
    assert p.baselen == 2 && p.post == 1;
    AutoScaleFits(5, v, "", AutoScaleArg, ListingFlags);
  }

  /** ... but a value of 1000 PiB (smaller than INT64_MAX) takes the
      unscaled path, is divided down to 0 at scale 6 and then needs the
      decimal branch, for which a 5-byte buffer is too small: it fails. */
  lemma ListingHumanizeFailsAt1000PiB()
    ensures Humanize(5, 1000 * Power(1024, 5), "", AutoScaleArg, ListingFlags) == Failed
  {
    ScaleArgBits();
    var v := 1000 * Power(1024, 5);
    assert v == 1_125_899_906_842_624_000;
    var p := Prepare(v, "", ListingFlags);
    assert p.baselen == 4 && p.post == 100 && p.magnitude == v;
    assert ColumnMax(5, 4) == 1000;
    assert AutoDivide(1000, 1000, 1024, 5) == (0, 6);
    assert AutoDivide(1024000, 1000, 1024, 4) == (0, 6);
    assert AutoDivide(1048576000, 1000, 1024, 3) == (0, 6);
    assert AutoDivide(1073741824000, 1000, 1024, 2) == (0, 6);
    assert AutoDivide(1099511627776000, 1000, 1024, 1) == (0, 6);
    assert AutoDivide(v, 1000, 1024, 0) == (0, 6);
  }

  /** The fixed points of the listing call: `999B`, `1.0K`, `2.0K`, `10B`. */
  lemma FixedPointsBytes()
    ensures Humanize(5, 999, "", AutoScaleArg, ListingFlags) == Written("999B")
    ensures Humanize(5, 10, "", AutoScaleArg, ListingFlags) == Written("10B")
    ensures Humanize(5, 5, "", AutoScaleArg, ListingFlags) == Written("5B")
  {
    ScaleArgBits();
    assert ColumnMax(5, 2) == 100000;
    FixedPoint999();
    FixedPoint10();
    FixedPoint5();
  }

  lemma FixedPoint999()
    requires Automatic(AutoScaleArg) && !Has(AutoScaleArg as bv32, HnGetScale) && ColumnMax(5, 2) == 100000
    ensures Humanize(5, 999, "", AutoScaleArg, ListingFlags) == Written("999B")
  {
    assert NatText(999) == "999";
    assert AutoDivide(99900, 100000, 1024, 0) == (99900, 0);
  }

  lemma FixedPoint10()
    requires Automatic(AutoScaleArg) && !Has(AutoScaleArg as bv32, HnGetScale) && ColumnMax(5, 2) == 100000
    ensures Humanize(5, 10, "", AutoScaleArg, ListingFlags) == Written("10B")
  {
    assert NatText(10) == "10";
    assert AutoDivide(1000, 100000, 1024, 0) == (1000, 0);
  }

  lemma FixedPoint5()
    requires Automatic(AutoScaleArg) && !Has(AutoScaleArg as bv32, HnGetScale) && ColumnMax(5, 2) == 100000
    ensures Humanize(5, 5, "", AutoScaleArg, ListingFlags) == Written("5B")
  {
    assert NatText(5) == "5";
    assert AutoDivide(500, 100000, 1024, 0) == (500, 0);
  }

  lemma FixedPointsKilo()
    ensures Humanize(5, 1000, "", AutoScaleArg, ListingFlags) == Written("1.0K")
    ensures Humanize(5, 2048, "", AutoScaleArg, ListingFlags) == Written("2.0K")
    ensures Humanize(5, 1000, "", AutoScaleArg, ListingFlags | HnDivisor1000) == Written("1.0k")
  {
    ScaleArgBits();
    assert ColumnMax(5, 2) == 100000;
    FixedPoint1000();
    FixedPoint2048();
    FixedPoint1000Decimal();
  }

  lemma FixedPoint1000()
    requires Automatic(AutoScaleArg) && !Has(AutoScaleArg as bv32, HnGetScale) && ColumnMax(5, 2) == 100000
    ensures Humanize(5, 1000, "", AutoScaleArg, ListingFlags) == Written("1.0K")
  {
    assert AutoDivide(97, 100000, 1024, 1) == (97, 1);
  }

  lemma FixedPoint2048()
    requires Automatic(AutoScaleArg) && !Has(AutoScaleArg as bv32, HnGetScale) && ColumnMax(5, 2) == 100000
    ensures Humanize(5, 2048, "", AutoScaleArg, ListingFlags) == Written("2.0K")
  {
    assert AutoDivide(200, 100000, 1024, 1) == (200, 1);
  }

  lemma FixedPoint1000Decimal()
    requires Automatic(AutoScaleArg) && !Has(AutoScaleArg as bv32, HnGetScale) && ColumnMax(5, 2) == 100000
    ensures Humanize(5, 1000, "", AutoScaleArg, ListingFlags | HnDivisor1000) == Written("1.0k")
  {
    assert AutoDivide(100, 100000, 1000, 1) == (100, 1);
  }

  /** A negative value keeps its sign and is charged one more column. */
  lemma FixedPointNegative()
    ensures Humanize(6, -2048, "", AutoScaleArg, ListingFlags) == Written("-2.0K")
    ensures Humanize(5, -2048, "", AutoScaleArg, ListingFlags) == Failed
  {
    ScaleArgBits();
    assert ColumnMax(6, 3) == 100000 && ColumnMax(5, 3) == 10000;
    assert AutoDivide(200, 100000, 1024, 1) == (200, 1);
    assert AutoDivide(200, 10000, 1024, 1) == (200, 1);
  }

  /** The corrected decimal text begins with a minus sign exactly when the
      input was negative and the printed value is not zero. */
  lemma DecimalTextKeepsSign(negative: bool, b: nat)
    requires b < 100
    ensures (DecimalText(negative, b)[0] == '-') == (negative && b > 0)
  {
  }

  /** The source's decimal text loses the sign: -100 bytes at explicit scale
      1 becomes 9 hundredths of a K, printed `0.1K` instead of `-0.1K`. */
  lemma DecimalSignDropped()
    ensures Scale(6, -100, "", 1, ListingFlags) == ToRender(Prepare(-100, "", ListingFlags), 9, 1)
    ensures RenderAsWritten(Prepare(-100, "", ListingFlags), 9, 1, 6, ListingFlags, "") == Written("0.1K")
    ensures Humanize(6, -100, "", 1, ListingFlags) == Written("-0.1K")
  {
    assert !Automatic(1) by { assert (1 as Int32) as bv32 == 1; }
    assert FixedDivide(10000, 1, 1024, 0) == (9, 1);
  }
}
