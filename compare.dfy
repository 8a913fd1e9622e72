/** The comparators handed to the tree walker to order sibling entries: by
    name, by size (larger first) and by one of the three timestamps (newer
    first), with a name tie-break in time mode and reversal on request. */
module Compare {
  import opened Wrappers
  import opened Opt
  import opened Fts

  /** `strcmp` on two NUL-free names, reduced to its sign: bytes are
      compared as unsigned values and a proper prefix sorts first. */
  function LexCompare(s: seq<char>, t: seq<char>): (r: int)
    ensures -1 <= r <= 1
    ensures (r == 0) == (s == t)
  {
    if s == [] && t == [] then 0
    else if s == [] then -1
    else if t == [] then 1
    else if s[0] < t[0] then -1
    else if s[0] > t[0] then 1
    else
      assert s == [s[0]] + s[1..] && t == [t[0]] + t[1..];
      LexCompare(s[1..], t[1..])
  }

  /** A reference definition of "`s` sorts before `t`": `s` is a proper
      prefix of `t`, or the two first differ at a position where `s` holds
      the smaller byte. */
  predicate LexLess(s: seq<char>, t: seq<char>) {
    (|s| < |t| && s == t[..|s|]) ||
    (exists k :: 0 <= k < |s| && k < |t| && s[..k] == t[..k] && s[k] < t[k])
  }

  lemma LexCompareIsLexLess(s: seq<char>, t: seq<char>)
    ensures LexCompare(s, t) < 0 <==> LexLess(s, t)
  {
    if LexLess(s, t) {
      if |s| < |t| && s == t[..|s|] {
        PrefixSortsFirst(s, t);
      } else {
        var k :| 0 <= k < |s| && k < |t| && s[..k] == t[..k] && s[k] < t[k];
        FirstDifferenceDecides(s, t, k);
      }
    }
    if LexCompare(s, t) < 0 {
      NegativeIsLexLess(s, t);
    }
  }

  lemma {:induction false} PrefixSortsFirst(s: seq<char>, t: seq<char>)
    requires |s| < |t| && s == t[..|s|]
    ensures LexCompare(s, t) < 0
    decreases |s|
  {
    if s != [] {
      assert s[0] == t[..|s|][0];
      assert s[1..] == t[1..][..|s| - 1];
      PrefixSortsFirst(s[1..], t[1..]);
    }
  }

  lemma {:induction false} FirstDifferenceDecides(s: seq<char>, t: seq<char>, k: nat)
    requires k < |s| && k < |t| && s[..k] == t[..k] && s[k] < t[k]
    ensures LexCompare(s, t) < 0
  {
    if k > 0 {
      assert s[0] == s[..k][0] && t[0] == t[..k][0];
      assert s[1..][..k - 1] == s[1..k] && t[1..][..k - 1] == t[1..k];
      assert s[1..k] == s[..k][1..] && t[1..k] == t[..k][1..];
      FirstDifferenceDecides(s[1..], t[1..], k - 1);
    }
  }

  lemma {:induction false} NegativeIsLexLess(s: seq<char>, t: seq<char>)
    requires LexCompare(s, t) < 0
    ensures LexLess(s, t)
  {
    if s == [] {
      assert s == t[..0];
    } else if s[0] < t[0] {
      assert s[..0] == t[..0];
    } else {
      var s', t' := s[1..], t[1..];
      NegativeIsLexLess(s', t');
      if |s'| < |t'| && s' == t'[..|s'|] {
        assert s == [s[0]] + s' && t[..|s|] == [t[0]] + t'[..|s'|];
      } else {
        var k :| 0 <= k < |s'| && k < |t'| && s'[..k] == t'[..k] && s'[k] < t'[k];
        assert s[..k + 1] == [s[0]] + s'[..k] && t[..k + 1] == [t[0]] + t'[..k];
        assert s[k + 1] < t[k + 1];
      }
    }
  }

  lemma {:induction false} LexCompareAntisymmetric(s: seq<char>, t: seq<char>)
    ensures LexCompare(t, s) == -LexCompare(s, t)
  {
    if s != [] && t != [] && s[0] == t[0] {
      LexCompareAntisymmetric(s[1..], t[1..]);
    }
  }

  lemma {:induction false} LexCompareTransitive(s: seq<char>, t: seq<char>, u: seq<char>)
    requires LexCompare(s, t) < 0 && LexCompare(t, u) < 0
    ensures LexCompare(s, u) < 0
  {
    if s != [] && t != [] && u != [] && s[0] == t[0] == u[0] {
      LexCompareTransitive(s[1..], t[1..], u[1..]);
    }
  }

  /** `cmp_alpha`: the sign of `strcmp` of the two names. */
  function CmpAlpha(a: Entry, b: Entry): (r: int)
    ensures -1 <= r <= 1
    ensures r == 0 <==> a.name == b.name
    ensures r < 0 <==> LexLess(a.name, b.name)
  {
    LexCompareIsLexLess(a.name, b.name);
    LexCompare(a.name, b.name)
  }

  /** The shared shape of `cmp_size` and `cmp_time`: -1 when the first key
      is larger, 0 when they are equal, 1 otherwise. */
  function Descending(x: int, y: int): (r: int)
    ensures r == -1 <==> x > y
    ensures r == 0 <==> x == y
    ensures r == 1 <==> x < y
  {
    if x > y then -1 else if x == y then 0 else 1
  }

  /** `cmp_size`: larger files first. */
  function CmpSize(a: Entry, b: Entry): (r: int)
    ensures r == -1 <==> a.stat.size > b.stat.size
    ensures r == 0 <==> a.stat.size == b.stat.size
    ensures r == 1 <==> a.stat.size < b.stat.size
  {
    Descending(a.stat.size, b.stat.size)
  }

  /** `cmp_time`: the newer entry first, by the timestamp `t` selects. */
  function CmpTime(t: TimeCategory, a: Entry, b: Entry): (r: int)
    ensures r == -1 <==> TimeOf(a.stat, t) > TimeOf(b.stat, t)
    ensures r == 0 <==> TimeOf(a.stat, t) == TimeOf(b.stat, t)
    ensures r == 1 <==> TimeOf(a.stat, t) < TimeOf(b.stat, t)
  {
    Descending(TimeOf(a.stat, t), TimeOf(b.stat, t))
  }

  /** `main_compare`: the comparator for the selected sort field, a name
      tie-break in time mode, negated under `-r`. An unsorted listing never
      installs it and reaches the fatal branch. */
  function MainCompare(o: Options, a: Entry, b: Entry): (r: Result<int>)
    ensures r.Fatal? <==> o.sort == NotSorted
    ensures r.Ok? ==> -1 <= r.value <= 1
  {
    match o.sort
    case Size => Ok(Oriented(o, CmpSize(a, b)))
    case Time => Ok(Oriented(o, if CmpTime(o.time, a, b) == 0 then CmpAlpha(a, b) else CmpTime(o.time, a, b)))
    case Alphabetical => Ok(Oriented(o, CmpAlpha(a, b)))
    case NotSorted => Fatal("invalid sort function")
  }

  /** `res *= -1` under `-r`. */
  function Oriented(o: Options, res: int): int {
    if o.sortReverse then -res else res
  }

  // ---------------------------------------------------------------------
  // The ordering laws.

  /** The comparator for the forward direction, as a plain integer. */
  function Forward(o: Options, a: Entry, b: Entry): int
    requires o.sort != NotSorted
  {
    MainCompare(o.(sortReverse := false), a, b).value
  }

  /** `-r` negates the result after the tie-break. */
  lemma ReverseNegates(o: Options, a: Entry, b: Entry)
    requires o.sort != NotSorted
    ensures MainCompare(o.(sortReverse := true), a, b).value == -Forward(o, a, b)
  {
  }

  lemma MainCompareAntisymmetric(o: Options, a: Entry, b: Entry)
    requires o.sort != NotSorted
    ensures MainCompare(o, b, a).value == -MainCompare(o, a, b).value
  {
    LexCompareAntisymmetric(a.name, b.name);
  }

  /** By name only equal names tie; by time, only equal names with equal
      timestamps, so distinct names never tie. */
  lemma TiesOnlyOnEqualNames(o: Options, a: Entry, b: Entry)
    requires o.sort == Time || o.sort == Alphabetical
    ensures MainCompare(o, a, b).value == 0 <==>
              a.name == b.name && (o.sort == Time ==> TimeOf(a.stat, o.time) == TimeOf(b.stat, o.time))
  {
  }

  /** By size there is no tie-break: equal sizes tie whatever the names. */
  lemma SizeTiesOnEqualSizes(o: Options, a: Entry, b: Entry)
    requires o.sort == Size
    ensures MainCompare(o, a, b).value == 0 <==> a.stat.size == b.stat.size
  {
  }

  /** In time mode the order is newer first, then by name. */
  lemma TimeThenName(o: Options, a: Entry, b: Entry)
    requires o.sort == Time && !o.sortReverse
    ensures MainCompare(o, a, b).value < 0 <==>
              TimeOf(a.stat, o.time) > TimeOf(b.stat, o.time) ||
              (TimeOf(a.stat, o.time) == TimeOf(b.stat, o.time) && LexLess(a.name, b.name))
  {
  }

  lemma {:induction false} MainCompareTransitive(o: Options, a: Entry, b: Entry, c: Entry)
    requires o.sort != NotSorted
    requires MainCompare(o, a, b).value < 0 && MainCompare(o, b, c).value < 0
    ensures MainCompare(o, a, c).value < 0
  {
    if o.sortReverse {
      LexCompareAntisymmetric(a.name, b.name);
      LexCompareAntisymmetric(b.name, c.name);
      LexCompareAntisymmetric(a.name, c.name);
      if LexCompare(c.name, b.name) < 0 && LexCompare(b.name, a.name) < 0 {
        LexCompareTransitive(c.name, b.name, a.name);
      }
    } else if LexCompare(a.name, b.name) < 0 && LexCompare(b.name, c.name) < 0 {
      LexCompareTransitive(a.name, b.name, c.name);
    }
  }

  lemma MainCompareTiesTransitive(o: Options, a: Entry, b: Entry, c: Entry)
    requires o.sort != NotSorted
    requires MainCompare(o, a, b).value == 0 && MainCompare(o, b, c).value == 0
    ensures MainCompare(o, a, c).value == 0
  {
  }

  /** A tie on either side does not break strict order: together with the
      two lemmas above, the comparator is a strict weak ordering in every
      sorted mode. */
  lemma {:induction false} MainCompareIncomparableTransitive(o: Options, a: Entry, b: Entry, c: Entry)
    requires o.sort != NotSorted
    requires MainCompare(o, a, b).value < 0 && MainCompare(o, b, c).value == 0
    ensures MainCompare(o, a, c).value < 0
  {
    MainCompareAntisymmetric(o, a, c);
    MainCompareAntisymmetric(o, b, c);
    MainCompareAntisymmetric(o, a, b);
    if MainCompare(o, a, c).value == 0 {
      MainCompareTiesTransitive(o, c, a, b);
    } else if MainCompare(o, a, c).value > 0 {
      MainCompareTransitive(o, c, a, b);
    }
  }
}
