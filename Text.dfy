/** Text helpers shared by the three scripts: ASCII digits, the decimal
    rendering Python's f-strings use for integers, zero padding (`{i:04d}`),
    `str.join`, character counting and an optional value. */
module Text {

  /** Python's `None`-or-value. */
  datatype Option<+T> = None | Some(value: T)

  predicate IsDigit(c: char) {
    '0' <= c <= '9'
  }

  predicate AllDigits(s: string) {
    forall i :: 0 <= i < |s| ==> IsDigit(s[i])
  }

  predicate NoChar(c: char, s: string) {
    forall i :: 0 <= i < |s| ==> s[i] != c
  }

  function DigitChar(d: nat): (c: char)
    requires d < 10
    ensures IsDigit(c) && c as int - '0' as int == d
  {
    (('0' as int) + d) as char
  }

  /** Decimal rendering of a natural number, as `str(n)` / `f"{n}"`. */
  function NatStr(n: nat): (s: string)
    ensures |s| >= 1 && AllDigits(s)
    ensures |s| > 1 ==> s[0] != '0'
    decreases n
  {
    if n < 10 then [DigitChar(n)] else NatStr(n / 10) + [DigitChar(n % 10)]
  }

  /** The value of a run of decimal digits (leading zeros allowed), as `int(s)`. */
  function DigitsValue(s: string): nat
    requires AllDigits(s)
  {
    if s == [] then 0
    else DigitsValue(s[..|s| - 1]) * 10 + (s[|s| - 1] as int - '0' as int)
  }

  /** Decimal rendering of an integer (`f"{i}"`): a minus sign exactly for
      negative numbers, then digits without a leading zero. */
  function IntStr(i: int): (s: string)
    ensures |s| >= 1
    ensures s[0] == '-' <==> i < 0
    ensures var digits := if i < 0 then s[1..] else s;
      && |digits| >= 1 && AllDigits(digits)
      && (|digits| > 1 ==> digits[0] != '0')
  {
    if i < 0 then "-" + NatStr(-i) else NatStr(i)
  }

  /** Different integers are written differently. */
  lemma IntStrInjective(a: int, b: int)
    requires IntStr(a) == IntStr(b)
    ensures a == b
  {
    if a < 0 && b < 0 {
      assert NatStr(-a) == IntStr(a)[1..];
      NatStrInjective(-a, -b);
    } else if a >= 0 && b >= 0 {
      NatStrInjective(a, b);
    }
  }

  /** The text of an integer holds only the sign and digits. */
  lemma IntStrNoChar(i: int, c: char)
    requires c != '-' && !IsDigit(c)
    ensures NoChar(c, IntStr(i))
  {
    if i < 0 {
      assert forall k :: 1 <= k < |IntStr(i)| ==> IntStr(i)[k] == NatStr(-i)[k - 1];
    }
  }

  function Repeat(c: char, k: nat): (s: string)
    ensures |s| == k && forall i :: 0 <= i < k ==> s[i] == c
  {
    if k == 0 then [] else [c] + Repeat(c, k - 1)
  }

  /** `f"{n:0{width}d}"` for a natural number: zeros on the left up to `width`. */
  function ZeroPadded(n: nat, width: nat): (s: string)
    ensures AllDigits(s)
    ensures |s| == if |NatStr(n)| < width then width else |NatStr(n)|
  {
    var d := NatStr(n);
    if |d| < width then Repeat('0', width - |d|) + d else d
  }

  /** `[f(x) for x in s]`, built from the end as a loop that appends does. */
  function Map<T, U>(f: T -> U, s: seq<T>): (r: seq<U>)
    ensures |r| == |s|
  {
    if s == [] then [] else Map(f, s[..|s| - 1]) + [f(s[|s| - 1])]
  }

  lemma {:induction false} MapIndex<T, U>(f: T -> U, s: seq<T>)
    ensures forall k :: 0 <= k < |s| ==> Map(f, s)[k] == f(s[k])
  {
    if s != [] {
      var init := s[..|s| - 1];
      MapIndex(f, init);
      assert forall k :: 0 <= k < |init| ==> init[k] == s[k];
    }
  }

  /** One more step of a loop that appends `f` of each element. */
  lemma MapStep<T, U>(f: T -> U, s: seq<T>, i: nat)
    requires i < |s|
    ensures Map(f, s[..i + 1]) == Map(f, s[..i]) + [f(s[i])]
  {
    assert s[..i + 1][..i] == s[..i];
  }

  /** `[f(k) for k in range(m)]`, built from the end. */
  function Tabulate<U>(f: nat -> U, m: nat): (r: seq<U>)
    ensures |r| == m
  {
    if m == 0 then [] else Tabulate(f, m - 1) + [f(m - 1)]
  }

  lemma {:induction false} TabulateIndex<U>(f: nat -> U, m: nat)
    ensures forall k :: 0 <= k < m ==> Tabulate(f, m)[k] == f(k)
  {
    if m > 0 {
      TabulateIndex(f, m - 1);
    }
  }

  /** `sep.join(parts)`. */
  function Join(parts: seq<string>, sep: string): string
  {
    if |parts| == 0 then ""
    else if |parts| == 1 then parts[0]
    else parts[0] + sep + Join(parts[1..], sep)
  }

  lemma JoinTwo(a: string, b: string, sep: string)
    ensures Join([a, b], sep) == a + sep + b
  {
    assert [a, b][1..] == [b];
  }

  lemma JoinThree(a: string, b: string, c: string, sep: string)
    ensures Join([a, b, c], sep) == a + sep + b + sep + c
  {
    assert [a, b, c][1..] == [b, c];
    JoinTwo(b, c, sep);
  }

  /** `"".join(parts)`. */
  function Concat(parts: seq<string>): string
  {
    if |parts| == 0 then "" else parts[0] + Concat(parts[1..])
  }

  function Count(c: char, s: string): nat
  {
    if s == [] then 0 else (if s[0] == c then 1 else 0) + Count(c, s[1..])
  }

  /** Index of the first `c` in `s`, or `|s|` when there is none. */
  function FirstIndex(c: char, s: string): (i: nat)
    ensures i <= |s|
  {
    if s == [] || s[0] == c then 0 else 1 + FirstIndex(c, s[1..])
  }

  predicate StartsWith(s: string, prefix: string) {
    |prefix| <= |s| && s[..|prefix|] == prefix
  }

  predicate EndsWith(s: string, suffix: string) {
    |suffix| <= |s| && s[|s| - |suffix|..] == suffix
  }

  // ---------------------------------------------------------------------
  // Lemmas

  lemma EndsWithConcat(a: string, b: string)
    ensures EndsWith(a + b, b)
  {
    assert (a + b)[|a|..] == b;
  }

  lemma StartsWithConcat(a: string, b: string)
    ensures StartsWith(a + b, a)
  {
    assert (a + b)[..|a|] == a;
  }

  /** Moving the brackets of a five-part concatenation. */
  lemma Regroup4(x: string, y: string, z: string, u: string, v: string)
    ensures x + (y + (z + u + v)) == x + y + z + u + v
  {}

  /** The same with a sixth part after the bracket. */
  lemma Regroup(x: string, y: string, z: string, u: string, v: string, w: string)
    ensures x + (y + (z + u + v)) + w == x + y + z + u + (v + w)
  {
  }

  lemma StartsWithTransitive(s: string, t: string, u: string)
    requires StartsWith(s, t) && StartsWith(t, u)
    ensures StartsWith(s, u)
  {
    assert s[..|u|] == t[..|u|];
  }

  lemma EndsWithTransitive(s: string, t: string, u: string)
    requires EndsWith(s, t) && EndsWith(t, u)
    ensures EndsWith(s, u)
  {
    assert s[|s| - |u|..] == t[|t| - |u|..];
  }

  /** In `a + [c] + b` with no `c` in `a`, the first `c` is the one after `a`. */
  lemma {:induction false} FirstIndexAfterFree(c: char, a: string, b: string)
    requires NoChar(c, a)
    ensures FirstIndex(c, a + [c] + b) == |a|
    decreases |a|
  {
    if a != [] {
      assert (a + [c] + b)[1..] == a[1..] + [c] + b;
      FirstIndexAfterFree(c, a[1..], b);
    }
  }

  /** Reading back the decimal rendering gives the number: `int(str(n)) == n`. */
  lemma {:induction false} NatStrRoundTrip(n: nat)
    ensures DigitsValue(NatStr(n)) == n
    decreases n
  {
    var s := NatStr(n);
    if n >= 10 {
      NatStrRoundTrip(n / 10);
      assert s[..|s| - 1] == NatStr(n / 10);
    }
  }

  lemma NatStrInjective(a: nat, b: nat)
    requires NatStr(a) == NatStr(b)
    ensures a == b
  {
    NatStrRoundTrip(a);
    NatStrRoundTrip(b);
  }

  lemma {:induction false} DigitsValueOfZeros(k: nat)
    ensures DigitsValue(Repeat('0', k)) == 0
  {
    if k > 0 {
      var z := Repeat('0', k);
      assert z[..k - 1] == Repeat('0', k - 1);
      DigitsValueOfZeros(k - 1);
    }
  }

  /** Leading zeros do not change the value of a digit run. */
  lemma {:induction false} DigitsValueLeadingZeros(k: nat, s: string)
    requires AllDigits(s)
    ensures AllDigits(Repeat('0', k) + s)
    ensures DigitsValue(Repeat('0', k) + s) == DigitsValue(s)
    decreases |s|
  {
    var z := Repeat('0', k);
    var t := z + s;
    assert AllDigits(t) by {
      forall i | 0 <= i < |t| ensures IsDigit(t[i]) {
        if i < k { assert t[i] == z[i]; } else { assert t[i] == s[i - k]; }
      }
    }
    if s == [] {
      assert t == z;
      DigitsValueOfZeros(k);
    } else {
      assert t[..|t| - 1] == z + s[..|s| - 1];
      assert t[|t| - 1] == s[|s| - 1];
      DigitsValueLeadingZeros(k, s[..|s| - 1]);
    }
  }

  /** The zero-padded rendering still reads back as the number, so distinct
      numbers never share a padded name. */
  lemma ZeroPaddedRoundTrip(n: nat, width: nat)
    ensures DigitsValue(ZeroPadded(n, width)) == n
  {
    var d := NatStr(n);
    var p := ZeroPadded(n, width);
    NatStrRoundTrip(n);
    if |d| < width {
      var z := Repeat('0', width - |d|);
      assert p == z + d;
      DigitsValueLeadingZeros(width - |d|, d);
      assert DigitsValue(p) == DigitsValue(z + d);
    } else {
      assert p == d;
    }
  }

  lemma ZeroPaddedInjective(a: nat, b: nat, width: nat)
    requires ZeroPadded(a, width) == ZeroPadded(b, width)
    ensures a == b
  {
    ZeroPaddedRoundTrip(a, width);
    ZeroPaddedRoundTrip(b, width);
  }

  lemma {:induction false} CountAppend(c: char, a: string, b: string)
    ensures Count(c, a + b) == Count(c, a) + Count(c, b)
    decreases |a|
  {
    if a != [] {
      assert (a + b)[1..] == a[1..] + b;
      CountAppend(c, a[1..], b);
    } else {
      assert a + b == b;
    }
  }

  lemma {:induction false} CountNone(c: char, s: string)
    requires NoChar(c, s)
    ensures Count(c, s) == 0
    decreases |s|
  {
    if s != [] {
      CountNone(c, s[1..]);
    }
  }

  /** Joining `k >= 1` pieces free of the one-character separator puts exactly
      `k - 1` separators in the result, so it splits back into `k` pieces. */
  lemma {:induction false} JoinSeparatorCount(parts: seq<string>, sep: char)
    requires |parts| >= 1
    requires forall i :: 0 <= i < |parts| ==> NoChar(sep, parts[i])
    ensures Count(sep, Join(parts, [sep])) == |parts| - 1
    decreases |parts|
  {
    CountNone(sep, parts[0]);
    if |parts| > 1 {
      JoinSeparatorCount(parts[1..], sep);
      CountAppend(sep, parts[0] + [sep], Join(parts[1..], [sep]));
      CountAppend(sep, parts[0], [sep]);
    }
  }

}
