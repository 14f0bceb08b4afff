/** Python's `sorted` on a list of strings: strings compare lexicographically
    by code point, a proper prefix first. Modelled as insertion sort, with
    proofs that the result is ordered and a permutation of the input. */
module Sorting {

  /** `a <= b` on Python strings. */
  predicate StrLe(a: string, b: string)
    decreases |a|
  {
    if a == [] then true
    else if b == [] then false
    else if a[0] != b[0] then a[0] < b[0]
    else StrLe(a[1..], b[1..])
  }

  predicate Sorted(s: seq<string>) {
    forall i, j :: 0 <= i < j < |s| ==> StrLe(s[i], s[j])
  }

  lemma {:induction false} StrLeTotal(a: string, b: string)
    ensures StrLe(a, b) || StrLe(b, a)
    decreases |a|
  {
    if a != [] && b != [] && a[0] == b[0] {
      StrLeTotal(a[1..], b[1..]);
    }
  }

  lemma {:induction false} StrLeTransitive(a: string, b: string, c: string)
    requires StrLe(a, b) && StrLe(b, c)
    ensures StrLe(a, c)
    decreases |a|
  {
    if a != [] && b != [] && c != [] && a[0] == b[0] && b[0] == c[0] {
      StrLeTransitive(a[1..], b[1..], c[1..]);
    }
  }

  lemma {:induction false} StrLeAntisymmetric(a: string, b: string)
    requires StrLe(a, b) && StrLe(b, a)
    ensures a == b
    decreases |a|
  {
    if a != [] && b != [] {
      StrLeAntisymmetric(a[1..], b[1..]);
      assert a == [a[0]] + a[1..] && b == [b[0]] + b[1..];
    }
  }

  /** Inserts `x` before the first element it does not exceed. */
  function Insert(x: string, s: seq<string>): (r: seq<string>)
    requires Sorted(s)
    ensures Sorted(r)
    ensures multiset(r) == multiset(s) + multiset{x}
    ensures |r| == |s| + 1
  {
    if s == [] then [x]
    else if StrLe(x, s[0]) then
      SortedBelowHead(x, s);
      [x] + s
    else
      var rest := Insert(x, s[1..]);
      StrLeTotal(x, s[0]);
      HeadBelowTail(s);
      BoundBelow(s[0], s[1..], x, rest);
      SortedConsAll(s[0], rest);
      assert s == [s[0]] + s[1..];
      [s[0]] + rest
  }

  /** An element below everything of a sorted sequence can go in front. */
  lemma SortedConsAll(h: string, s: seq<string>)
    requires Sorted(s)
    requires forall k :: 0 <= k < |s| ==> StrLe(h, s[k])
    ensures Sorted([h] + s)
  {
    var r := [h] + s;
    forall i, j | 0 <= i < j < |r| ensures StrLe(r[i], r[j]) {
      assert r[j] == s[j - 1];
      if i > 0 { assert r[i] == s[i - 1]; }
    }
  }

  lemma SortedBelowHead(x: string, s: seq<string>)
    requires Sorted(s) && s != [] && StrLe(x, s[0])
    ensures Sorted([x] + s)
  {
    forall k | 0 <= k < |s| ensures StrLe(x, s[k]) {
      if k > 0 { StrLeTransitive(x, s[0], s[k]); }
    }
    SortedConsAll(x, s);
  }

  lemma HeadBelowTail(s: seq<string>)
    requires Sorted(s) && s != []
    ensures forall k :: 0 <= k < |s[1..]| ==> StrLe(s[0], s[1..][k])
  {
    forall k | 0 <= k < |s[1..]| ensures StrLe(s[0], s[1..][k]) {
      assert s[1..][k] == s[k + 1];
    }
  }

  /** A bound on every element of `tail` and on `x` bounds every element of
      any rearrangement of them. */
  lemma BoundBelow(h: string, tail: seq<string>, x: string, rest: seq<string>)
    requires multiset(rest) == multiset(tail) + multiset{x}
    requires StrLe(h, x)
    requires forall k :: 0 <= k < |tail| ==> StrLe(h, tail[k])
    ensures forall k :: 0 <= k < |rest| ==> StrLe(h, rest[k])
  {
    forall k | 0 <= k < |rest| ensures StrLe(h, rest[k]) {
      assert rest[k] in multiset(rest);
      if rest[k] != x {
        assert rest[k] in multiset(tail);
        var m :| 0 <= m < |tail| && tail[m] == rest[k];
      }
    }
  }

  /** `sorted(s)`. */
  function SortStrings(s: seq<string>): (r: seq<string>)
    ensures Sorted(r)
    ensures multiset(r) == multiset(s)
    ensures |r| == |s|
  {
    if s == [] then []
    else
      assert s == [s[0]] + s[1..];
      Insert(s[0], SortStrings(s[1..]))
  }
}
