/** The file-name pattern both composers use to label videos,
    `^(.+)_(\d+)\.mp4$` under Python's `re.match`: `.` is any character but a
    newline, `\d` is taken as an ASCII digit, and `$` matches at the very end
    or just before a final newline. A name such as `run_7.mp4` splits into the
    base `run` and the number `7`. */
module Naming {
  import opened Text

  datatype NameParts = NameParts(base: string, num: string)

  /** What `find_videos` returns when at least one file was found: the sorted
      videos, one label per video, and the common name (`""` for none). */
  datatype Found = Found(videos: seq<string>, labels: seq<string>, commonName: string)

  /** What the pattern accepts, stated directly: a non-empty base without
      newlines, `_`, a non-empty digit run, `.mp4`, and an optional final
      newline. */
  predicate Matches(name: string, base: string, num: string)
  {
    |base| >= 1 && NoChar('\n', base) && |num| >= 1 && AllDigits(num) &&
    (name == base + "_" + num + ".mp4" || name == base + "_" + num + ".mp4\n")
  }

  /** Length of the longest run of digits that ends `s`. */
  function TrailingDigits(s: string): (k: nat)
    ensures k <= |s|
    ensures AllDigits(s[|s| - k..])
    ensures k < |s| ==> !IsDigit(s[|s| - k - 1])
  {
    if s == [] || !IsDigit(s[|s| - 1]) then 0
    else
      var init := s[..|s| - 1];
      var k := TrailingDigits(init);
      AllDigitsSnoc(init[|init| - k..], s[|s| - 1]);
      assert s[|s| - (k + 1)..] == init[|init| - k..] + [s[|s| - 1]];
      k + 1
  }

  lemma AllDigitsSnoc(t: string, c: char)
    requires AllDigits(t) && IsDigit(c)
    ensures AllDigits(t + [c])
  {
    var u := t + [c];
    forall i | 0 <= i < |u| ensures IsDigit(u[i]) {
      if i < |t| { assert u[i] == t[i]; }
    }
  }

  /** The name without `.mp4` (and without the newline `$` may skip). */
  function Core(name: string): Option<string>
  {
    if EndsWith(name, ".mp4") then Some(name[..|name| - 4])
    else if EndsWith(name, ".mp4\n") then Some(name[..|name| - 5])
    else None
  }

  /** `pattern.match(name)`: the base and the number, or `None`. Since the
      number is all digits, the `_` before it can only be the last one, so
      the split is unique and greediness does not change it. */
  function ParseName(name: string): Option<NameParts>
  {
    match Core(name)
    case None => None
    case Some(c) => SplitCore(c)
  }

  /** Splits `<base>_<digits>` at the `_` before the trailing digit run. */
  function SplitCore(c: string): Option<NameParts>
  {
    var k := TrailingDigits(c);
    if k >= 1 && |c| - k - 1 >= 1 && c[|c| - k - 1] == '_' && NoChar('\n', c[..|c| - k - 1])
    then Some(NameParts(c[..|c| - k - 1], c[|c| - k..]))
    else None
  }

  /** Whatever the parser returns is a genuine match: the parts rebuild the name. */
  lemma ParseNameSound(name: string)
    requires ParseName(name).Some?
    ensures Matches(name, ParseName(name).value.base, ParseName(name).value.num)
  {
    var c := Core(name).value;
    var k := TrailingDigits(c);
    var u := |c| - k - 1;
    assert c == c[..u] + "_" + c[u + 1..];
    if EndsWith(name, ".mp4") {
      assert name == c + ".mp4";
    } else {
      assert name == c + ".mp4\n";
    }
  }

  /** Every match is found, with exactly its base and number. */
  lemma ParseNameComplete(name: string, base: string, num: string)
    requires Matches(name, base, num)
    ensures ParseName(name) == Some(NameParts(base, num))
  {
    CoreOfMatch(name, base, num);
    SplitCoreOfMatch(base, num);
  }

  lemma SplitCoreOfMatch(base: string, num: string)
    requires |base| >= 1 && NoChar('\n', base) && |num| >= 1 && AllDigits(num)
    ensures SplitCore(base + "_" + num) == Some(NameParts(base, num))
  {
    var c := base + "_" + num;
    TrailingDigitsOfMatch(base, num);
    var u := |base|;
    assert |c| - |num| - 1 == u;
    assert c[u] == '_';
    assert c[u + 1..] == num;
    assert c[..u] == base;
  }

  lemma CoreOfMatch(name: string, base: string, num: string)
    requires Matches(name, base, num)
    ensures Core(name) == Some(base + "_" + num)
  {
    var c := base + "_" + num;
    if name == c + ".mp4" {
      assert name[..|name| - 4] == c;
    } else {
      assert name[|name| - 1] == '\n';
      assert name[..|name| - 5] == c;
    }
  }

  lemma TrailingDigitsOfMatch(base: string, num: string)
    requires AllDigits(num)
    ensures TrailingDigits(base + "_" + num) == |num|
  {
    var c := base + "_" + num;
    var k := TrailingDigits(c);
    var u := |base|;
    assert c[u] == '_';
    assert c[u + 1..] == num;
  }

  /** The pattern as a function and as a predicate agree, in both directions. */
  lemma ParseNameIff(name: string, base: string, num: string)
    ensures ParseName(name) == Some(NameParts(base, num)) <==> Matches(name, base, num)
  {
    if ParseName(name) == Some(NameParts(base, num)) {
      ParseNameSound(name);
    }
    if Matches(name, base, num) {
      ParseNameComplete(name, base, num);
    }
  }

  /** The base of the first parsed name that matched, or `""` when none did:
      the `common_name` both composers report, given the parse of each name
      in order. */
  function FirstBase(parsed: seq<Option<NameParts>>): string
  {
    if parsed == [] then ""
    else match parsed[0]
      case Some(p) => p.base
      case None => FirstBase(parsed[1..])
  }

  /** The common name is empty exactly when no name matched (a matched base is
      never empty). */
  lemma {:induction false} FirstBaseEmptyIffNoMatch(parsed: seq<Option<NameParts>>)
    requires forall i :: 0 <= i < |parsed| && parsed[i].Some? ==> parsed[i].value.base != ""
    ensures FirstBase(parsed) == "" <==> forall i :: 0 <= i < |parsed| ==> parsed[i].None?
    decreases |parsed|
  {
    if parsed != [] {
      FirstBaseEmptyIffNoMatch(parsed[1..]);
      assert forall i :: 1 <= i < |parsed| ==> parsed[i] == parsed[1..][i - 1];
    }
  }

  /** A non-empty common name is the base of the first match, and every
      earlier name did not match. */
  lemma {:induction false} FirstBaseIsFirstMatch(parsed: seq<Option<NameParts>>)
    requires FirstBase(parsed) != ""
    ensures exists i ::
      && 0 <= i < |parsed| && parsed[i].Some?
      && parsed[i].value.base == FirstBase(parsed)
      && (forall j :: 0 <= j < i ==> parsed[j].None?)
    decreases |parsed|
  {
    if parsed[0].None? {
      FirstBaseIsFirstMatch(parsed[1..]);
      var i :| 0 <= i < |parsed[1..]| && parsed[1..][i].Some? &&
        parsed[1..][i].value.base == FirstBase(parsed[1..]) &&
        (forall j :: 0 <= j < i ==> parsed[1..][j].None?);
      assert parsed[i + 1] == parsed[1..][i];
      assert forall j :: 1 <= j < i + 1 ==> parsed[j] == parsed[1..][j - 1];
    }
  }

  /** Once a common name is set, later names, whatever their prefix, never
      change it. */
  lemma {:induction false} FirstBaseStable(parsed: seq<Option<NameParts>>, more: seq<Option<NameParts>>)
    requires FirstBase(parsed) != ""
    ensures FirstBase(parsed + more) == FirstBase(parsed)
    decreases |parsed|
  {
    assert (parsed + more)[0] == parsed[0];
    if parsed[0].None? {
      assert (parsed + more)[1..] == parsed[1..] + more;
      FirstBaseStable(parsed[1..], more);
    }
  }

  /** While the common name is still empty, a new name sets it to its own
      base if it matches and leaves it empty otherwise. */
  lemma {:induction false} FirstBaseExtend(parsed: seq<Option<NameParts>>, x: Option<NameParts>)
    requires FirstBase(parsed) == ""
    requires forall i :: 0 <= i < |parsed| && parsed[i].Some? ==> parsed[i].value.base != ""
    ensures FirstBase(parsed + [x]) == if x.Some? then x.value.base else ""
    decreases |parsed|
  {
    if parsed == [] {
      assert parsed + [x] == [x];
    } else {
      assert parsed[0].None?;
      assert (parsed + [x])[1..] == parsed[1..] + [x];
      assert forall i :: 1 <= i < |parsed| ==> parsed[i] == parsed[1..][i - 1];
      FirstBaseExtend(parsed[1..], x);
    }
  }

  /** `ParseName` of each name, in order. */
  function ParseAll(names: seq<string>): (ps: seq<Option<NameParts>>)
    ensures |ps| == |names|
    ensures forall i :: 0 <= i < |names| ==> ps[i] == ParseName(names[i])
  {
    seq(|names|, i requires 0 <= i < |names| => ParseName(names[i]))
  }

  /** A matched base is never empty (`.+` needs a character). */
  lemma ParsedBasesNonEmpty(names: seq<string>)
    ensures forall i :: 0 <= i < |names| && ParseAll(names)[i].Some? ==> ParseAll(names)[i].value.base != ""
  {
    forall i | 0 <= i < |names| && ParseAll(names)[i].Some?
      ensures ParseAll(names)[i].value.base != ""
    {
      ParseNameSound(names[i]);
    }
  }

  /** One step of the walk: the common name so far is set by the next name
      only while it is still empty and the name matches. */
  lemma CommonNameStep(parsed: seq<Option<NameParts>>, i: nat)
    requires i < |parsed|
    requires forall k :: 0 <= k < |parsed| && parsed[k].Some? ==> parsed[k].value.base != ""
    ensures FirstBase(parsed[..i + 1]) ==
      if FirstBase(parsed[..i]) == "" && parsed[i].Some? then parsed[i].value.base
      else FirstBase(parsed[..i])
  {
    assert parsed[..i + 1] == parsed[..i] + [parsed[i]];
    if FirstBase(parsed[..i]) == "" {
      FirstBaseExtend(parsed[..i], parsed[i]);
    } else {
      FirstBaseStable(parsed[..i], [parsed[i]]);
    }
  }
}
