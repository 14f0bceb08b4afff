/** POSIX path text as the scripts use it: `os.path.join` of two parts,
    `os.path.basename`, and `pathlib.Path(p).stem`. */
module Paths {
  import opened Text

  /** Index of the last `c` in `s`, or -1 when there is none (`str.rfind`). */
  function LastIndex(c: char, s: string): (i: int)
    ensures -1 <= i < |s|
    ensures i >= 0 ==> s[i] == c
    ensures forall j :: i < j < |s| ==> s[j] != c
  {
    if s == [] then -1
    else if s[|s| - 1] == c then |s| - 1
    else LastIndex(c, s[..|s| - 1])
  }

  /** `os.path.join(a, b)`: an absolute `b` wins; otherwise a separator is
      inserted unless `a` is empty or already ends with one. */
  function PathJoin(a: string, b: string): string
  {
    if |b| > 0 && b[0] == '/' then b
    else if a == [] || a[|a| - 1] == '/' then a + b
    else a + "/" + b
  }

  /** `os.path.basename(p)`: the text after the last `/`. */
  function Basename(p: string): (b: string)
    ensures NoChar('/', b)
    ensures EndsWith(p, b)
    ensures |b| == |p| || p[|p| - |b| - 1] == '/'
  {
    p[LastIndex('/', p) + 1..]
  }

  /** `Path(p).name`: `pathlib` drops empty and `.` components, so the name
      is the last component that is neither; it is empty when there is none
      (`Path("")`, `Path("/")`, `Path(".")`). */
  function FinalName(p: string): (name: string)
    ensures NoChar('/', name)
    ensures name != "."
    ensures name != "" ==> |name| <= |p|
    decreases |p|
  {
    var b := Basename(p);
    if b != "" && b != "." then b
    else if |b| == |p| then ""
    else FinalName(p[..|p| - |b| - 1])
  }

  /** `Path(p).stem`: the final name without its last suffix; a leading
      or trailing dot does not start a suffix. */
  function Stem(p: string): string
  {
    var name := FinalName(p);
    var i := LastIndex('.', name);
    if 0 < i < |name| - 1 then name[..i] else name
  }

  /** A trailing separator and a trailing `/.` do not change the name
      `pathlib` sees: `Path("clips/")` and `Path("clips/.")` both name
      `clips`. */
  lemma {:induction false} FinalNameIgnoresTrailing(p: string)
    ensures FinalName(p + "/") == FinalName(p)
    ensures FinalName(p + "/.") == FinalName(p)
  {
    var q := p + "/";
    assert LastIndex('/', q) == |p|;
    assert Basename(q) == "";
    assert q[..|q| - 0 - 1] == p;
    var r := p + "/.";
    assert LastIndex('/', r[..|r| - 1]) == |p|;
    assert LastIndex('/', r) == |p|;
    assert Basename(r) == ".";
    assert r[..|r| - 1 - 1] == p;
  }

  /** So `Path(p).stem` is the same with or without a trailing separator or
      `/.`. */
  lemma StemIgnoresTrailing(p: string)
    ensures Stem(p + "/") == Stem(p)
    ensures Stem(p + "/.") == Stem(p)
  {
    FinalNameIgnoresTrailing(p);
  }

  /** Joining a relative, non-empty part keeps `a` as a prefix and is longer,
      so the result never names `a` itself. */
  lemma PathJoinExtends(a: string, b: string)
    requires |b| > 0 && b[0] != '/'
    ensures StartsWith(PathJoin(a, b), a)
    ensures |PathJoin(a, b)| > |a|
  {
  }

  /** For a name without a directory part that ends in `.mp4` after at least
      one character, the stem is the name minus `.mp4`. */
  lemma StemOfMp4Name(name: string)
    requires NoChar('/', name)
    requires |name| > 4 && EndsWith(name, ".mp4")
    ensures Stem(name) == name[..|name| - 4]
  {
    assert LastIndex('/', name) == -1;
    assert Basename(name) == name;
    assert FinalName(name) == name;
    var i := |name| - 4;
    assert name[i] == '.';
    assert name[i + 1..] == "mp4";
    assert LastIndex('.', name) == i;
  }

  /** The same for a path with a directory part: the stem of `dir/<x>.mp4`
      is `<x>`. */
  lemma StemOfMp4Path(p: string)
    requires |Basename(p)| > 4 && EndsWith(Basename(p), ".mp4")
    ensures Stem(p) == Basename(p)[..|Basename(p)| - 4]
  {
    var name := Basename(p);
    StemOfMp4Name(name);
    assert FinalName(p) == name;
  }

  /** Joining two relative names onto the same directory gives the same
      path only for the same name. */
  lemma PathJoinInjective(a: string, b: string, c: string)
    requires |b| > 0 && b[0] != '/' && |c| > 0 && c[0] != '/'
    ensures PathJoin(a, b) == PathJoin(a, c) <==> b == c
  {
    var k := if a == [] || a[|a| - 1] == '/' then |a| else |a| + 1;
    assert b == PathJoin(a, b)[k..];
    assert c == PathJoin(a, c)[k..];
  }
}
