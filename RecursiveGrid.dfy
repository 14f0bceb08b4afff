// The recursive driver: lists every visible subdirectory below a start
// directory and runs the grid composer in each one that holds videos.

module RecursiveGrid {
  import opened Text
  import opened Paths
  import opened Sorting

  /** A directory on disk: its name and its subdirectories in listing
      order. Files matter only through the `.mp4` check, an input of
      `ProcessDirectory`. */
  datatype Dir = Dir(name: string, subdirs: seq<Dir>)

  /** `d.startswith('.')`. */
  predicate Hidden(name: string) {
    |name| > 0 && name[0] == '.'
  }

  /** A name `os.path.join` appends: not empty and without a separator. */
  predicate PlainName(name: string) {
    |name| > 0 && NoChar('/', name)
  }

  /** Every directory name in the tree is a plain name. */
  predicate WellNamed(t: Dir)
    decreases t
  {
    forall c :: c in t.subdirs ==> PlainName(c.name) && WellNamed(c)
  }

  /** The names of a listing. */
  function Names(ds: seq<Dir>): (r: seq<string>)
    ensures |r| == |ds|
    ensures forall k :: 0 <= k < |ds| ==> r[k] == ds[k].name
  {
    seq(|ds|, k requires 0 <= k < |ds| => ds[k].name)
  }

  /** `[d for d in dirs if not d.startswith('.')]` on names. */
  function VisibleNames(names: seq<string>): (r: seq<string>)
    ensures forall n :: n in r <==> n in names && !Hidden(n)
  {
    if names == [] then []
    else (if Hidden(names[0]) then [] else [names[0]]) + VisibleNames(names[1..])
  }

  /** The same filter on the subdirectories themselves: the ones the walk
      goes on to visit. */
  function Visible(ds: seq<Dir>): (r: seq<Dir>)
    ensures |r| <= |ds|
    ensures forall d :: d in r <==> d in ds && !Hidden(d.name)
  {
    if ds == [] then []
    else (if Hidden(ds[0].name) then [] else [ds[0]]) + Visible(ds[1..])
  }

  /** Filtering the names is filtering the directories, then naming them. */
  lemma {:induction false} VisibleNamesOf(ds: seq<Dir>)
    ensures VisibleNames(Names(ds)) == Names(Visible(ds))
  {
    if ds != [] {
      VisibleNamesOf(ds[1..]);
      assert Names(ds)[1..] == Names(ds[1..]);
      assert Names(ds)[0] == ds[0].name;
      var head := if Hidden(ds[0].name) then [] else [ds[0]];
      assert Names(head + Visible(ds[1..])) == Names(head) + Names(Visible(ds[1..]));
    }
  }

  /** One step of `os.walk`: a directory and the names of its
      subdirectories as listed. */
  datatype Entry = Entry(root: string, dirs: seq<string>)

  /** What `os.walk(root)` yields top-down when the caller prunes each
      entry's `dirs` to its visible names before the walk descends: the
      entry for `root`, then the walks of the kept subdirectories in
      order. */
  function Walk(root: string, t: Dir): seq<Entry>
    decreases t, |t.subdirs| + 1
  {
    [Entry(root, Names(t.subdirs))] + WalkAll(root, t, Visible(t.subdirs))
  }

  function WalkAll(root: string, parent: Dir, cs: seq<Dir>): seq<Entry>
    requires forall c :: c in cs ==> c in parent.subdirs
    decreases parent, |cs|
  {
    if cs == [] then []
    else
      var c := cs[0];
      assert c in parent.subdirs;
      Walk(PathJoin(root, c.name), c) + WalkAll(root, parent, cs[1..])
  }

  /** `os.path.join(root, d)` as a function of `d`. */
  function JoinOnto(root: string): string -> string
  {
    d => PathJoin(root, d)
  }

  /** The paths the loop of `find_subdirectories` appends for one entry:
      each visible name joined onto the entry's directory. */
  function Children(e: Entry): seq<string>
  {
    Map(JoinOnto(e.root), VisibleNames(e.dirs))
  }

  /** The paths appended for a run of entries, in order. */
  function Listed(es: seq<Entry>): seq<string>
  {
    Flatten(Map(Children, es))
  }

  /** The concatenation of a sequence of sequences. */
  function Flatten<T>(ss: seq<seq<T>>): seq<T>
  {
    if ss == [] then [] else Flatten(ss[..|ss| - 1]) + ss[|ss| - 1]
  }

  lemma {:induction false} FlattenAppend<T>(a: seq<seq<T>>, b: seq<seq<T>>)
    ensures Flatten(a + b) == Flatten(a) + Flatten(b)
    decreases |b|
  {
    if b == [] {
      assert a + b == a;
    } else {
      var init, last := b[..|b| - 1], b[|b| - 1];
      var ab := a + b;
      assert ab[..|ab| - 1] == a + init;
      assert ab[|ab| - 1] == last;
      FlattenAppend(a, init);
      assert Flatten(ab) == Flatten(a + init) + last;
    }
  }

  lemma MapAppend<T, U>(f: T -> U, a: seq<T>, b: seq<T>)
    ensures Map(f, a + b) == Map(f, a) + Map(f, b)
  {
    MapIndex(f, a + b);
    MapIndex(f, a);
    MapIndex(f, b);
    var r := Map(f, a) + Map(f, b);
    forall k | 0 <= k < |a + b| ensures Map(f, a + b)[k] == r[k] {
      if k >= |a| { assert (a + b)[k] == b[k - |a|]; }
    }
  }

  lemma ListedAppend(a: seq<Entry>, b: seq<Entry>)
    ensures Listed(a + b) == Listed(a) + Listed(b)
  {
    MapAppend(Children, a, b);
    FlattenAppend(Map(Children, a), Map(Children, b));
  }

  /** `find_subdirectories(start_dir)`: every path the walk lists, sorted. */
  method FindSubdirectories(startDir: string, tree: Dir) returns (subdirs: seq<string>)
    ensures subdirs == SortStrings(Listed(Walk(startDir, tree)))
    ensures Sorted(subdirs)
    ensures multiset(subdirs) == multiset(Listed(Walk(startDir, tree)))
  {
    var walk := Walk(startDir, tree);
    var found: seq<string> := [];
    for i := 0 to |walk|
      invariant found == Listed(walk[..i])
    {
      found := AppendChildren(found, walk[i]);
      ListedStep(walk, i);
    }
    assert walk[..|walk|] == walk;
    subdirs := SortStrings(found);
  }

  /** The inner loop of `find_subdirectories` for one entry: prunes its
      names and appends each kept one joined onto its directory. */
  method AppendChildren(found: seq<string>, e: Entry) returns (r: seq<string>)
    ensures r == found + Children(e)
  {
    var dirs := VisibleNames(e.dirs);
    var join := JoinOnto(e.root);
    r := found;
    for j := 0 to |dirs|
      invariant r == found + Map(join, dirs[..j])
    {
      MapStep(join, dirs, j);
      r := r + [PathJoin(e.root, dirs[j])];
    }
    assert dirs[..|dirs|] == dirs;
  }

  lemma ListedStep(es: seq<Entry>, i: nat)
    requires i < |es|
    ensures Listed(es[..i + 1]) == Listed(es[..i]) + Children(es[i])
  {
    var done := Map(Children, es[..i]);
    MapStep(Children, es, i);
    assert (done + [Children(es[i])])[..|done|] == done;
  }

  /** Every visible directory strictly below `t`, depth first: each kept
      subdirectory, then everything below it. */
  function Descendants(root: string, t: Dir): seq<string>
    decreases t, |t.subdirs| + 1
  {
    DescendantsAll(root, t, Visible(t.subdirs))
  }

  function DescendantsAll(root: string, parent: Dir, cs: seq<Dir>): seq<string>
    requires forall c :: c in cs ==> c in parent.subdirs
    decreases parent, |cs|
  {
    if cs == [] then []
    else
      var c := cs[0];
      assert c in parent.subdirs;
      var p := PathJoin(root, c.name);
      [p] + Descendants(p, c) + DescendantsAll(root, parent, cs[1..])
  }

  lemma MapCons<T, U>(f: T -> U, s: seq<T>)
    requires s != []
    ensures Map(f, s) == [f(s[0])] + Map(f, s[1..])
  {
    MapIndex(f, s);
    MapIndex(f, s[1..]);
    var r := [f(s[0])] + Map(f, s[1..]);
    forall k | 0 <= k < |s| ensures r[k] == Map(f, s)[k] {
      if k > 0 { assert s[1..][k - 1] == s[k]; }
    }
  }

  /** The walk lists the same directories, as often, as the depth-first
      enumeration of the visible tree. */
  lemma {:induction false} WalkListsDescendants(root: string, t: Dir)
    ensures multiset(Listed(Walk(root, t))) == multiset(Descendants(root, t))
    decreases t, |t.subdirs| + 1
  {
    var cs := Visible(t.subdirs);
    var e := Entry(root, Names(t.subdirs));
    var rest := WalkAll(root, t, cs);
    assert Walk(root, t) == [e] + rest;
    ListedAppend([e], rest);
    ListedSingle(e);
    VisibleNamesOf(t.subdirs);
    assert Children(e) == Map(JoinOnto(root), Names(cs));
    WalkAllListsDescendants(root, t, cs);
    assert Descendants(root, t) == DescendantsAll(root, t, cs);
    assert multiset(Children(e) + Listed(rest)) == multiset(Children(e)) + multiset(Listed(rest));
  }

  lemma ListedSingle(e: Entry)
    ensures Listed([e]) == Children(e)
  {
    MapIndex(Children, [e]);
    assert Map(Children, [e]) == [Children(e)];
    FlattenSingle(Children(e));
  }

  lemma FlattenSingle<T>(x: seq<T>)
    ensures Flatten([x]) == x
  {
    assert [x][..0] == [];
  }

  lemma {:induction false} WalkAllListsDescendants(root: string, parent: Dir, cs: seq<Dir>)
    requires forall c :: c in cs ==> c in parent.subdirs
    ensures multiset(Map(JoinOnto(root), Names(cs))) + multiset(Listed(WalkAll(root, parent, cs)))
         == multiset(DescendantsAll(root, parent, cs))
    decreases parent, |cs|
  {
    if cs != [] {
      var c := cs[0];
      assert c in parent.subdirs;
      var p := PathJoin(root, c.name);
      var rest := cs[1..];
      WalkListsDescendants(p, c);
      WalkAllListsDescendants(root, parent, rest);
      var walk, walkRest := Walk(p, c), WalkAll(root, parent, rest);
      ListedAppend(walk, walkRest);
      assert WalkAll(root, parent, cs) == walk + walkRest;
      MapCons(JoinOnto(root), Names(cs));
      assert Names(cs)[1..] == Names(rest);
      assert DescendantsAll(root, parent, cs) == [p] + Descendants(p, c) + DescendantsAll(root, parent, rest);
      MultisetRegroup(Map(JoinOnto(root), Names(cs)), p, Map(JoinOnto(root), Names(rest)),
                      Listed(walk), Listed(walkRest), Descendants(p, c),
                      DescendantsAll(root, parent, rest));
    }
  }

  /** The multiset step of the induction above, on plain sequences. */
  lemma MultisetRegroup<T>(joined: seq<T>, p: T, joinedRest: seq<T>, listed: seq<T>,
                           listedRest: seq<T>, below: seq<T>, belowRest: seq<T>)
    requires joined == [p] + joinedRest
    requires multiset(listed) == multiset(below)
    requires multiset(joinedRest) + multiset(listedRest) == multiset(belowRest)
    ensures multiset(joined) + multiset(listed + listedRest) == multiset([p] + below + belowRest)
  {
  }

  /** `names` spells a path of visible subdirectories downward from `t`. */
  ghost predicate VisiblePath(t: Dir, names: seq<string>)
    decreases |names|
  {
    names == [] ||
    exists c :: c in t.subdirs && c.name == names[0] && !Hidden(c.name) && VisiblePath(c, names[1..])
  }

  /** The path reached from `root` by joining `names` one after another. */
  function Under(root: string, names: seq<string>): string
    decreases |names|
  {
    if names == [] then root else Under(PathJoin(root, names[0]), names[1..])
  }

  /** Everything the depth-first enumeration yields lies at the end of a
      non-empty path of visible subdirectories. */
  lemma {:induction false} DescendantsSound(root: string, t: Dir, p: string)
    requires p in Descendants(root, t)
    ensures exists names :: names != [] && VisiblePath(t, names) && p == Under(root, names)
    decreases t, |t.subdirs| + 1
  {
    DescendantsAllSound(root, t, Visible(t.subdirs), p);
  }

  lemma {:induction false} DescendantsAllSound(root: string, parent: Dir, cs: seq<Dir>, p: string)
    requires forall c :: c in cs ==> c in parent.subdirs && !Hidden(c.name)
    requires p in DescendantsAll(root, parent, cs)
    ensures exists names :: names != [] && VisiblePath(parent, names) && p == Under(root, names)
    decreases parent, |cs|
  {
    var c := cs[0];
    var q := PathJoin(root, c.name);
    assert DescendantsAll(root, parent, cs)
        == [q] + Descendants(q, c) + DescendantsAll(root, parent, cs[1..]);
    if p == q {
      var names := [c.name];
      assert VisiblePath(c, names[1..]);
      assert VisiblePath(parent, names);
      assert Under(root, names) == Under(q, []);
    } else if p in Descendants(q, c) {
      DescendantsSound(q, c, p);
      var tail :| tail != [] && VisiblePath(c, tail) && p == Under(q, tail);
      var names := [c.name] + tail;
      assert names[1..] == tail;
      assert VisiblePath(parent, names);
      assert Under(root, names) == Under(q, tail);
    } else {
      DescendantsAllSound(root, parent, cs[1..], p);
    }
  }

  /** The enumeration of the subdirectories `cs` contains each one and
      everything below it. */
  lemma {:induction false} DescendantsAllHas(root: string, parent: Dir, cs: seq<Dir>, c: Dir, p: string)
    requires forall d :: d in cs ==> d in parent.subdirs
    requires c in cs
    requires p == PathJoin(root, c.name) || p in Descendants(PathJoin(root, c.name), c)
    ensures p in DescendantsAll(root, parent, cs)
    decreases |cs|
  {
    if cs[0] != c {
      DescendantsAllHas(root, parent, cs[1..], c, p);
    }
  }

  /** Every non-empty path of visible subdirectories is enumerated. */
  lemma {:induction false} DescendantsComplete(root: string, t: Dir, names: seq<string>)
    requires names != [] && VisiblePath(t, names)
    ensures Under(root, names) in Descendants(root, t)
    decreases |names|
  {
    var c :| c in t.subdirs && c.name == names[0] && !Hidden(c.name) && VisiblePath(c, names[1..]);
    var q := PathJoin(root, c.name);
    assert Under(root, names) == Under(q, names[1..]);
    if names[1..] != [] {
      DescendantsComplete(q, c, names[1..]);
    }
    DescendantsAllHas(root, t, Visible(t.subdirs), c, Under(root, names));
  }

  /** `find_subdirectories` returns exactly the directories at the end of
      a non-empty path of visible subdirectories below the start: none
      below a hidden directory, and not the start itself. */
  lemma SubdirectoriesExactly(startDir: string, tree: Dir, p: string)
    ensures p in SortStrings(Listed(Walk(startDir, tree))) <==>
      exists names :: names != [] && VisiblePath(tree, names) && p == Under(startDir, names)
  {
    var found := Listed(Walk(startDir, tree));
    WalkListsDescendants(startDir, tree);
    assert p in SortStrings(found) <==> p in multiset(Descendants(startDir, tree));
    if p in Descendants(startDir, tree) {
      DescendantsSound(startDir, tree, p);
    }
    if exists names :: names != [] && VisiblePath(tree, names) && p == Under(startDir, names) {
      var names :| names != [] && VisiblePath(tree, names) && p == Under(startDir, names);
      DescendantsComplete(startDir, tree, names);
    }
  }

  /** A visible path in a well-named tree is a sequence of plain names. */
  lemma {:induction false} VisiblePathPlain(t: Dir, names: seq<string>)
    requires WellNamed(t) && VisiblePath(t, names)
    ensures forall k :: 0 <= k < |names| ==> PlainName(names[k])
    decreases |names|
  {
    if names != [] {
      var c :| c in t.subdirs && c.name == names[0] && !Hidden(c.name) && VisiblePath(c, names[1..]);
      VisiblePathPlain(c, names[1..]);
      forall k | 0 < k < |names| ensures PlainName(names[k]) {
        assert names[k] == names[1..][k - 1];
      }
    }
  }

  /** Joining plain names onto a directory gives a longer path inside it. */
  lemma {:induction false} UnderExtends(root: string, names: seq<string>)
    requires names != []
    requires forall k :: 0 <= k < |names| ==> PlainName(names[k])
    ensures StartsWith(Under(root, names), root)
    ensures |Under(root, names)| > |root|
    decreases |names|
  {
    var q := PathJoin(root, names[0]);
    assert PlainName(names[0]);
    assert names[0][0] != '/';
    PathJoinExtends(root, names[0]);
    if names[1..] != [] {
      forall k | 0 <= k < |names[1..]| ensures PlainName(names[1..][k]) {
        assert names[1..][k] == names[k + 1];
      }
      UnderExtends(q, names[1..]);
      StartsWithTransitive(Under(q, names[1..]), q, root);
    }
  }

  /** In a well-named tree every listed directory lies strictly inside the
      start directory; the start directory itself is never listed. */
  lemma ListedInsideStart(startDir: string, tree: Dir, p: string)
    requires WellNamed(tree)
    requires p in SortStrings(Listed(Walk(startDir, tree)))
    ensures StartsWith(p, startDir) && |p| > |startDir|
  {
    SubdirectoriesExactly(startDir, tree, p);
    var names :| names != [] && VisiblePath(tree, names) && p == Under(startDir, names);
    VisiblePathPlain(tree, names);
    UnderExtends(startDir, names);
  }

  /** What `process_directory` reports for one directory: `True`,
      `False` or `None`. */
  datatype Outcome = Processed | Failed | Skipped

  /** The command run in each directory: the interpreter, the grid
      composer beside this script, then the pass-through options. */
  function GridCommand(scriptDir: string, options: seq<string>): seq<string>
  {
    ["python3", PathJoin(scriptDir, "make_video_grid.py")] + options
  }

  /** The outcome for the directory `target`: a failure when it cannot be
      entered, skipped when it holds no `.mp4` file, and otherwise decided
      by the exit status of the composer (`None` when it could not be
      started). */
  function OutcomeOf(target: string, isDir: string -> bool, hasMp4: string -> bool,
                     run: (string, seq<string>) -> Option<int>, cmd: seq<string>): Outcome
  {
    if !isDir(target) then Failed
    else if !hasMp4(target) then Skipped
    else if run(target, cmd) == Some(0) then Processed
    else Failed
  }

  /** The three answers of `process_directory`, each with the only
      circumstances that give it. */
  lemma OutcomeCases(target: string, isDir: string -> bool, hasMp4: string -> bool,
                     run: (string, seq<string>) -> Option<int>, cmd: seq<string>)
    ensures var r := OutcomeOf(target, isDir, hasMp4, run, cmd);
      && (r == Skipped <==> isDir(target) && !hasMp4(target))
      && (r == Processed <==> isDir(target) && hasMp4(target) && run(target, cmd) == Some(0))
      && (r == Failed <==> !isDir(target) || (hasMp4(target) && run(target, cmd) != Some(0)))
  {
  }

  /** The three counters of `main`. */
  datatype Tally = Tally(processed: nat, failed: nat, skipped: nat)

  /** The counters after a run of outcomes. */
  function TallyOf(os: seq<Outcome>): Tally
  {
    if os == [] then Tally(0, 0, 0)
    else Tick(TallyOf(os[..|os| - 1]), os[|os| - 1])
  }

  /** Every directory is counted exactly once, and no failure is counted
      exactly when none occurred. */
  lemma {:induction false} TallyOfFacts(os: seq<Outcome>)
    ensures var t := TallyOf(os);
      && t.processed + t.failed + t.skipped == |os|
      && (t.failed == 0 <==> Failed !in os)
    decreases |os|
  {
    if os != [] {
      var init := os[..|os| - 1];
      TallyOfFacts(init);
      assert os == init + [os[|os| - 1]];
    }
  }

  /** One pass of the counting loop: the counter of the outcome goes up. */
  function Tick(t: Tally, r: Outcome): Tally
  {
    match r
    case Processed => Tally(t.processed + 1, t.failed, t.skipped)
    case Failed => Tally(t.processed, t.failed + 1, t.skipped)
    case Skipped => Tally(t.processed, t.failed, t.skipped + 1)
  }

  lemma TallyOfSnoc(os: seq<Outcome>, r: Outcome)
    ensures TallyOf(os + [r]) == Tick(TallyOf(os), r)
  {
    assert (os + [r])[..|os|] == os;
  }

  /** One more directory of a mapped list adds its outcome to the tally. */
  lemma TallyStep(outcomeIn: string -> Outcome, subdirs: seq<string>, i: nat)
    requires i < |subdirs|
    ensures TallyOf(Map(outcomeIn, subdirs[..i + 1]))
         == Tick(TallyOf(Map(outcomeIn, subdirs[..i])), outcomeIn(subdirs[i]))
  {
    MapStep(outcomeIn, subdirs, i);
    TallyOfSnoc(Map(outcomeIn, subdirs[..i]), outcomeIn(subdirs[i]));
  }

  /** `0 if failed_count == 0 else 1`. */
  function ExitCode(t: Tally): int
  {
    if t.failed == 0 then 0 else 1
  }

  /** The run succeeds exactly when no directory failed. */
  lemma ExitCodeMeaning(os: seq<Outcome>)
    ensures ExitCode(TallyOf(os)) == 0 <==> forall k :: 0 <= k < |os| ==> os[k] != Failed
  {
    TallyOfFacts(os);
    if Failed in os {
      var k :| 0 <= k < |os| && os[k] == Failed;
    }
  }

  /** The outcome of each directory, entered from `cwd`. */
  function OutcomeIn(cwd: string, isDir: string -> bool, hasMp4: string -> bool,
                     run: (string, seq<string>) -> Option<int>, cmd: seq<string>): string -> Outcome
  {
    d => OutcomeOf(PathJoin(cwd, d), isDir, hasMp4, run, cmd)
  }

  /** The process, as far as the driver changes it: its working directory. */
  class Driver {
    var cwd: string

    constructor (cwd0: string)
      ensures cwd == cwd0
    {
      cwd := cwd0;
    }

    /** `process_directory(directory, grid_options)`: enters the directory,
        skips it without `.mp4` files, runs the composer there otherwise,
        and always returns to where it started. */
    method ProcessDirectory(directory: string, isDir: string -> bool, hasMp4: string -> bool,
                            run: (string, seq<string>) -> Option<int>, cmd: seq<string>)
      returns (r: Outcome)
      modifies this`cwd
      ensures cwd == old(cwd)
      ensures r == OutcomeOf(PathJoin(old(cwd), directory), isDir, hasMp4, run, cmd)
    {
      var original := cwd;
      var target := PathJoin(cwd, directory);
      if !isDir(target) {
        // os.chdir raises; the handler reports a failure
        r := Failed;
      } else {
        cwd := target;
        if !hasMp4(cwd) {
          r := Skipped;
        } else {
          var status := run(cwd, cmd);
          r := if status == Some(0) then Processed else Failed;
        }
      }
      cwd := original;
    }

    /** `main` after the arguments are parsed. `start` is the start
        directory's tree, None when it is not a directory. Returns the exit
        status and the three counters. */
    method Run(startDir: string, start: Option<Dir>, isDir: string -> bool,
               hasMp4: string -> bool, run: (string, seq<string>) -> Option<int>,
               scriptDir: string, gridOptions: seq<string>)
      returns (code: int, counts: Tally)
      modifies this`cwd
      ensures cwd == old(cwd)
      ensures start.None? ==> code == 1 && counts == Tally(0, 0, 0)
      ensures start.Some? ==>
        var subdirs := SortStrings(Listed(Walk(startDir, start.value)));
        && counts == TallyOf(Map(OutcomeIn(old(cwd), isDir, hasMp4, run,
                                           GridCommand(scriptDir, gridOptions)), subdirs))
        && code == ExitCode(counts)
    {
      counts := Tally(0, 0, 0);
      if start.None? {
        return 1, counts;
      }
      var subdirs := FindSubdirectories(startDir, start.value);
      if subdirs == [] {
        return 0, counts;
      }
      var cmd := GridCommand(scriptDir, gridOptions);
      counts := ProcessAll(subdirs, isDir, hasMp4, run, cmd);
      code := if counts.failed == 0 then 0 else 1;
    }

    /** One pass of the counting loop: process the directory and raise the
        counter of its outcome. */
    method CountDirectory(directory: string, isDir: string -> bool, hasMp4: string -> bool,
                          run: (string, seq<string>) -> Option<int>, cmd: seq<string>,
                          processed: nat, failed: nat, skipped: nat)
      returns (processed': nat, failed': nat, skipped': nat)
      modifies this`cwd
      ensures cwd == old(cwd)
      ensures Tally(processed', failed', skipped') ==
        Tick(Tally(processed, failed, skipped),
             OutcomeOf(PathJoin(old(cwd), directory), isDir, hasMp4, run, cmd))
    {
      var r := ProcessDirectory(directory, isDir, hasMp4, run, cmd);
      processed', failed', skipped' := processed, failed, skipped;
      if r == Processed {
        processed' := processed + 1;
      } else if r == Failed {
        failed' := failed + 1;
      } else {
        skipped' := skipped + 1;
      }
    }

    /** The counting loop of `main`: every directory in order, each
        entered from the same working directory. */
    method ProcessAll(subdirs: seq<string>, isDir: string -> bool, hasMp4: string -> bool,
                      run: (string, seq<string>) -> Option<int>, cmd: seq<string>)
      returns (counts: Tally)
      modifies this`cwd
      ensures cwd == old(cwd)
      ensures counts == TallyOf(Map(OutcomeIn(old(cwd), isDir, hasMp4, run, cmd), subdirs))
    {
      var outcomeIn := OutcomeIn(cwd, isDir, hasMp4, run, cmd);
      var processed, failed, skipped := 0, 0, 0;
      for i := 0 to |subdirs|
        invariant cwd == old(cwd)
        invariant Tally(processed, failed, skipped) == TallyOf(Map(outcomeIn, subdirs[..i]))
      {
        processed, failed, skipped :=
          CountDirectory(subdirs[i], isDir, hasMp4, run, cmd, processed, failed, skipped);
        TallyStep(outcomeIn, subdirs, i);
      }
      assert subdirs[..|subdirs|] == subdirs;
      counts := Tally(processed, failed, skipped);
    }
  }
}
