/** The frame-GIF composer: takes frame `N` of each video (found by pattern
    or listed explicitly), labels and optionally titles each frame, and joins
    the frames into a GIF through an ffmpeg concat manifest. File-system
    checks, ffprobe, the ffmpeg runs and the temporary directory are inputs. */
module FrameGif {
  import opened Text
  import opened Quoting
  import opened Paths
  import opened Sorting
  import opened Naming
  import opened Labels

  // ---------------------------------------------------------------------
  // Discovery

  /** `os.path.join(directory or ".", file_pattern)`: what is globbed. */
  function SearchPattern(directory: string, filePattern: string): string
  {
    PathJoin(if directory == "" then "." else directory, filePattern)
  }

  /** The label of one found video: the number when its file name (without
      the directory) matches, else its stem. */
  function LabelOf(path: string): string
  {
    match ParseName(Basename(path))
    case Some(p) => p.num
    case None => Stem(path)
  }

  /** A path whose file name matches is labelled by its number, any other by
      its stem. */
  lemma LabelOfCases(path: string, base: string, num: string)
    ensures Matches(Basename(path), base, num) ==> LabelOf(path) == num
    ensures ParseName(Basename(path)).None? ==> LabelOf(path) == Stem(path)
  {
    if Matches(Basename(path), base, num) {
      ParseNameComplete(Basename(path), base, num);
    }
  }

  /** The file names of the paths, in order. */
  function Basenames(paths: seq<string>): (bs: seq<string>)
    ensures |bs| == |paths|
  {
    seq(|paths|, k requires 0 <= k < |paths| => Basename(paths[k]))
  }

  /** One label per video, in order. */
  function LabelsOf(videos: seq<string>): (ls: seq<string>)
    ensures |ls| == |videos|
  {
    Map(LabelOf, videos)
  }

  lemma LabelsOfIndex(videos: seq<string>)
    ensures forall k :: 0 <= k < |videos| ==> LabelsOf(videos)[k] == LabelOf(videos[k])
  {
    MapIndex(LabelOf, videos);
  }

  /** What discovery reports for a non-empty glob result. */
  function Discovered(globbed: seq<string>): Found
  {
    var videos := SortStrings(globbed);
    Found(videos, LabelsOf(videos), FirstBase(ParseAll(Basenames(videos))))
  }

  /** The videos are the glob result in sorted order, there is one label per
      video in the same order, and the common name is the base of the first
      video whose file name matches, empty exactly when none matches. */
  lemma DiscoveredFacts(globbed: seq<string>)
    ensures var d := Discovered(globbed);
      && Sorted(d.videos) && multiset(d.videos) == multiset(globbed)
      && |d.labels| == |d.videos|
      && (forall k :: 0 <= k < |d.videos| ==> d.labels[k] == LabelOf(d.videos[k]))
      && (d.commonName == "" <==>
            forall k :: 0 <= k < |d.videos| ==> ParseName(Basename(d.videos[k])).None?)
  {
    var videos := SortStrings(globbed);
    var names := Basenames(videos);
    var parsed := ParseAll(names);
    LabelsOfIndex(videos);
    ParsedBasesNonEmpty(names);
    FirstBaseEmptyIffNoMatch(parsed);
    assert forall k :: 0 <= k < |videos| ==> parsed[k] == ParseName(Basename(videos[k])) by {
      forall k | 0 <= k < |videos| ensures parsed[k] == ParseName(Basename(videos[k])) {
        assert names[k] == Basename(videos[k]);
      }
    }
  }

  /** `find_videos`: sorts the glob result; nothing found is reported as
      `None`, otherwise the sorted videos with their labels and common name. */
  method FindVideos(globbed: seq<string>) returns (found: Option<Found>)
    ensures globbed == [] <==> found.None?
    ensures found.Some? ==> found.value == Discovered(globbed)
  {
    var videos := SortStrings(globbed);
    if |videos| == 0 {
      return None;
    }
    var numbers, common := LabelVideos(videos);
    return Some(Found(videos, numbers, common));
  }

  /** The loop of `find_videos`: matches each file name, labels each video
      and keeps the first matched base as the common name. */
  method LabelVideos(videos: seq<string>) returns (numbers: seq<string>, common: string)
    ensures numbers == LabelsOf(videos)
    ensures common == FirstBase(ParseAll(Basenames(videos)))
  {
    common := "";
    numbers := [];
    ghost var parsed := ParseAll(Basenames(videos));
    ParsedBasesNonEmpty(Basenames(videos));
    for i := 0 to |videos|
      invariant numbers == LabelsOf(videos[..i])
      invariant common == FirstBase(parsed[..i])
    {
      var m := ParseName(Basename(videos[i]));
      assert parsed[i] == m;
      CommonNameStep(parsed, i);
      var tag;
      if m.Some? {
        if common == "" {
          common := m.value.base;
        }
        // a different base later on only draws a warning
        tag := m.value.num;
      } else {
        tag := Stem(videos[i]);
      }
      assert tag == LabelOf(videos[i]);
      MapStep(LabelOf, videos, i);
      numbers := numbers + [tag];
    }
    assert parsed[..|videos|] == parsed;
    assert videos[..|videos|] == videos;
  }

  // ---------------------------------------------------------------------
  // Choosing the inputs

  /** `[Path(v).stem for v in videos]`: the labels of explicit videos when
      no captions are given. */
  function StemsOf(videos: seq<string>): (ss: seq<string>)
    ensures |ss| == |videos|
    ensures forall k :: 0 <= k < |videos| ==> ss[k] == Stem(videos[k])
  {
    seq(|videos|, k requires 0 <= k < |videos| => Stem(videos[k]))
  }

  /** The default caption of a listed `dir/<x>.mp4` video is `<x>`: the
      directory and the `.mp4` suffix are dropped, the rest is kept. */
  lemma DefaultCaptionsOfMp4Paths(videos: seq<string>)
    ensures forall k :: 0 <= k < |videos| && |Basename(videos[k])| > 4
                        && EndsWith(Basename(videos[k]), ".mp4") ==>
      StemsOf(videos)[k] == Basename(videos[k])[..|Basename(videos[k])| - 4]
  {
    forall k | 0 <= k < |videos| && |Basename(videos[k])| > 4
               && EndsWith(Basename(videos[k]), ".mp4")
      ensures StemsOf(videos)[k] == Basename(videos[k])[..|Basename(videos[k])| - 4]
    {
      StemOfMp4Path(videos[k]);
    }
  }

  predicate AllExist(videos: seq<string>, isFile: string -> bool)
  {
    forall k :: 0 <= k < |videos| ==> isFile(videos[k])
  }

  /** The videos, labels and title `make_gif` works with, or `None` when it
      stops with status 1 before extracting anything. Explicit videos must
      all exist and, when captions are given, be as many as the captions;
      otherwise the glob of `pattern` must find something. An empty list or
      string stands for "not given". */
  function Select(userVideos: seq<string>, userCaptions: seq<string>, customTitle: string,
                  isFile: string -> bool, glob: string -> seq<string>, pattern: string)
    : Option<Found>
  {
    if userVideos != [] then
      if !AllExist(userVideos, isFile) then None
      else if userCaptions != [] && |userCaptions| != |userVideos| then None
      else Some(Found(userVideos, if userCaptions != [] then userCaptions else StemsOf(userVideos),
                      customTitle))
    else if glob(pattern) == [] then None
    else
      var d := Discovered(glob(pattern));
      Some(if customTitle != "" then d.(commonName := customTitle) else d)
  }

  /** With explicit videos: they are rejected exactly when one is missing or
      the caption count differs; otherwise they are used as given, in the
      given order, labelled by the captions or else by their stems. A custom
      title always becomes the common name, and without explicit videos the
      selection fails exactly when the glob finds nothing. */
  lemma SelectFacts(userVideos: seq<string>, userCaptions: seq<string>, customTitle: string,
                    isFile: string -> bool, glob: string -> seq<string>, pattern: string)
    ensures var sel := Select(userVideos, userCaptions, customTitle, isFile, glob, pattern);
      && (userVideos != [] ==>
            (sel.None? <==>
              (exists k :: 0 <= k < |userVideos| && !isFile(userVideos[k]))
              || (userCaptions != [] && |userCaptions| != |userVideos|)))
      && (userVideos != [] && sel.Some? ==>
            && sel.value.videos == userVideos
            && |sel.value.labels| == |userVideos|
            && (userCaptions != [] ==> sel.value.labels == userCaptions)
            && (userCaptions == [] ==>
                  forall k :: 0 <= k < |userVideos| ==> sel.value.labels[k] == Stem(userVideos[k])))
      && (userVideos == [] ==> (sel.None? <==> glob(pattern) == []))
      && (sel.Some? && customTitle != "" ==> sel.value.commonName == customTitle)
      && (sel.Some? ==> |sel.value.labels| == |sel.value.videos| >= 1)
  {
    if userVideos == [] && glob(pattern) != [] {
      DiscoveredFacts(glob(pattern));
    }
  }

  /** The input checks at the start of `make_gif`, then discovery. */
  method SelectInputs(userVideos: seq<string>, userCaptions: seq<string>, customTitle: string,
                      isFile: string -> bool, glob: string -> seq<string>, pattern: string)
    returns (sel: Option<Found>)
    ensures sel == Select(userVideos, userCaptions, customTitle, isFile, glob, pattern)
    ensures sel.Some? ==> |sel.value.labels| == |sel.value.videos| >= 1
  {
    SelectFacts(userVideos, userCaptions, customTitle, isFile, glob, pattern);
    if userVideos != [] {
      for i := 0 to |userVideos|
        invariant AllExist(userVideos[..i], isFile)
      {
        if !isFile(userVideos[i]) {
          return None;
        }
        assert userVideos[..i + 1] == userVideos[..i] + [userVideos[i]];
      }
      assert userVideos[..|userVideos|] == userVideos;
      var labels;
      if userCaptions != [] {
        if |userCaptions| != |userVideos| {
          return None;
        }
        labels := userCaptions;
      } else {
        labels := StemsOf(userVideos);
      }
      return Some(Found(userVideos, labels, customTitle));
    }
    var found := FindVideos(glob(pattern));
    if found.None? {
      return None;
    }
    var d := found.value;
    if customTitle != "" {
      d := d.(commonName := customTitle);
    }
    return Some(d);
  }

  // ---------------------------------------------------------------------
  // Frame extraction and titling

  /** `select=eq(n\,N)`: keep only frame `N`. */
  function SelectStage(frameNumber: int): string
  {
    "select=eq(n\\," + IntStr(frameNumber) + ")"
  }

  /** `scale=W:-1`: scale to width `W`, keeping the aspect ratio. */
  function ScaleStage(width: int): string
  {
    "scale=" + IntStr(width) + ":-1"
  }

  /** The filter stages of `extract_frame`, in order. */
  function FilterStages(frameNumber: int, width: int, showLabels: bool, style: LabelStyle,
                        text: string): seq<string>
  {
    [SelectStage(frameNumber), ScaleStage(width)]
      + (if showLabels && text != "" then [Drawtext(style, text)] else [])
  }

  /** The `-vf` argument of `extract_frame`. */
  function FilterString(frameNumber: int, width: int, showLabels: bool, style: LabelStyle,
                        text: string): string
  {
    Join(FilterStages(frameNumber, width, showLabels, style, text), ",")
  }

  /** The filter as its two or three stages joined by commas. */
  lemma FilterStringCases(frameNumber: int, width: int, showLabels: bool, style: LabelStyle,
                          text: string)
    ensures var head := SelectStage(frameNumber) + "," + ScaleStage(width);
      FilterString(frameNumber, width, showLabels, style, text) ==
        if showLabels && text != "" then head + "," + Drawtext(style, text) else head
  {
    var s := SelectStage(frameNumber);
    var c := ScaleStage(width);
    var stages := FilterStages(frameNumber, width, showLabels, style, text);
    if showLabels && text != "" {
      var d := Drawtext(style, text);
      assert stages == [s, c, d];
      JoinThree(s, c, d, ",");
    } else {
      assert stages == [s, c];
      JoinTwo(s, c, ",");
    }
  }

  /** The filter always selects the frame, then scales it, and a label
      stage follows exactly when labels are on and the text is not empty. */
  lemma FilterStringShape(frameNumber: int, width: int, showLabels: bool, style: LabelStyle,
                          text: string)
    ensures var f := FilterString(frameNumber, width, showLabels, style, text);
      var head := SelectStage(frameNumber) + "," + ScaleStage(width);
      && StartsWith(f, head)
      && (f == head <==> !(showLabels && text != ""))
      && (showLabels && text != "" ==> f == head + "," + Drawtext(style, text))
  {
    JoinedStagesShape(SelectStage(frameNumber), ScaleStage(width), Drawtext(style, text),
                      showLabels && text != "");
  }

  /** Two stages, and a third one when `present`, joined by commas. */
  lemma JoinedStagesShape(s: string, c: string, d: string, present: bool)
    ensures var f := Join([s, c] + (if present then [d] else []), ",");
      var head := s + "," + c;
      && StartsWith(f, head)
      && (f == head <==> !present)
      && (present ==> f == head + "," + d)
  {
    var head := s + "," + c;
    var tail := "," + d;
    var f := Join([s, c] + (if present then [d] else []), ",");
    if present {
      assert [s, c] + [d] == [s, c, d];
      JoinThree(s, c, d, ",");
      assert f == head + tail;
    } else {
      assert [s, c] + [] == [s, c];
      JoinTwo(s, c, ",");
    }
    OptionalSuffix(f, head, tail, present);
  }

  /** A string that is `head`, or `head` followed by a non-empty `tail`. */
  lemma OptionalSuffix(f: string, head: string, tail: string, present: bool)
    requires tail != []
    requires f == if present then head + tail else head
    ensures StartsWith(f, head)
    ensures f == head <==> !present
  {
    StartsWithConcat(head, tail);
    StartsWithConcat(head, []);
    assert head + [] == head;
    if present { assert |f| > |head|; }
  }

  /** With a label, the filter is the select and scale stages, the opening
      of the label stage, the quoted text and the label placement. */
  lemma FilterLabelLayout(frameNumber: int, width: int, style: LabelStyle, text: string)
    requires text != ""
    ensures FilterString(frameNumber, width, true, style, text)
      == SelectStage(frameNumber) + "," + ScaleStage(width) + "," + "drawtext=text="
         + Quote(text) + (Placement(style) + BoxParams(style))
  {
    var head := SelectStage(frameNumber) + "," + ScaleStage(width);
    var placed := Placement(style) + BoxParams(style);
    FilterLabelled(frameNumber, width, style, text);
    DrawtextLayout(style, text);
    Regroup4(head, ",", "drawtext=text=", Quote(text), placed);
  }

  lemma FilterLabelled(frameNumber: int, width: int, style: LabelStyle, text: string)
    requires text != ""
    ensures FilterString(frameNumber, width, true, style, text)
      == SelectStage(frameNumber) + "," + ScaleStage(width) + ("," + Drawtext(style, text))
  {
    FilterStringCases(frameNumber, width, true, style, text);
  }

  /** A label stage carries the label text, which reads back from its place
      right after the select and scale stages. */
  lemma FilterLabelReadsBack(frameNumber: int, width: int, style: LabelStyle, text: string)
    requires text != ""
    ensures var f := FilterString(frameNumber, width, true, style, text);
      var p := |SelectStage(frameNumber) + "," + ScaleStage(width)| + 15;
      && p + |Quote(text)| <= |f|
      && Unquote(f[p..p + |Quote(text)|], false) == text
  {
    var pre := SelectStage(frameNumber) + "," + ScaleStage(width) + "," + "drawtext=text=";
    FilterLabelLayout(frameNumber, width, style, text);
    QuotedWithin(FilterString(frameNumber, width, true, style, text), pre, text,
                 Placement(style) + BoxParams(style));
  }

  /** The title stage of `add_title_to_image` up to the quoted title: pad a
      strip of `titlePadding` rows on top and open the title text. */
  function TitlePad(titlePadding: int): string
  {
    "pad=iw:ih+" + IntStr(titlePadding) + ":0:" + IntStr(titlePadding) + ":black,drawtext=text="
  }

  /** Centre the title in the strip, 36-point white on a dark box. */
  function TitleTail(titlePadding: int): string
  {
    ":x=(w-tw)/2:y=(" + IntStr(titlePadding)
      + "-th)/2:fontcolor=white:fontsize=36:box=1:boxcolor=black@0.7"
  }

  /** The `-vf` argument of `add_title_to_image`. */
  function TitleFilter(titlePadding: int, title: string): string
  {
    TitlePad(titlePadding) + Quote(title) + TitleTail(titlePadding)
  }

  /** The title reads back from its place in the title filter. */
  lemma TitleFilterReadsBack(titlePadding: int, title: string)
    ensures var f := TitleFilter(titlePadding, title);
      && |TitlePad(titlePadding)| + |Quote(title)| <= |f|
      && Unquote(f[|TitlePad(titlePadding)|..|TitlePad(titlePadding)| + |Quote(title)|], false) == title
  {
    QuotedAt(TitlePad(titlePadding), title, TitleTail(titlePadding));
  }

  /** `f"frame_{i:04d}.png"` and `f"titled_{i:04d}.png"`. */
  function FrameName(i: nat): string
  {
    "frame_" + ZeroPadded(i, 4) + ".png"
  }

  function TitledName(i: nat): string
  {
    "titled_" + ZeroPadded(i, 4) + ".png"
  }

  function FramePath(tempDir: string, i: nat): string
  {
    PathJoin(tempDir, FrameName(i))
  }

  function TitledPath(tempDir: string, i: nat): string
  {
    PathJoin(tempDir, TitledName(i))
  }

  /** Distinct indices give distinct names, and a frame name is never a
      titled name. */
  lemma FrameNamesDistinct(i: nat, j: nat)
    ensures FrameName(i) == FrameName(j) <==> i == j
    ensures TitledName(i) == TitledName(j) <==> i == j
    ensures FrameName(i) != TitledName(j)
  {
    if FrameName(i) == FrameName(j) {
      assert ZeroPadded(i, 4) == FrameName(i)[6..|FrameName(i)| - 4];
      assert ZeroPadded(j, 4) == FrameName(j)[6..|FrameName(j)| - 4];
      ZeroPaddedInjective(i, j, 4);
    }
    if TitledName(i) == TitledName(j) {
      assert ZeroPadded(i, 4) == TitledName(i)[7..|TitledName(i)| - 4];
      assert ZeroPadded(j, 4) == TitledName(j)[7..|TitledName(j)| - 4];
      ZeroPaddedInjective(i, j, 4);
    }
    assert FrameName(i)[0] == 'f' && TitledName(j)[0] == 't';
  }

  /** No two frames share a file in the temporary directory: frame and
      titled files differ by index, and a frame file is never a titled file. */
  lemma FramePathsDistinct(tempDir: string, i: nat, j: nat)
    ensures FramePath(tempDir, i) == FramePath(tempDir, j) <==> i == j
    ensures TitledPath(tempDir, i) == TitledPath(tempDir, j) <==> i == j
    ensures FramePath(tempDir, i) != TitledPath(tempDir, j)
  {
    FrameNamesDistinct(i, j);
    assert FrameName(i)[0] == 'f' && FrameName(j)[0] == 'f';
    assert TitledName(i)[0] == 't' && TitledName(j)[0] == 't';
    PathJoinInjective(tempDir, FrameName(i), FrameName(j));
    PathJoinInjective(tempDir, TitledName(i), TitledName(j));
    PathJoinInjective(tempDir, FrameName(i), TitledName(j));
  }

  /** One `extract_frame` call, by its arguments: ffmpeg reads `video` and
      writes `output` through the filter `FilterString(frameNumber, width,
      showLabels, style, label)` of the maker's label settings. */
  datatype Extraction = Extraction(video: string, frameNumber: int, output: string, width: int,
                                   caption: string)

  /** One `add_title_to_image` call, by its arguments: ffmpeg reads `input`
      and writes `output` through `TitleFilter(titlePadding, title)`. */
  datatype TitleJob = TitleJob(input: string, output: string, title: string, width: int)

  /** What the frame loop works with: the chosen videos, labels and title,
      and the settings it reads. */
  datatype Job = Job(
    videos: seq<string>, labels: seq<string>, title: string, cellWidth: int,
    tempDir: string, frameNumber: int, showLabels: bool, style: LabelStyle,
    showTitle: bool, titlePadding: int)
  {
    predicate Valid() { |labels| == |videos| }
  }

  /** The extraction of frame `i`. */
  function ExtractionOf(job: Job, i: nat): Extraction
    requires job.Valid() && i < |job.videos|
  {
    Extraction(job.videos[i], job.frameNumber, FramePath(job.tempDir, i), job.cellWidth,
               job.labels[i])
  }

  /** The titling of frame `i`. */
  function TitleJobOf(job: Job, i: nat): TitleJob
  {
    TitleJob(FramePath(job.tempDir, i), TitledPath(job.tempDir, i), job.title, job.cellWidth)
  }

  /** The image frame `i` contributes: the titled one when a title is shown
      and titling succeeds, else the untitled one. */
  function FrameOf(job: Job, i: nat, addTitle: TitleJob -> bool): string
  {
    if job.showTitle && job.title != "" && addTitle(TitleJobOf(job, i))
    then TitledPath(job.tempDir, i) else FramePath(job.tempDir, i)
  }

  /** The extractions of frames `0 .. m - 1`, in order. */
  function Extractions(job: Job, m: nat): (es: seq<Extraction>)
    requires job.Valid() && m <= |job.videos|
    ensures |es| == m
  {
    if m == 0 then [] else Extractions(job, m - 1) + [ExtractionOf(job, m - 1)]
  }

  /** The images of frames `0 .. m - 1`, in order. */
  function Frames(job: Job, m: nat, addTitle: TitleJob -> bool): (fs: seq<string>)
    ensures |fs| == m
  {
    Tabulate(FrameAt(job, addTitle), m)
  }

  /** `FrameOf` as a function of the frame index alone. */
  function FrameAt(job: Job, addTitle: TitleJob -> bool): nat -> string
  {
    (i: nat) => FrameOf(job, i, addTitle)
  }

  /** Frame `i` of the list is frame `i`'s own image. */
  lemma FramesIndex(job: Job, m: nat, addTitle: TitleJob -> bool, i: nat)
    requires i < m
    ensures Frames(job, m, addTitle)[i] == FrameOf(job, i, addTitle)
  {
    TabulateIndex(FrameAt(job, addTitle), m);
  }

  /** Each frame's image is its titled image exactly when a title is shown
      and titling it succeeds, and otherwise its untitled image. */
  lemma FrameOfCases(job: Job, i: nat, addTitle: TitleJob -> bool)
    ensures FrameOf(job, i, addTitle) == TitledPath(job.tempDir, i) <==>
      job.showTitle && job.title != "" && addTitle(TitleJobOf(job, i))
    ensures FrameOf(job, i, addTitle) == FramePath(job.tempDir, i) <==>
      !(job.showTitle && job.title != "" && addTitle(TitleJobOf(job, i)))
  {
    FramePathsDistinct(job.tempDir, i, i);
  }

  /** The first frame, from `k` on, whose extraction fails, or the number of
      videos when none does. */
  function FailFrom(job: Job, extract: Extraction -> bool, k: nat): (r: nat)
    requires job.Valid() && k <= |job.videos|
    ensures k <= r <= |job.videos|
    decreases |job.videos| - k
  {
    if k == |job.videos| then k
    else if !extract(ExtractionOf(job, k)) then k
    else FailFrom(job, extract, k + 1)
  }

  /** Every extraction before the first failure succeeds, and the first
      failure, when there is one, fails. */
  lemma {:induction false} FailFromFacts(job: Job, extract: Extraction -> bool, k: nat)
    requires job.Valid() && k <= |job.videos|
    ensures var r := FailFrom(job, extract, k);
      && (forall j :: k <= j < r ==> extract(ExtractionOf(job, j)))
      && (r < |job.videos| ==> !extract(ExtractionOf(job, r)))
    decreases |job.videos| - k
  {
    var r := FailFrom(job, extract, k);
    if k < |job.videos| && extract(ExtractionOf(job, k)) {
      FailFromFacts(job, extract, k + 1);
      assert r == FailFrom(job, extract, k + 1);
      forall j | k <= j < r ensures extract(ExtractionOf(job, j)) {
        if j == k { } else { assert k + 1 <= j < r; }
      }
    } else {
      assert r == k;
    }
  }

  /** The loop of `make_gif`: extracts each frame in order, stopping at the
      first failure, and titles it when a title is shown. */
  method ExtractAll(job: Job, extract: Extraction -> bool, addTitle: TitleJob -> bool)
    returns (ok: bool, extractions: seq<Extraction>, frames: seq<string>)
    requires job.Valid()
    ensures var k := FailFrom(job, extract, 0);
      && (ok <==> k == |job.videos|)
      && (!ok ==> extractions == Extractions(job, k + 1))
      && (ok ==> extractions == Extractions(job, |job.videos|)
                 && frames == Frames(job, |job.videos|, addTitle))
  {
    extractions := [];
    frames := [];
    ghost var k := FailFrom(job, extract, 0);
    FailFromFacts(job, extract, 0);
    for i := 0 to |job.videos|
      invariant i <= k
      invariant extractions == Extractions(job, i)
      invariant frames == Frames(job, i, addTitle)
    {
      var e := ExtractionOf(job, i);
      extractions := extractions + [e];
      if !extract(e) {
        return false, extractions, frames;
      }
      var path := TitleFrame(job, i, addTitle);
      assert path == FrameAt(job, addTitle)(i);
      frames := frames + [path];
    }
    return true, extractions, frames;
  }

  /** The titling step of the loop: a shown title is added to the frame,
      and the titled image is used when that succeeds. */
  method TitleFrame(job: Job, i: nat, addTitle: TitleJob -> bool) returns (path: string)
    ensures path == FrameOf(job, i, addTitle)
  {
    var framePath := FramePath(job.tempDir, i);
    path := framePath;
    if job.showTitle && job.title != "" {
      var titled := TitledPath(job.tempDir, i);
      if addTitle(TitleJob(framePath, titled, job.title, job.cellWidth)) {
        path := titled;
      }
    }
  }

  // ---------------------------------------------------------------------
  // The concat manifest

  /** `file '<path>'` and `duration <seconds>`, each with its newline. */
  function FileLine(path: string): string
  {
    "file '" + path + "'\n"
  }

  function DurationLine(durationText: string): string
  {
    "duration " + durationText + "\n"
  }

  /** A `file`/`duration` pair per frame, in order. */
  function Pairs(paths: seq<string>, durationText: string): (ls: seq<string>)
    ensures |ls| == 2 * |paths|
  {
    if paths == [] then []
    else Pairs(paths[..|paths| - 1], durationText)
           + [FileLine(paths[|paths| - 1]), DurationLine(durationText)]
  }

  /** The lines `create_gif_from_frames` writes: the pairs, then the last
      frame's `file` line once more. */
  function ManifestLines(paths: seq<string>, durationText: string): seq<string>
  {
    Pairs(paths, durationText) + (if paths == [] then [] else [FileLine(paths[|paths| - 1])])
  }

  /** Writes the manifest line by line. */
  method WriteManifest(paths: seq<string>, durationText: string) returns (written: seq<string>)
    ensures written == ManifestLines(paths, durationText)
  {
    written := [];
    for i := 0 to |paths|
      invariant written == Pairs(paths[..i], durationText)
    {
      written := written + [FileLine(paths[i])];
      written := written + [DurationLine(durationText)];
      assert paths[..i + 1][..i] == paths[..i];
    }
    assert paths[..|paths|] == paths;
    if paths != [] {
      written := written + [FileLine(paths[|paths| - 1])];
    }
  }

  lemma {:induction false} PairsIndex(paths: seq<string>, durationText: string)
    ensures forall k :: 0 <= k < |paths| ==>
      Pairs(paths, durationText)[2 * k] == FileLine(paths[k])
      && Pairs(paths, durationText)[2 * k + 1] == DurationLine(durationText)
  {
    if paths != [] {
      var init := paths[..|paths| - 1];
      PairsIndex(init, durationText);
      assert forall k :: 0 <= k < |init| ==> init[k] == paths[k];
    }
  }

  /** `k` frames give `2k + 1` lines (none for no frames): line `2j` names
      frame `j`, line `2j + 1` gives its duration, and the last line names
      the last frame again. */
  lemma ManifestShape(paths: seq<string>, durationText: string)
    ensures var ls := ManifestLines(paths, durationText);
      && |ls| == (if paths == [] then 0 else 2 * |paths| + 1)
      && (forall k :: 0 <= k < |paths| ==>
            ls[2 * k] == FileLine(paths[k]) && ls[2 * k + 1] == DurationLine(durationText))
      && (paths != [] ==> ls[2 * |paths|] == FileLine(paths[|paths| - 1]))
  {
    PairsIndex(paths, durationText);
  }

  /** A `file '<path>'` line as the concat demuxer reads it. */
  predicate IsFileLine(line: string)
  {
    |line| >= 8 && line[..6] == "file '" && line[|line| - 2..] == "'\n"
  }

  /** The files a reader of the manifest plays, in order. */
  function ListedFiles(lines: seq<string>): seq<string>
  {
    if lines == [] then []
    else
      var line := lines[|lines| - 1];
      ListedFiles(lines[..|lines| - 1]) + (if IsFileLine(line) then [line[6..|line| - 2]] else [])
  }

  lemma {:induction false} ListedFilesAppend(a: seq<string>, b: seq<string>)
    ensures ListedFiles(a + b) == ListedFiles(a) + ListedFiles(b)
    decreases |b|
  {
    if b != [] {
      var init := b[..|b| - 1];
      var line := b[|b| - 1];
      assert (a + b)[..|a + b| - 1] == a + init;
      assert (a + b)[|a + b| - 1] == line;
      ListedFilesAppend(a, init);
      var tail := if IsFileLine(line) then [line[6..|line| - 2]] else [];
      assert ListedFiles(a + b) == ListedFiles(a) + ListedFiles(init) + tail;
      assert ListedFiles(b) == ListedFiles(init) + tail;
    } else {
      assert a + b == a;
    }
  }

  lemma FileLineReadsBack(path: string)
    ensures IsFileLine(FileLine(path)) && FileLine(path)[6..|FileLine(path)| - 2] == path
  {
  }

  /** One pair lists its file once. */
  lemma PairListed(path: string, durationText: string)
    ensures ListedFiles([FileLine(path), DurationLine(durationText)]) == [path]
  {
    var two := [FileLine(path), DurationLine(durationText)];
    assert two[..1] == [FileLine(path)];
    assert [FileLine(path)][..0] == [];
    FileLineReadsBack(path);
    assert ListedFiles([FileLine(path)]) == [path];
    assert DurationLine(durationText)[0] == 'd';
    assert !IsFileLine(DurationLine(durationText));
  }

  lemma {:induction false} PairsList(paths: seq<string>, durationText: string)
    ensures ListedFiles(Pairs(paths, durationText)) == paths
  {
    if paths != [] {
      var init := paths[..|paths| - 1];
      var last := paths[|paths| - 1];
      var two := [FileLine(last), DurationLine(durationText)];
      PairsList(init, durationText);
      ListedFilesAppend(Pairs(init, durationText), two);
      PairListed(last, durationText);
      assert paths == init + [last];
    }
  }

  /** Read back, the manifest plays every frame in order and then the last
      frame once more; no frames means nothing to play. */
  lemma ManifestListsFrames(paths: seq<string>, durationText: string)
    ensures ListedFiles(ManifestLines(paths, durationText)) ==
      if paths == [] then [] else paths + [paths[|paths| - 1]]
  {
    PairsList(paths, durationText);
    if paths != [] {
      var last := paths[|paths| - 1];
      ListedFilesAppend(Pairs(paths, durationText), [FileLine(last)]);
      FileLineReadsBack(last);
      assert [FileLine(last)][..0] == [];
    }
  }

  /** `create_gif_from_frames`: writes the manifest, then encodes with a
      generated palette, or without one when palette generation fails.
      `paletteOk`, `encodeOk` and `fallbackOk` are the ffmpeg outcomes. */
  method CreateGifFromFrames(framePaths: seq<string>, durationText: string,
                             paletteOk: bool, encodeOk: bool, fallbackOk: bool)
    returns (ok: bool, manifest: seq<string>)
    ensures manifest == ManifestLines(framePaths, durationText)
    ensures ok == if paletteOk then encodeOk else fallbackOk
  {
    manifest := WriteManifest(framePaths, durationText);
    if !paletteOk {
      return fallbackOk, manifest;
    }
    ok := encodeOk;
  }

  // ---------------------------------------------------------------------
  // Output name and the composer

  /** `f"{common_name or 'output'}_frame{N}.gif"`. */
  function DefaultOutput(commonName: string, frameNumber: int): string
  {
    (if commonName == "" then "output" else commonName) + "_frame" + IntStr(frameNumber) + ".gif"
  }

  /** The default name starts with the common name (or `output`), ends with
      `.gif`, and the frame number reads back from between them: its digits,
      after a `-` when the number is negative (`--frame` takes any int). */
  lemma DefaultOutputFacts(commonName: string, frameNumber: int)
    ensures var base := if commonName == "" then "output" else commonName;
      var out := DefaultOutput(commonName, frameNumber);
      var mid := out[|base| + 6..|out| - 4];
      && StartsWith(out, base + "_frame")
      && EndsWith(out, ".gif")
      && mid == IntStr(frameNumber)
      && (frameNumber >= 0 ==> AllDigits(mid) && DigitsValue(mid) == frameNumber)
      && (frameNumber < 0 ==> |mid| >= 2 && mid[0] == '-' && AllDigits(mid[1..])
                              && DigitsValue(mid[1..]) == -frameNumber)
  {
    var d := IntStr(frameNumber);
    FramedName(if commonName == "" then "output" else commonName, d);
    if frameNumber >= 0 {
      NatStrRoundTrip(frameNumber);
    } else {
      assert d[1..] == NatStr(-frameNumber);
      NatStrRoundTrip(-frameNumber);
    }
  }

  /** `<base>_frame<d>.gif` opens with `<base>_frame`, closes with `.gif` and
      holds `d` between them. */
  lemma FramedName(base: string, d: string)
    ensures var out := base + "_frame" + d + ".gif";
      && StartsWith(out, base + "_frame")
      && EndsWith(out, ".gif")
      && out[|base| + 6..|out| - 4] == d
  {
    var out := base + "_frame" + d + ".gif";
    assert out == (base + "_frame") + d + ".gif";
    StartsWithConcat(base + "_frame", d + ".gif");
    assert out == (base + "_frame" + d) + ".gif";
    EndsWithConcat(base + "_frame" + d, ".gif");
    assert out[|base| + 6..|out| - 4] == d;
  }

  /** Different frame numbers give different default names. */
  lemma DefaultOutputInjective(commonName: string, m: int, n: int)
    ensures DefaultOutput(commonName, m) == DefaultOutput(commonName, n) <==> m == n
  {
    if DefaultOutput(commonName, m) == DefaultOutput(commonName, n) {
      DefaultOutputFacts(commonName, m);
      DefaultOutputFacts(commonName, n);
      IntStrInjective(m, n);
    }
  }

  /** What the frame loop and the GIF step leave behind for `job`: when
      frame `k` is the first whose extraction fails, exit status 1 after
      extractions `0 .. k`, no frames and the output name untouched;
      when every frame is extracted, all the extractions and frames in
      order, the default output name (from the title and the frame number)
      filled in when none was given, and exit status 0 exactly when the GIF
      was written, by the palette route when the palette was made and by
      the direct route otherwise. */
  ghost predicate Produced(job: Job, extract: Extraction -> bool, addTitle: TitleJob -> bool,
                           paletteOk: bool, encodeOk: bool, fallbackOk: bool, frameNumber: int,
                           outputBefore: string, code: int, extractions: seq<Extraction>,
                           framePaths: seq<string>, outputAfter: string)
    requires job.Valid()
  {
    var k := FailFrom(job, extract, 0);
    && (k < |job.videos| ==>
          code == 1 && extractions == Extractions(job, k + 1) && framePaths == []
          && outputAfter == outputBefore)
    && (k == |job.videos| ==>
          && extractions == Extractions(job, k)
          && framePaths == Frames(job, k, addTitle)
          && outputAfter == (if outputBefore == "" then DefaultOutput(job.title, frameNumber)
                             else outputBefore)
          && code == (if (if paletteOk then encodeOk else fallbackOk) then 0 else 1))
  }

  class FrameGifMaker {
    var frameNumber: int
    var durationText: string    // frame_duration as printed into the manifest
    var outputFile: string
    var maxWidth: int
    var showLabels: bool
    var style: LabelStyle
    var showTitle: bool
    var titlePadding: int
    var customTitle: string     // "" for none
    var userVideos: seq<string> // [] for none
    var userCaptions: seq<string>
    var inputDirectory: string  // "" for the current directory
    var filePattern: string

    /** The defaults: frame 0 shown for 0.2 s, 640-pixel frames, labels in
        the default style, a title strip of 80 pixels, `*.mp4` in the
        current directory. */
    constructor ()
      ensures frameNumber == 0 && durationText == "0.2" && outputFile == "" && maxWidth == 640
      ensures showLabels && style == DefaultStyle() && showTitle && titlePadding == 80
      ensures customTitle == "" && userVideos == [] && userCaptions == []
      ensures inputDirectory == "" && filePattern == "*.mp4"
    {
      frameNumber := 0;
      durationText := "0.2";
      outputFile := "";
      maxWidth := 640;
      showLabels := true;
      style := DefaultStyle();
      showTitle := true;
      titlePadding := 80;
      customTitle := "";
      userVideos := [];
      userCaptions := [];
      inputDirectory := "";
      filePattern := "*.mp4";
    }

    /** The frame loop's job for the selected inputs `sel` when the first
        video is `width` pixels wide. */
    function JobFor(sel: Found, width: int, tempDir: string): Job
      reads this`maxWidth, this`frameNumber, this`showLabels, this`style, this`showTitle,
            this`titlePadding
    {
      Job(sel.videos, sel.labels, sel.commonName, if maxWidth < width then maxWidth else width,
          tempDir, frameNumber, showLabels, style, showTitle, titlePadding)
    }

    /** The part of `make_gif` after the inputs and the frame width are
        known: the frame loop, the default output name and the GIF. */
    method Produce(job: Job, extract: Extraction -> bool, addTitle: TitleJob -> bool,
                   paletteOk: bool, encodeOk: bool, fallbackOk: bool)
      returns (code: int, extractions: seq<Extraction>, framePaths: seq<string>)
      requires job.Valid()
      modifies this`outputFile
      ensures Produced(job, extract, addTitle, paletteOk, encodeOk, fallbackOk, frameNumber,
                       old(outputFile), code, extractions, framePaths, outputFile)
    {
      var ok;
      ok, extractions, framePaths := ExtractAll(job, extract, addTitle);
      if !ok {
        return 1, extractions, [];
      }
      if outputFile == "" {
        outputFile := DefaultOutput(job.title, frameNumber);
      }
      var created, _ := CreateGifFromFrames(framePaths, durationText, paletteOk, encodeOk, fallbackOk);
      code := if created then 0 else 1;
    }

    /** `make_gif`. `isFile` is the existence check, `glob` the glob,
        `probeWidth` the ffprobe width of a video (None on failure),
        `tempDir` the temporary directory, `extract` and `addTitle` the
        outcomes of the ffmpeg calls of `extract_frame` and
        `add_title_to_image`, and the three booleans those of
        `create_gif_from_frames`. Returns the exit status, the extractions
        attempted and the frames handed to the GIF encoder. */
    method MakeGif(isFile: string -> bool, glob: string -> seq<string>,
                   probeWidth: string -> Option<int>, tempDir: string,
                   extract: Extraction -> bool, addTitle: TitleJob -> bool,
                   paletteOk: bool, encodeOk: bool, fallbackOk: bool)
      returns (code: int, extractions: seq<Extraction>, framePaths: seq<string>)
      modifies this`outputFile
      ensures var sel := Select(userVideos, userCaptions, customTitle, isFile, glob,
                                SearchPattern(inputDirectory, filePattern));
        && (sel.None? ==> code == 1 && extractions == [] && outputFile == old(outputFile))
        && (sel.Some? && probeWidth(sel.value.videos[0]).None? ==>
              code == 1 && extractions == [] && outputFile == old(outputFile))
      ensures var sel := Select(userVideos, userCaptions, customTitle, isFile, glob,
                                SearchPattern(inputDirectory, filePattern));
        sel.Some? && probeWidth(sel.value.videos[0]).Some? ==>
          Produced(JobFor(sel.value, probeWidth(sel.value.videos[0]).value, tempDir), extract,
                   addTitle, paletteOk, encodeOk, fallbackOk, frameNumber, old(outputFile), code,
                   extractions, framePaths, outputFile)
    {
      var sel := SelectInputs(userVideos, userCaptions, customTitle, isFile, glob,
                              SearchPattern(inputDirectory, filePattern));
      if sel.None? {
        return 1, [], [];
      }
      var width := probeWidth(sel.value.videos[0]);
      if width.None? {
        return 1, [], [];
      }
      var job := JobFor(sel.value, width.value, tempDir);
      code, extractions, framePaths := Produce(job, extract, addTitle, paletteOk, encodeOk, fallbackOk);
      assert JobFor(sel.value, width.value, tempDir) == job;
      assert sel == Select(userVideos, userCaptions, customTitle, isFile, glob,
                           SearchPattern(inputDirectory, filePattern));
    }
  }
}
