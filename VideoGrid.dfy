/** The grid composer: finds the numbered videos of a directory, labels each
    cell, lays the cells out on a near-square grid, adds an optional title
    strip, and hands the resulting filter graph to ffmpeg. The probes and the
    ffmpeg run are inputs; the printed forms of the floating-point timing
    values of each cell are inputs too. */
module VideoGrid {
  import opened Text
  import opened Quoting
  import opened Paths
  import opened Sorting
  import opened Naming
  import opened GridLayout
  import opened Labels

  // ---------------------------------------------------------------------
  // Discovery

  /** The label of one video: the number of a matching name, else its stem. */
  function LabelOf(name: string): string
  {
    match ParseName(name)
    case Some(p) => p.num
    case None => Stem(name)
  }

  /** A matching name is labelled by its number, any other by its stem. */
  lemma LabelOfCases(name: string, base: string, num: string)
    ensures Matches(name, base, num) ==> LabelOf(name) == num
    ensures ParseName(name).None? ==> LabelOf(name) == Stem(name)
  {
    if Matches(name, base, num) {
      ParseNameComplete(name, base, num);
    }
  }

  /** One label per video, in order. */
  function LabelsOf(videos: seq<string>): (ls: seq<string>)
    ensures |ls| == |videos|
  {
    Map(LabelOf, videos)
  }

  lemma LabelsOfIndex(videos: seq<string>)
    ensures forall k :: 0 <= k < |videos| ==> LabelsOf(videos)[k] == LabelOf(videos[k])
  {
    MapIndex(LabelOf, videos);
  }

  /** What discovery reports for a non-empty glob result. */
  function Discovered(globbed: seq<string>): Found
  {
    var videos := SortStrings(globbed);
    Found(videos, LabelsOf(videos), FirstBase(ParseAll(videos)))
  }

  /** The videos are the glob result in sorted order, there is one label per
      video in the same order, and the common name is the base of the first
      matching video, empty exactly when none matches. */
  lemma DiscoveredFacts(globbed: seq<string>)
    ensures var d := Discovered(globbed);
      && Sorted(d.videos) && multiset(d.videos) == multiset(globbed)
      && |d.labels| == |d.videos|
      && (forall k :: 0 <= k < |d.videos| ==> d.labels[k] == LabelOf(d.videos[k]))
      && (d.commonName == "" <==> forall k :: 0 <= k < |d.videos| ==> ParseName(d.videos[k]).None?)
  {
    var videos := SortStrings(globbed);
    LabelsOfIndex(videos);
    ParsedBasesNonEmpty(videos);
    FirstBaseEmptyIffNoMatch(ParseAll(videos));
  }

  /** `find_videos`: sorts the glob result; nothing found is reported as
      `None`, otherwise the sorted videos with their labels and common name. */
  method FindVideos(globbed: seq<string>) returns (found: Option<Found>)
    ensures globbed == [] <==> found.None?
    ensures found.Some? ==> found.value == Discovered(globbed)
  {
    var videos := SortStrings(globbed);
    if |videos| == 0 {
      return None;
    }
    var numbers, common := LabelVideos(videos);
    return Some(Found(videos, numbers, common));
  }

  /** The loop of `find_videos`: walks the sorted videos once, labelling each
      and keeping the first matched base as the common name. */
  method LabelVideos(videos: seq<string>) returns (numbers: seq<string>, common: string)
    ensures numbers == LabelsOf(videos)
    ensures common == FirstBase(ParseAll(videos))
  {
    common := "";
    numbers := [];
    ghost var parsed := ParseAll(videos);
    ParsedBasesNonEmpty(videos);
    for i := 0 to |videos|
      invariant numbers == LabelsOf(videos[..i])
      invariant common == FirstBase(parsed[..i])
    {
      var m := ParseName(videos[i]);
      CommonNameStep(parsed, i);
      var tag;
      if m.Some? {
        if common == "" {
          common := m.value.base;
        }
        // a different base later on only draws a warning
        tag := m.value.num;
      } else {
        tag := Stem(videos[i]);
      }
      assert tag == LabelOf(videos[i]);
      MapStep(LabelOf, videos, i);
      numbers := numbers + [tag];
    }
    assert parsed[..|videos|] == parsed;
    assert videos[..|videos|] == videos;
  }

  // ---------------------------------------------------------------------
  // Durations

  /** `max(0, d0, d1, ...)`, folded left as the probing loop does. */
  function MaxDuration(ds: seq<real>): real
  {
    if ds == [] then 0.0
    else
      var m := MaxDuration(ds[..|ds| - 1]);
      if m < ds[|ds| - 1] then ds[|ds| - 1] else m
  }

  /** The maximum is at least 0 and every duration, and it is 0 or one of the
      durations. */
  lemma {:induction false} MaxDurationBounds(ds: seq<real>)
    ensures MaxDuration(ds) >= 0.0
    ensures forall k :: 0 <= k < |ds| ==> ds[k] <= MaxDuration(ds)
    ensures MaxDuration(ds) == 0.0 || exists k :: 0 <= k < |ds| && ds[k] == MaxDuration(ds)
  {
    if ds != [] {
      var init := ds[..|ds| - 1];
      MaxDurationBounds(init);
      assert forall k :: 0 <= k < |init| ==> ds[k] == init[k];
      if MaxDuration(ds) != 0.0 && MaxDuration(ds) == MaxDuration(init) {
        var k :| 0 <= k < |init| && init[k] == MaxDuration(init);
        assert ds[k] == MaxDuration(ds);
      }
    }
  }

  /** A cell gets the checkmark when its video ends more than 0.01 s before
      the longest one and so has its last frame frozen. */
  predicate Frozen(maxDuration: real, duration: real)
  {
    maxDuration - duration > 0.01
  }

  /** The longest video is never marked, so with at least one video and no
      negative durations some cell is unmarked. */
  lemma SomeCellUnmarked(ds: seq<real>)
    requires |ds| >= 1
    requires forall k :: 0 <= k < |ds| ==> ds[k] >= 0.0
    ensures exists k :: 0 <= k < |ds| && !Frozen(MaxDuration(ds), ds[k])
  {
    MaxDurationBounds(ds);
    if MaxDuration(ds) == 0.0 {
      assert !Frozen(MaxDuration(ds), ds[0]);
    }
  }

  // ---------------------------------------------------------------------
  // Per-cell filter chains

  /** The label text of a cell: the label, with ` ✓` appended when frozen. */
  function CellLabel(tag: string, frozen: bool): string
  {
    if frozen then tag + " \U{2713}" else tag
  }

  /** The label always leads the cell text, and the text differs from the
      label exactly when the cell is frozen. */
  lemma CellLabelMarksFrozen(tag: string, frozen: bool)
    ensures StartsWith(CellLabel(tag, frozen), tag)
    ensures CellLabel(tag, frozen) == tag <==> !frozen
  {
    if frozen {
      assert |CellLabel(tag, frozen)| == |tag| + 2;
    }
  }

  /** The `,drawtext=...` stage of a cell, or nothing when labels are off. */
  function LabelClause(showLabels: bool, style: LabelStyle, text: string): string
  {
    if showLabels then "," + Drawtext(style, text) else ""
  }

  /** The printed forms of a cell's floating-point timing values: its frame
      rate, the trim end (`:.6f`) and the freeze length (`:.3f` when frozen,
      `:.6f` otherwise). */
  datatype Timing = Timing(fps: string, trimEnd: string, stopDuration: string)

  /** `fps=..,scale=W:-1,pad=W:H:0:P:black,trim=0:..,setpts=..,tpad=..,setpts=..`:
      the part of a cell chain between its input and its label stage. */
  function ChainBody(t: Timing, cellWidth: int, cellHeight: int, padding: int): string
  {
    "fps=" + t.fps
      + ",scale=" + IntStr(cellWidth) + ":-1,pad=" + IntStr(cellWidth) + ":" + IntStr(cellHeight)
      + ":0:" + IntStr(padding) + ":black,trim=0:" + t.trimEnd
      + ",setpts=PTS-STARTPTS,tpad=stop_mode=clone:stop_duration=" + t.stopDuration
      + ",setpts=PTS-STARTPTS"
  }

  /** `[i:v]<body><label stage>[vi]`. */
  function CellChain(i: nat, body: string, labelClause: string): string
  {
    Input(i) + body + labelClause + Ref(i)
  }

  /** `[i:v]`, the video stream of input file `i`. */
  function Input(i: nat): string
  {
    "[" + NatStr(i) + ":v]"
  }

  /** Everything a cell chain depends on besides its index and video. */
  datatype CellSettings = CellSettings(
    cellWidth: int, cellHeight: int, padding: int, showLabels: bool, style: LabelStyle)

  /** The chain of cell `i` for a video labelled `tag`, of length
      `duration`, in a grid whose longest video lasts `maxDuration`. */
  function Chain(i: nat, tag: string, duration: real, maxDuration: real, t: Timing,
                 cs: CellSettings): string
  {
    CellChain(i, ChainBody(t, cs.cellWidth, cs.cellHeight, cs.padding),
              LabelClause(cs.showLabels, cs.style, CellLabel(tag, Frozen(maxDuration, duration))))
  }

  /** Chain `i` reads video input `i` and writes `[vi]`, the name the
      reference list and the xstack stage expect for cell `i`. */
  lemma ChainWiring(i: nat, body: string, labelClause: string)
    ensures StartsWith(CellChain(i, body, labelClause), Input(i))
    ensures EndsWith(CellChain(i, body, labelClause), Ref(i))
  {
    var c := CellChain(i, body, labelClause);
    StartsWithConcat(Input(i) + body + labelClause, Ref(i));
    StartsWithConcat(Input(i) + body, labelClause);
    StartsWithConcat(Input(i), body);
    StartsWithTransitive(c, Input(i) + body + labelClause, Input(i) + body);
    StartsWithTransitive(c, Input(i) + body, Input(i));
    EndsWithConcat(Input(i) + body + labelClause, Ref(i));
  }

  /** With labels on, the cell text sits quoted right after the chain's
      `,drawtext=text=` and reads back as the text. */
  lemma ChainLabelReadsBack(i: nat, body: string, style: LabelStyle, text: string)
    ensures var c := CellChain(i, body, LabelClause(true, style, text));
      var p := |Input(i) + body| + 15;
      && p + |Quote(text)| <= |c|
      && Unquote(c[p..p + |Quote(text)|], false) == text
  {
    var c := CellChain(i, body, LabelClause(true, style, text));
    var q := Quote(text);
    var d := Drawtext(style, text);
    var pre := Input(i) + body + "," + "drawtext=text=";
    assert |pre| == |Input(i) + body| + 15;
    assert c == Input(i) + body + ("," + d) + Ref(i);
    assert d == "drawtext=text=" + q + (Placement(style) + BoxParams(style));
    Regroup(Input(i) + body, ",", "drawtext=text=", q, Placement(style) + BoxParams(style), Ref(i));
    QuotedAt(pre, text, Placement(style) + BoxParams(style) + Ref(i));
  }

  /** `build_filter_chain`: one chain per video, joined with `; `. */
  method BuildFilterChain(labels: seq<string>, durations: seq<real>, maxDuration: real,
                          timings: seq<Timing>, cs: CellSettings)
    returns (filters: string)
    requires |durations| == |labels| && |timings| == |labels|
    ensures filters == Join(Chains(labels, durations, maxDuration, timings, cs), "; ")
  {
    var chainOf := CellChains(labels, durations, maxDuration, timings, cs);
    var parts: seq<string> := [];
    for i := 0 to |labels|
      invariant parts == Tabulate(chainOf, i)
    {
      var chain := BuildCellChain(i, labels[i], durations[i], maxDuration, timings[i], cs);
      assert chain == chainOf(i);
      parts := parts + [chain];
    }
    filters := Join(parts, "; ");
  }

  /** One pass of the loop in `build_filter_chain`: the label text, with
      the checkmark when the video is frozen, then its drawtext stage when
      labels are on, then the chain. */
  method BuildCellChain(i: nat, tag: string, duration: real, maxDuration: real, t: Timing,
                        cs: CellSettings)
    returns (chain: string)
    ensures chain == Chain(i, tag, duration, maxDuration, t, cs)
  {
    var text := tag;
    if Frozen(maxDuration, duration) {
      text := text + " \U{2713}";
    }
    var drawtext := "";
    if cs.showLabels {
      drawtext := "," + Drawtext(cs.style, text);
    }
    chain := CellChain(i, ChainBody(t, cs.cellWidth, cs.cellHeight, cs.padding), drawtext);
  }

  /** The chains of all cells, in video order. */
  function Chains(labels: seq<string>, durations: seq<real>, maxDuration: real,
                  timings: seq<Timing>, cs: CellSettings): seq<string>
    requires |durations| == |labels| && |timings| == |labels|
  {
    Tabulate(CellChains(labels, durations, maxDuration, timings, cs), |labels|)
  }

  /** The chain of the cell at each index (empty past the last video). */
  function CellChains(labels: seq<string>, durations: seq<real>, maxDuration: real,
                      timings: seq<Timing>, cs: CellSettings): nat -> string
    requires |durations| == |labels| && |timings| == |labels|
  {
    (k: nat) => if k < |labels| then Chain(k, labels[k], durations[k], maxDuration, timings[k], cs)
         else ""
  }

  // ---------------------------------------------------------------------
  // xstack stage and title

  /** `; <refs>xstack=layout=<layout>:inputs=<n>[outv];`. */
  function XstackHead(refs: string, layout: string, n: nat): string
  {
    "; " + refs + "xstack=layout=" + layout + ":inputs=" + NatStr(n) + "[outv];"
  }

  /** Rounds the stacked size down to even numbers. */
  const EvenScale := "[outv]scale='2*trunc(iw/2)':'2*trunc(ih/2)'"

  /** Pads a strip of `titlePadding` rows on top and opens the title text. */
  function TitleStrip(gridWidth: int, gridHeight: int, titlePadding: int): string
  {
    "[scaled];[scaled]pad=" + IntStr(gridWidth) + ":" + IntStr(gridHeight + titlePadding)
      + ":0:" + IntStr(titlePadding) + ":black[padded];[padded]drawtext=text="
  }

  /** Centres the title in the strip, in 36-point white Arial on a box. */
  function TitlePlacement(titlePadding: int): string
  {
    ":x=(w-tw)/2:y=(" + IntStr(titlePadding)
      + "-th)/2:font=Arial:fontcolor=white:fontsize=36:box=1:boxcolor="
  }

  const TitleBox := "black@0.7"

  /** Placement, box colour and the final output label of the title. */
  function TitleEnd(titlePadding: int): string
  {
    TitlePlacement(titlePadding) + (TitleBox + "[final]")
  }

  /** The stages after the cell chains: stack the cells, make the size even,
      and, when a title is shown and there is a common name, add the title
      strip with the quoted common name. */
  function XstackTail(refs: string, layout: string, n: nat, gridWidth: int, gridHeight: int,
                      titlePadding: int, showTitle: bool, commonName: string): string
  {
    if showTitle && commonName != "" then
      XstackHead(refs, layout, n) + EvenScale + TitleStrip(gridWidth, gridHeight, titlePadding)
        + Quote(commonName) + TitleEnd(titlePadding)
    else
      XstackHead(refs, layout, n) + EvenScale + "[final]"
  }

  /** The tail always stacks the referenced cells with the layout and ends
      in `[final]`; the title box closes it exactly when a title is shown
      and there is a common name. */
  lemma XstackTailShape(refs: string, layout: string, n: nat, gridWidth: int, gridHeight: int,
                        titlePadding: int, showTitle: bool, commonName: string)
    ensures var tail := XstackTail(refs, layout, n, gridWidth, gridHeight, titlePadding,
                                   showTitle, commonName);
      && StartsWith(tail, XstackHead(refs, layout, n) + EvenScale)
      && EndsWith(tail, "[final]")
      && (EndsWith(tail, TitleBox + "[final]") <==> showTitle && commonName != "")
  {
    var head := XstackHead(refs, layout, n) + EvenScale;
    var tail := XstackTail(refs, layout, n, gridWidth, gridHeight, titlePadding, showTitle, commonName);
    var close := TitleBox + "[final]";
    if showTitle && commonName != "" {
      var t := TitleStrip(gridWidth, gridHeight, titlePadding);
      var q := Quote(commonName);
      var e := TitleEnd(titlePadding);
      assert tail == head + t + q + e;
      StartsWithConcat(head + t + q, e);
      StartsWithConcat(head + t, q);
      StartsWithConcat(head, t);
      StartsWithTransitive(tail, head + t + q, head + t);
      StartsWithTransitive(tail, head + t, head);
      EndsWithConcat(head + t + q, e);
      EndsWithConcat(TitlePlacement(titlePadding), close);
      EndsWithTransitive(tail, e, close);
      EndsWithConcat(TitleBox, "[final]");
      EndsWithTransitive(tail, close, "[final]");
    } else {
      assert tail == head + "[final]";
      StartsWithConcat(head, "[final]");
      EndsWithConcat(head, "[final]");
      assert tail[|tail| - 8] == head[|head| - 1] == EvenScale[|EvenScale| - 1] == '\'';
      assert close[8] == '7';
    }
  }

  /** With a title, the quoted common name after `drawtext=text=` reads back
      as the common name. */
  lemma XstackTailTitleReadsBack(refs: string, layout: string, n: nat, gridWidth: int,
                                 gridHeight: int, titlePadding: int, commonName: string)
    requires commonName != ""
    ensures var tail := XstackTail(refs, layout, n, gridWidth, gridHeight, titlePadding,
                                   true, commonName);
      var p := |XstackHead(refs, layout, n) + EvenScale + TitleStrip(gridWidth, gridHeight, titlePadding)|;
      && p + |Quote(commonName)| <= |tail|
      && Unquote(tail[p..p + |Quote(commonName)|], false) == commonName
  {
    QuotedAt(XstackHead(refs, layout, n) + EvenScale + TitleStrip(gridWidth, gridHeight, titlePadding),
             commonName, TitleEnd(titlePadding));
  }

  // ---------------------------------------------------------------------
  // Output name

  /** `f"{common_name or 'output'}_GRID.mp4"`. */
  function DefaultOutput(commonName: string): string
  {
    (if commonName == "" then "output" else commonName) + "_GRID.mp4"
  }

  /** The default name is the common name (or `output`) followed by
      `_GRID.mp4`, and a later run never takes it for a numbered video. */
  lemma DefaultOutputFacts(commonName: string)
    ensures var out := DefaultOutput(commonName);
      && EndsWith(out, "_GRID.mp4")
      && out[..|out| - 9] == (if commonName == "" then "output" else commonName)
      && ParseName(out).None?
  {
    var out := DefaultOutput(commonName);
    var c := if commonName == "" then "output" else commonName;
    EndsWithConcat(c, "_GRID.mp4");
    assert out[..|out| - 9] == c;
    assert EndsWith(out, ".mp4");
    var core := c + "_GRID";
    assert out[..|out| - 4] == core;
    assert Core(out) == Some(core);
    assert TrailingDigits(core) == 0 by {
      assert core[|core| - 1] == 'D';
    }
  }

  // ---------------------------------------------------------------------
  // The composer

  /** Every video answered the duration probe. */
  predicate AllProbed(videos: seq<string>, probe: string -> Option<real>)
  {
    forall k :: 0 <= k < |videos| ==> probe(videos[k]).Some?
  }

  /** The probed durations, in video order. */
  function Durations(videos: seq<string>, probe: string -> Option<real>): (ds: seq<real>)
    requires AllProbed(videos, probe)
    ensures |ds| == |videos|
  {
    if videos == [] then []
    else Durations(videos[..|videos| - 1], probe) + [probe(videos[|videos| - 1]).value]
  }

  /** The metadata loop of `make_grid`: probes each video in order, stops
      with `None` at the first failure, and keeps the running maximum. */
  method ProbeDurations(videos: seq<string>, probe: string -> Option<real>)
    returns (durations: Option<seq<real>>, maxDuration: real)
    ensures durations.Some? <==> AllProbed(videos, probe)
    ensures durations.Some? ==>
      durations.value == Durations(videos, probe) && maxDuration == MaxDuration(durations.value)
  {
    var ds: seq<real> := [];
    maxDuration := 0.0;
    for i := 0 to |videos|
      invariant AllProbed(videos[..i], probe)
      invariant ds == Durations(videos[..i], probe)
      invariant maxDuration == MaxDuration(ds)
    {
      var m := probe(videos[i]);
      if m.None? {
        return None, maxDuration;
      }
      assert videos[..i + 1][..i] == videos[..i];
      assert (ds + [m.value])[..i] == ds;
      ds := ds + [m.value];
      if maxDuration < m.value {
        maxDuration := m.value;
      }
    }
    assert videos[..|videos|] == videos;
    return Some(ds), maxDuration;
  }

  /** The printed timing values of every cell for the longest duration. */
  function TimingsOf(videos: seq<string>, timing: (string, real) -> Timing, maxDuration: real)
    : (ts: seq<Timing>)
    ensures |ts| == |videos|
  {
    seq(|videos|, k requires 0 <= k < |videos| => timing(videos[k], maxDuration))
  }

  /** The whole `-filter_complex` graph for discovered videos `d` with
      durations `ds`: the cell chains followed by the xstack tail, over a
      grid of `Cols(n)` by `Rows(n, Cols(n))` cells. */
  function FilterGraph(d: Found, ds: seq<real>, timings: seq<Timing>, cs: CellSettings,
                       titlePadding: int, showTitle: bool): string
    requires |d.videos| >= 1 && |ds| == |d.labels| && |timings| == |d.labels|
  {
    var n := |d.videos|;
    var cols := Cols(n);
    var rows := Rows(n, cols);
    Join(Chains(d.labels, ds, MaxDuration(ds), timings, cs), "; ")
      + XstackTail(Refs(n), Join(Entries(n, cols, cs.cellWidth, cs.cellHeight), "|"), n,
                   cols * cs.cellWidth, rows * cs.cellHeight, titlePadding, showTitle, d.commonName)
  }

  /** The graph-building part of `make_grid`: cell size, grid size, the
      cell chains, the reference list, the layout and the xstack tail. */
  method BuildGraph(d: Found, durations: seq<real>, maxDuration: real, timings: seq<Timing>,
                    cs: CellSettings, titlePadding: int, showTitle: bool)
    returns (graph: string)
    requires |d.videos| >= 1 && |durations| == |d.labels| && |timings| == |d.labels|
    requires maxDuration == MaxDuration(durations)
    ensures graph == FilterGraph(d, durations, timings, cs, titlePadding, showTitle)
  {
    var n := |d.videos|;
    var cols := Cols(n);
    var rows := Rows(n, cols);
    var chains := BuildFilterChain(d.labels, durations, maxDuration, timings, cs);
    var refs := Refs(n);
    var layout := BuildXstackLayout(n, rows, cols, cs.cellWidth, cs.cellHeight);
    LayoutHasOneEntryPerVideo(n, cs.cellWidth, cs.cellHeight);
    var gridWidth := cols * cs.cellWidth;
    var gridHeight := rows * cs.cellHeight;
    graph := chains + XstackTail(refs, layout, n, gridWidth, gridHeight, titlePadding,
                                 showTitle, d.commonName);
  }

  /** The exit status of the composer once ffmpeg ran: its own code, or 1
      when it could not be started. */
  function RunCode(ffmpeg: Option<int>): int
  {
    match ffmpeg
    case Some(c) => c
    case None => 1
  }

  class VideoGridMaker {
    var showTitle: bool
    var titlePadding: int
    var maxWidth: int
    var outputFile: string
    var showLabels: bool
    var style: LabelStyle

    /** The defaults: title on with an 80-pixel strip, 640-pixel cells,
        labels on in the default style, output name chosen later. */
    constructor ()
      ensures showTitle && titlePadding == 80 && maxWidth == 640 && outputFile == ""
      ensures showLabels && style == DefaultStyle()
    {
      showTitle := true;
      titlePadding := 80;
      maxWidth := 640;
      outputFile := "";
      showLabels := true;
      style := DefaultStyle();
    }

    /** `make_grid`. `globbed` is the `*.mp4` glob result, `probe` the
        ffprobe duration of a video (None when probing fails), `timing` the
        printed timing values of a video for a given longest duration,
        `scaledHeight` and `padding` the first video's scaled height and
        padding rows, and `ffmpeg` the exit code of the ffmpeg run (None when
        it raised). Returns the exit code and the filter graph handed to
        ffmpeg (empty when ffmpeg is not run). */
    method MakeGrid(globbed: seq<string>, probe: string -> Option<real>,
                    timing: (string, real) -> Timing, scaledHeight: int, padding: int,
                    ffmpeg: Option<int>)
      returns (code: int, graph: string)
      modifies this`outputFile
      ensures globbed == [] ==> code == 1 && graph == "" && outputFile == old(outputFile)
      ensures globbed != [] && !AllProbed(SortStrings(globbed), probe) ==>
        code == 1 && graph == "" && outputFile == old(outputFile)
      ensures globbed != [] && AllProbed(SortStrings(globbed), probe) ==>
        var d := Discovered(globbed);
        var ds := Durations(d.videos, probe);
        && graph == FilterGraph(d, ds, TimingsOf(d.videos, timing, MaxDuration(ds)),
             CellSettings(maxWidth, scaledHeight + 2 * padding, padding, showLabels, style),
             titlePadding, showTitle)
        && outputFile == (if old(outputFile) == "" then DefaultOutput(d.commonName) else old(outputFile))
        && code == RunCode(ffmpeg)
    {
      var found := FindVideos(globbed);
      if found.None? {
        return 1, "";
      }
      var videos := found.value.videos;
      var n := |videos|;
      var probed, maxDuration := ProbeDurations(videos, probe);
      assert videos == Discovered(globbed).videos == SortStrings(globbed);
      if probed.None? {
        return 1, "";
      }
      var durations := probed.value;

      // The output name is settled here rather than after the graph is
      // built; nothing in between reads it.
      if outputFile == "" {
        outputFile := DefaultOutput(found.value.commonName);
      }
      var cs := CellSettings(maxWidth, scaledHeight + 2 * padding, padding, showLabels, style);
      var timings := TimingsOf(videos, timing, maxDuration);
      graph := BuildGraph(found.value, durations, maxDuration, timings, cs, titlePadding, showTitle);
      ghost var d := Discovered(globbed);
      ghost var ds := Durations(d.videos, probe);
      assert durations == ds && maxDuration == MaxDuration(ds);
      assert timings == TimingsOf(d.videos, timing, MaxDuration(ds));
      assert graph == FilterGraph(d, ds, TimingsOf(d.videos, timing, MaxDuration(ds)), cs,
                                  titlePadding, showTitle);
      code := RunCode(ffmpeg);
    }
  }
}
