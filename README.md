# Video grid and frame-GIF composers, modelled in Dafny

The repository has three command-line scripts built around ffmpeg.

- **Grid composer** (`make_video_grid.py`). It finds the numbered videos `<name>_<number>.mp4` of a directory and labels each with its number. It lays them out on a near-square grid, where each cell is scaled, padded and frozen on its last frames so that all cells end together. It can add a title strip showing the common name, and then it runs one ffmpeg command.
- **Frame-GIF composer** (`make_gif_of_frames.py`). It takes frame `N` of each video and labels the frame. It can add a title bar to each frame. It then joins the frames into a GIF through an ffmpeg concat manifest. The videos are either found by a glob pattern or listed explicitly, with optional captions.
- **Recursive driver** (`make_video_grid_recursive.py`). It walks a directory tree, skipping hidden directories. It runs the grid composer inside every subdirectory that holds `.mp4` files, restoring the working directory each time. It counts directories as processed, failed or skipped. It exits with status 1 when the start directory does not exist or when some directory failed, and with 0 otherwise.

The model covers the logic that the scripts themselves decide:

- which files are found and in what order;
- how file names are parsed into a base and a number, and which common name wins;
- grid arithmetic and the xstack layout;
- the text of every filter stage that embeds a label or title, with its quoting;
- frame file names, the concat manifest and the default output names;
- which ffmpeg calls the frame-GIF composer makes and in which order: every frame extraction with its arguments, and the titling and GIF-encoding steps by their outcomes;
- the filter text passed to every ffmpeg call that embeds a label or title, and the filter graph of the grid composer's ffmpeg call;
- the exit statuses;
- the directory walk, the tallies and the working-directory discipline of the driver.

Everything outside the scripts is an input to the model. This covers file-system queries, globbing, ffprobe answers and ffmpeg outcomes.

The files are:

- `Text.dfy`: digits, decimal and zero-padded rendering of integers, `str.join`.
- `Quoting.dfy`: the `'\''` quoting of embedded text and a reader for it.
- `Paths.dfy`: `os.path.join`, `basename`, and `Path.name` and `Path.stem` after pathlib drops empty and `.` components.
- `Sorting.dfy`: Python's `sorted` on strings.
- `Naming.dfy`: the file-name pattern and the common name.
- `Labels.dfy`: the shared label stage.
- `GridLayout.dfy`: columns, rows, layout and references.
- `VideoGrid.dfy`: the grid composer.
- `FrameGif.dfy`: the frame-GIF composer.
- `RecursiveGrid.dfy`: the recursive driver.

Objects whose methods update their own fields are classes: `VideoGridMaker`, `FrameGifMaker`, and `Driver`, which holds the process's working directory. Loops of the scripts are methods with loop invariants, each proved against a function that specifies it. Pure string and arithmetic logic consists of functions and lemmas.

The driver processes only proper subdirectories; the start directory itself never is (`RecursiveGrid.ListedInsideStart`). It changes into each listed subdirectory before it looks for videos, so a directory that cannot be entered counts as failed, not as skipped.

Both composers have their own copy of `find_videos`, and the model keeps the two apart on purpose (`LabelOf`, `LabelsOf`, `Discovered`, `DiscoveredFacts`, `FindVideos` and `LabelVideos` in `VideoGrid` and in `FrameGif`). They differ in one point: the frame-GIF composer matches the pattern against the file name after `os.path.basename`, while the grid composer matches the globbed name as it is.

## Model

| member | source | states |
|---|---|---|
| Text.NatStr | make_video_grid.py:199-201 | the decimal text of a natural number is non-empty, all digits, and has no leading zero unless it is `0` |
| Text.IntStr | make_video_grid.py:163 | the text of an integer is not empty, starts with `-` exactly when the integer is negative, and the rest is digits with no leading zero |
| Text.IntStrInjective | make_video_grid.py:163 | different integers are never written the same way |
| Text.IntStrNoChar | make_video_grid.py:199-201 | the text of an integer holds no character other than `-` and digits, so `_` and `\|` in the layout only ever separate numbers |
| Text.ZeroPadded | make_gif_of_frames.py:297 | `{i:04d}` gives digits only, padded with zeros to the width unless the number is longer |
| Text.NatStrRoundTrip | make_video_grid.py:199-201 | the decimal text written for a pixel offset reads back as that number |
| Text.ZeroPaddedRoundTrip | make_gif_of_frames.py:297 | the `{i:04d}` rendering of an index reads back as the index |
| Text.ZeroPaddedInjective | make_gif_of_frames.py:297 | different indices never share a `{i:04d}` rendering |
| Text.JoinSeparatorCount | make_video_grid.py:203 | joining k separator-free parts with a one-character separator puts exactly k - 1 separators in the result |
| Quoting.EscapeAppend | make_video_grid.py:160 | the escape works character by character: escaping a concatenation concatenates the escapes |
| Quoting.EscapeLength | make_video_grid.py:160 | the escape grows the text by three characters per single quote and changes nothing else |
| Quoting.EscapeIdentityIffNoQuote | make_video_grid.py:160 | the escape leaves a text unchanged if and only if it has no single quote |
| Quoting.UnquoteEscaped | make_video_grid.py:160-162 | reading an escaped run closed by a quote yields the original text, and reading continues unquoted after it |
| Quoting.QuoteRoundTrip | make_video_grid.py:159-162 | the quoted form of any label reads back as the label |
| Quoting.QuoteInjective | make_video_grid.py:159-162 | different labels never produce the same quoted form |
| Quoting.QuotedAt | make_video_grid.py:161-164 | quoted text embedded between any prefix and suffix reads back from its own position |
| Paths.Basename | make_gif_of_frames.py:91 | the basename has no `/`, ends the path, and is either the whole path or preceded by a `/`, so it is all the text after the last `/` |
| Paths.LastIndex | make_gif_of_frames.py:91 | the index found holds the character and no later position does, or it is -1 when there is none |
| Paths.PathJoinExtends | make_video_grid_recursive.py:21 | joining a relative, non-empty name keeps the directory as a prefix and gives a longer path |
| Paths.PathJoinInjective | make_gif_of_frames.py:297 | joining relative names onto the same directory gives the same path if and only if the names are equal |
| Paths.FinalName | make_video_grid.py:119 | the name `pathlib` sees has no `/` and is never `.`: empty and `.` components are dropped, and it is empty when nothing else is left |
| Paths.FinalNameIgnoresTrailing | make_gif_of_frames.py:105 | a trailing `/` or `/.` leaves the name unchanged, so `clips/` and `clips/.` both name `clips` |
| Paths.StemIgnoresTrailing | make_gif_of_frames.py:105 | the stem of a path is the same with or without a trailing `/` or `/.` |
| Paths.StemOfMp4Name | make_video_grid.py:119 | the stem of a bare `<x>.mp4` name is the name minus `.mp4` |
| Paths.StemOfMp4Path | make_gif_of_frames.py:105 | the stem of a path `dir/<x>.mp4` is `<x>` |
| Sorting.StrLeTotal | make_video_grid.py:93 | any two strings are ordered one way or the other |
| Sorting.StrLeTransitive | make_video_grid.py:93 | Python's string order is transitive |
| Sorting.StrLeAntisymmetric | make_video_grid.py:93 | strings ordered both ways are equal |
| Sorting.Insert | make_video_grid.py:93 | inserting into a sorted list keeps it sorted and adds exactly the new element |
| Sorting.SortStrings | make_video_grid.py:93 | `sorted` returns an ordered permutation of its input |
| Naming.TrailingDigits | make_video_grid.py:103 | the count is of digits that end the string and are preceded by a non-digit or by nothing |
| Naming.ParseNameSound | make_video_grid.py:103-109 | every parsed name is a genuine match: base, `_`, digits, `.mp4` (optional final newline) rebuild it |
| Naming.ParseNameComplete | make_video_grid.py:103-109 | every name the pattern accepts is parsed, with exactly its base and number |
| Naming.ParseNameIff | make_video_grid.py:103-109 | the parser returns given parts if and only if the pattern accepts the name with those parts |
| Naming.ParsedBasesNonEmpty | make_video_grid.py:103 | a matched base is never empty |
| Naming.FirstBaseEmptyIffNoMatch | make_video_grid.py:99-114 | the common name stays empty exactly when no file name matches |
| Naming.FirstBaseIsFirstMatch | make_video_grid.py:105-114 | a non-empty common name is the base of the first matching name, and no earlier name matched |
| Naming.FirstBaseStable | make_video_grid.py:111-114 | once set, the common name is not changed by any later names, whatever their base |
| Naming.FirstBaseExtend | make_video_grid.py:111-112 | while the common name is empty, the next name sets it to its base if it matches and leaves it empty otherwise |
| Naming.CommonNameStep | make_video_grid.py:111-114 | one loop step updates the common name only when it was empty and the name matches |
| Labels.DrawtextCarriesLabel | make_video_grid.py:149-164 | the label stage opens with `drawtext=text=`, the quoted label after it reads back as the label, and it ends with the box settings or the font size |
| GridLayout.Cols | make_video_grid.py:246 | the column count is the least c with c*c >= n |
| GridLayout.GridCovers | make_video_grid.py:246-247 | the grid has at least one column, holds all n videos, leaves fewer than one row of cells empty, and has no more rows than columns |
| GridLayout.CeilDiv | make_video_grid.py:247 | rows * cols is the least multiple of cols that is at least n |
| GridLayout.CellOfIndex | make_video_grid.py:195-197 | index r*cols + c belongs to row r and column c |
| GridLayout.EntriesIndex | make_video_grid.py:195-201 | layout entry k is the position text of cell k |
| GridLayout.BuildXstackLayout | make_video_grid.py:191-203 | the nested loop emits, in row-major order, the entries of the first min(n, rows*cols) cells joined by `\|` |
| GridLayout.LayoutHasOneEntryPerVideo | make_video_grid.py:245-259 | with the composer's rows and columns the layout has exactly n entries, so n - 1 separators |
| GridLayout.PositionsInsideGrid | make_video_grid.py:195-201 | every cell lies inside the cols*cell_width by rows*cell_height grid |
| GridLayout.PositionsDistinct | make_video_grid.py:197-200 | different cells get different pixel positions |
| GridLayout.EntriesDistinct | make_video_grid.py:197-201 | different cells get different layout entries |
| GridLayout.RefsNameEachVideoOnce | make_video_grid.py:256 | the reference list names one stream per video, matching `inputs=n` |
| GridLayout.RefsDistinct | make_video_grid.py:256 | different cells write to different stream labels |
| GridLayout.RefsSnoc | make_video_grid.py:256 | the reference list for n + 1 videos is the list for n followed by `[v<n>]` |
| GridLayout.RefsPrefix | make_video_grid.py:256 | the reference list for fewer videos opens the list for more |
| GridLayout.RefAt | make_video_grid.py:256 | `[v<i>]` sits in the reference list right after the references of videos 0 to i - 1, so stream i is xstack input i |
| VideoGrid.LabelOfCases | make_video_grid.py:105-119 | a matching name is labelled by its number, any other by its stem |
| VideoGrid.LabelsOfIndex | make_video_grid.py:105-119 | there is one label per video, in video order |
| VideoGrid.DiscoveredFacts | make_video_grid.py:91-121 | the videos are the sorted glob result with one label each; the common name is empty exactly when no name matches |
| VideoGrid.FindVideos | make_video_grid.py:91-97 | nothing found gives the not-found result, and otherwise the discovered videos, labels and common name |
| VideoGrid.LabelVideos | make_video_grid.py:99-121 | the loop yields the label of every video and the base of the first match as the common name |
| VideoGrid.MaxDurationBounds | make_video_grid.py:218-225 | the longest duration is at least 0 and every duration, and is 0 or one of them |
| VideoGrid.SomeCellUnmarked | make_video_grid.py:144-146 | with non-negative durations, the longest video never gets the freeze checkmark |
| VideoGrid.CellLabelMarksFrozen | make_video_grid.py:142-146 | the cell text starts with the label and differs from it exactly when the cell is frozen |
| VideoGrid.ChainWiring | make_video_grid.py:170-185 | chain i reads input stream i and writes `[vi]` |
| VideoGrid.ChainLabelReadsBack | make_video_grid.py:159-164 | the label of a labelled cell reads back from its place in the chain |
| VideoGrid.BuildCellChain | make_video_grid.py:128-187 | one loop pass builds the chain of its cell |
| VideoGrid.BuildFilterChain | make_video_grid.py:123-189 | the chains of all cells, in video order, joined with `; ` |
| VideoGrid.XstackTailShape | make_video_grid.py:265-282 | the tail stacks the cells with the layout and ends in `[final]`, and the title box closes it exactly when a title is shown and there is a common name |
| VideoGrid.XstackTailTitleReadsBack | make_video_grid.py:266-277 | the common name reads back from its place in the title stage |
| VideoGrid.DefaultOutputFacts | make_video_grid.py:285-286 | the default output is the common name (or `output`) followed by `_GRID.mp4`, and never matches the video pattern |
| VideoGrid.ProbeDurations | make_video_grid.py:217-225 | probing succeeds exactly when every video answers, and then gives the durations in order and their maximum |
| VideoGrid.BuildGraph | make_video_grid.py:236-282 | the filter graph is the cell chains followed by the xstack tail over the Cols(n) by Rows(n) grid |
| VideoGrid.VideoGridMaker.constructor | make_video_grid.py:20-39 | the default settings |
| VideoGrid.VideoGridMaker.MakeGrid | make_video_grid.py:205-327 | status 1 without videos or when a probe fails; otherwise the composed graph, the default output name when none was set, and ffmpeg's status |
| FrameGif.LabelOfCases | make_gif_of_frames.py:90-105 | a path whose file name matches is labelled by its number, any other by its stem |
| FrameGif.LabelsOfIndex | make_gif_of_frames.py:90-105 | there is one label per video, in video order |
| FrameGif.DiscoveredFacts | make_gif_of_frames.py:74-107 | the videos are the sorted glob result with one label each; the common name is empty exactly when no file name matches |
| FrameGif.FindVideos | make_gif_of_frames.py:74-82 | nothing found gives the not-found result, and otherwise the discovered videos, labels and common name |
| FrameGif.LabelVideos | make_gif_of_frames.py:84-107 | the loop labels every video and keeps the first matched base as the common name |
| FrameGif.DefaultCaptionsOfMp4Paths | make_gif_of_frames.py:262 | without captions, a listed video `dir/<x>.mp4` is captioned `<x>` |
| FrameGif.SelectFacts | make_gif_of_frames.py:247-273 | listed videos are rejected exactly when one is missing or the caption count differs, and otherwise used as given; the glob route fails exactly when nothing is found; a custom title is the common name |
| FrameGif.SelectInputs | make_gif_of_frames.py:247-273 | the input checks give the selection above, with one label per video and at least one video |
| FrameGif.FilterStringCases | make_gif_of_frames.py:113-129 | the filter is the select and scale stages, plus the label stage when labels are on and the text is not empty |
| FrameGif.FilterStringShape | make_gif_of_frames.py:113-129 | the filter always starts with select and scale, and gains a label stage exactly when labels are on and the text is not empty |
| FrameGif.FilterLabelReadsBack | make_gif_of_frames.py:117-129 | the label reads back from its place in the filter |
| FrameGif.TitleFilterReadsBack | make_gif_of_frames.py:153-161 | the title reads back from its place in the title filter |
| FrameGif.FrameNamesDistinct | make_gif_of_frames.py:297-308 | frame names and titled names are each distinct per index, and a frame name is never a titled name |
| FrameGif.FramePathsDistinct | make_gif_of_frames.py:297-308 | no two images of the loop share a file in the temporary directory |
| FrameGif.FramesIndex | make_gif_of_frames.py:290-314 | entry i of the frame list is frame i's own image |
| FrameGif.FrameOfCases | make_gif_of_frames.py:306-314 | a frame contributes its titled image exactly when a title is shown and titling succeeds, and its plain image otherwise |
| FrameGif.FailFromFacts | make_gif_of_frames.py:292-304 | every extraction before the first failure succeeds, and the first failure fails |
| FrameGif.ExtractAll | make_gif_of_frames.py:288-316 | the loop stops right after the first failed extraction, and otherwise makes every extraction and lists every frame in order |
| FrameGif.TitleFrame | make_gif_of_frames.py:306-314 | one titling step picks the frame's image |
| FrameGif.WriteManifest | make_gif_of_frames.py:181-189 | the manifest written is a file/duration pair per frame, then the last frame again |
| FrameGif.ManifestShape | make_gif_of_frames.py:184-189 | k frames give 2k + 1 lines (none for no frames): line 2j names frame j, line 2j + 1 its duration, and the last line the last frame |
| FrameGif.FileLineReadsBack | make_gif_of_frames.py:185 | a `file` line reads back as its path |
| FrameGif.PairsList | make_gif_of_frames.py:184-186 | the pairs list each frame once, in order |
| FrameGif.ManifestListsFrames | make_gif_of_frames.py:184-189 | read back, the manifest plays every frame in order and then the last frame once more |
| FrameGif.CreateGifFromFrames | make_gif_of_frames.py:177-243 | success is the palette route when the palette was made and the direct route otherwise |
| FrameGif.DefaultOutputFacts | make_gif_of_frames.py:319-321 | the default GIF name starts with the common name (or `output`) and `_frame`, ends with `.gif`, and the frame number, negative ones included, reads back from between them |
| FrameGif.DefaultOutputInjective | make_gif_of_frames.py:319-321 | different frame numbers give different default GIF names |
| FrameGif.FrameGifMaker.constructor | make_gif_of_frames.py:20-50 | the default settings |
| FrameGif.FrameGifMaker.Produce | make_gif_of_frames.py:288-334 | the first failed extraction gives status 1 with nothing else done; otherwise all frames are listed, the default name is filled in, and the status is the GIF's |
| FrameGif.FrameGifMaker.MakeGif | make_gif_of_frames.py:245-334 | status 1 when the inputs are rejected or the width probe fails; otherwise the frame loop with the width capped at max_width |
| RecursiveGrid.VisibleNames | make_video_grid_recursive.py:19 | pruning keeps exactly the names that do not start with `.` |
| RecursiveGrid.Visible | make_video_grid_recursive.py:19 | the walk descends into exactly the subdirectories whose names do not start with `.` |
| RecursiveGrid.VisibleNamesOf | make_video_grid_recursive.py:19-21 | pruning the listed names is pruning the subdirectories the walk visits |
| RecursiveGrid.AppendChildren | make_video_grid_recursive.py:19-21 | the inner loop appends each kept name joined onto its directory |
| RecursiveGrid.FindSubdirectories | make_video_grid_recursive.py:14-22 | the result is the sorted list of every path the pruned walk appends |
| RecursiveGrid.WalkListsDescendants | make_video_grid_recursive.py:17-21 | the walk lists the same directories, equally often, as a depth-first enumeration of the visible tree |
| RecursiveGrid.DescendantsSound | make_video_grid_recursive.py:17-21 | every enumerated directory ends a non-empty path of visible subdirectories |
| RecursiveGrid.DescendantsComplete | make_video_grid_recursive.py:17-21 | every non-empty path of visible subdirectories is enumerated |
| RecursiveGrid.SubdirectoriesExactly | make_video_grid_recursive.py:14-22 | a path is returned if and only if it ends a non-empty path of visible subdirectories, so nothing below a hidden directory is returned |
| RecursiveGrid.ListedInsideStart | make_video_grid_recursive.py:17-22 | every returned path lies strictly inside the start directory; the start directory itself is never returned |
| RecursiveGrid.OutcomeCases | make_video_grid_recursive.py:35-66 | skipped exactly when the directory has no `.mp4` file; processed exactly when the composer exits with 0; failed when entering fails or the composer fails or cannot start |
| RecursiveGrid.TallyOfFacts | make_video_grid_recursive.py:112-125 | the three counters sum to the number of directories, and no failure is counted exactly when none occurred |
| RecursiveGrid.ExitCodeMeaning | make_video_grid_recursive.py:135 | the exit status is 0 exactly when no directory failed |
| RecursiveGrid.Driver.ProcessDirectory | make_video_grid_recursive.py:31-69 | the working directory is restored on every path, and the outcome is that of the directory entered |
| RecursiveGrid.Driver.CountDirectory | make_video_grid_recursive.py:118-125 | one pass processes the directory from the unchanged working directory and raises exactly the counter of its outcome |
| RecursiveGrid.Driver.ProcessAll | make_video_grid_recursive.py:112-125 | the counters tally the outcomes of every directory in order, and the working directory is unchanged |
| RecursiveGrid.Driver.Run | make_video_grid_recursive.py:95-135 | status 1 when the start is not a directory; otherwise the tallies of every listed subdirectory, each run with `python3 <script dir>/make_video_grid.py` and the pass-through options, the exit status from them, and the working directory unchanged |

## Left out

- ffprobe and ffmpeg are not run. Their answers are inputs of the model: durations, widths, exit statuses, or `None` when a call raised.
- `glob.glob`, `os.path.exists`, `os.path.isdir`, the `.mp4` check of a directory and the directory tree given to `os.walk` are inputs as well. Symbolic links, permission errors and changes to the disk during the walk are not modelled.
- `os.walk` is modelled by the sequence of directories it yields when the caller prunes each listing before the walk descends. This is the protocol the driver relies on; the generator itself is not modelled.
- Floating-point work is left to inputs. This covers the frame rate, trim and freeze lengths and their `:.6f`/`:.3f` text, and the scaled height and padding of the grid cells. The freeze test `pad_duration > 0.01` and the maximum of the durations are modelled on exact reals.
- `math.ceil(math.sqrt(n))` is modelled by its integer meaning, the least c with c*c >= n. Floating-point rounding of the square root is not modelled.
- Printing, `argparse`, `FFMPEG_VERBOSE` and the ffmpeg log level are left out.
- Temporary files and directories, and their removal, are left out. The temporary directory is a parameter, and the concat manifest is returned as its lines rather than written to disk.
- The ffmpeg command lines are not built in full. Each frame extraction is recorded by its arguments (video, frame number, output path, width, label), and the filter text it passes is a function of those arguments. A titling call is the argument of the titling outcome and is not returned.
- FrameGif.CreateGifFromFrames: the palette, encoding and fallback ffmpeg calls are three outcomes given as inputs. Their arguments are not modelled: the concat manifest's path, the palette path, the `palettegen`/`paletteuse` filters, `-loop 0` and the output path. Only the manifest's lines are.
- VideoGrid.VideoGridMaker.MakeGrid: the final ffmpeg call is an outcome given as input. Only its filter graph and the output name are modelled, not the `-i` inputs, `-map [final]`, the encoder options or the log level.
- RecursiveGrid.Driver.Run: the grid command is built once and passed to every directory. The script builds the same list inside each `process_directory` call, from the same script directory and options.
- FrameGif.LabelOf and VideoGrid.LabelOf: `label_format % label` (make_gif_of_frames.py:294, make_video_grid.py:142) is taken with the default format `%s`, so the label text is the label itself. Other format strings are not modelled.
- Naming.ParseName: `\d` is read as an ASCII digit. Python's `re` also accepts other Unicode decimal digits.
- Paths.PathJoin: paths are joined as text and never normalised. `..`, `//` and trailing separators are kept as written.
- FrameGif.FileLine: frame paths are written into the manifest without escaping, as the script does. A temporary directory whose name holds a single quote would break the manifest; the model only reads back lines it wrote itself.
- VideoGrid.VideoGridMaker.MakeGrid: the default output name is set before the filter graph is built, not after. Building the graph does not read the output name, so the resulting state and return values are the same.
- FrameGif.Basenames: its contract states only the length of the result. Each file name is related to its path where it is used, in FrameGif.DiscoveredFacts.
- The `(None, None, None)` result of `find_videos` is modelled as `None`, and an unset user option (`None`) as an empty string or list. Python treats both the same way in these scripts.
