/** Grid arithmetic of the grid composer: the column and row counts, the
    xstack layout string that places cell `k` at
    `(column * cell_width, row * cell_height)` in row-major order, and the
    `[v0][v1]...` reference list that feeds the xstack stage. */
module GridLayout {
  import opened Text

  /** `math.ceil(math.sqrt(n))` by its integer meaning: the least `c` with
      `c * c >= n`. */
  function Cols(n: nat): (c: nat)
    ensures c * c >= n
    ensures c == 0 || (c - 1) * (c - 1) < n
  {
    ColsFrom(n, 0)
  }

  /** Searches upwards from `c`, every smaller count having been too small. */
  function ColsFrom(n: nat, c: nat): (r: nat)
    requires c == 0 || (c - 1) * (c - 1) < n
    ensures r >= c && r * r >= n
    ensures r == 0 || (r - 1) * (r - 1) < n
    decreases n - c
  {
    if c * c >= n then c
    else
      assert c <= c * c;
      ColsFrom(n, c + 1)
  }

  /** `math.ceil(n / cols)`. */
  function Rows(n: nat, cols: nat): nat
    requires cols >= 1
  {
    (n + cols - 1) / cols
  }

  /** `rows * cols` cells hold all `n` videos, and fewer than `cols` of them
      stay empty, so only the last row can have empty cells; and the grid is
      never taller than it is wide. */
  lemma GridCovers(n: nat)
    requires n >= 1
    ensures Cols(n) >= 1
    ensures Rows(n, Cols(n)) * Cols(n) >= n
    ensures Rows(n, Cols(n)) * Cols(n) - n < Cols(n)
    ensures 1 <= Rows(n, Cols(n)) <= Cols(n)
  {
    var c := Cols(n);
    var r := Rows(n, c);
    CeilDiv(n, c);
    if r > c {
      MulLe(c + 1, r, c);
    }
  }

  /** `ceil(n / c) * c` is the least multiple of `c` that is at least `n`. */
  lemma CeilDiv(n: nat, c: nat)
    requires c >= 1
    ensures Rows(n, c) * c >= n && Rows(n, c) * c < n + c
  {
    var q := n + c - 1;
    assert q == (q / c) * c + q % c;
  }

  lemma MulLe(a: nat, b: nat, m: nat)
    requires a <= b
    ensures a * m <= b * m
  {
    assert b * m == a * m + (b - a) * m;
  }

  /** Column and row of the cell with index `k`. */
  lemma CellOfIndex(r: nat, c: nat, cols: nat)
    requires c < cols
    ensures (r * cols + c) / cols == r && (r * cols + c) % cols == c
  {
    var k := r * cols + c;
    assert k == (k / cols) * cols + k % cols;
    if k / cols > r {
      MulLe(r + 1, k / cols, cols);
    }
    if k / cols < r {
      MulLe(k / cols + 1, r, cols);
    }
  }

  /** Pixel position of cell `k`: column times cell width, row times cell height. */
  function Position(k: nat, cols: nat, cellWidth: int, cellHeight: int): (int, int)
    requires cols >= 1
  {
    ((k % cols) * cellWidth, (k / cols) * cellHeight)
  }

  /** One layout entry, `f"{x}_{y}"`. */
  function Entry(k: nat, cols: nat, cellWidth: int, cellHeight: int): string
    requires cols >= 1
  {
    var (x, y) := Position(k, cols, cellWidth, cellHeight);
    IntStr(x) + "_" + IntStr(y)
  }

  /** Entries for cells `0 .. m - 1`. */
  function Entries(m: nat, cols: nat, cellWidth: int, cellHeight: int): (es: seq<string>)
    requires cols >= 1
    ensures |es| == m
  {
    Tabulate(k => Entry(k, cols, cellWidth, cellHeight), m)
  }

  lemma EntriesStep(m: nat, cols: nat, cellWidth: int, cellHeight: int)
    requires cols >= 1
    ensures Entries(m + 1, cols, cellWidth, cellHeight)
      == Entries(m, cols, cellWidth, cellHeight) + [Entry(m, cols, cellWidth, cellHeight)]
  {
  }

  /** Entry `k` of the list is the entry of cell `k`. */
  lemma EntriesIndex(m: nat, cols: nat, cellWidth: int, cellHeight: int)
    requires cols >= 1
    ensures forall k :: 0 <= k < m ==>
      Entries(m, cols, cellWidth, cellHeight)[k] == Entry(k, cols, cellWidth, cellHeight)
  {
    TabulateIndex(k => Entry(k, cols, cellWidth, cellHeight), m);
  }

  function Min(a: nat, b: nat): nat {
    if a < b then a else b
  }

  /** `build_xstack_layout`: walks the `rows x cols` grid row by row, emits an
      entry for every index below `n`, and joins the entries with `|`. */
  method BuildXstackLayout(n: nat, rows: nat, cols: nat, cellWidth: int, cellHeight: int)
    returns (layout: string)
    ensures cols >= 1 ==> layout == Join(Entries(Min(n, rows * cols), cols, cellWidth, cellHeight), "|")
    ensures cols == 0 ==> layout == ""
  {
    var parts: seq<string> := [];
    ghost var visited := 0;
    var r := 0;
    while r < rows
      invariant 0 <= r <= rows
      invariant visited == r * cols
      invariant cols >= 1 ==> parts == Entries(Min(n, visited), cols, cellWidth, cellHeight)
      invariant cols == 0 ==> parts == []
    {
      var c := 0;
      while c < cols
        invariant 0 <= c <= cols
        invariant visited == r * cols + c
        invariant cols >= 1 ==> parts == Entries(Min(n, visited), cols, cellWidth, cellHeight)
        invariant cols == 0 ==> parts == []
      {
        var idx := r * cols + c;
        if idx < n {
          var x := c * cellWidth;
          var y := r * cellHeight;
          CellOfIndex(r, c, cols);
          assert IntStr(x) + "_" + IntStr(y) == Entry(idx, cols, cellWidth, cellHeight);
          EntriesStep(idx, cols, cellWidth, cellHeight);
          parts := parts + [IntStr(x) + "_" + IntStr(y)];
        }
        c := c + 1;
        visited := visited + 1;
      }
      assert (r + 1) * cols == r * cols + cols;
      r := r + 1;
    }
    layout := Join(parts, "|");
  }

  /** With the composer's own column and row counts, the layout has exactly
      `n` entries, so exactly `n - 1` separators. */
  lemma LayoutHasOneEntryPerVideo(n: nat, cellWidth: int, cellHeight: int)
    requires n >= 1
    ensures Min(n, Rows(n, Cols(n)) * Cols(n)) == n
    ensures Count('|', Join(Entries(n, Cols(n), cellWidth, cellHeight), "|")) == n - 1
  {
    GridCovers(n);
    var es := Entries(n, Cols(n), cellWidth, cellHeight);
    EntriesIndex(n, Cols(n), cellWidth, cellHeight);
    forall k | 0 <= k < n ensures NoChar('|', es[k]) {
      var (x, y) := Position(k, Cols(n), cellWidth, cellHeight);
      assert es[k] == IntStr(x) + "_" + IntStr(y);
    }
    JoinSeparatorCount(es, '|');
  }

  /** Every cell of the layout lies inside the `cols * cell_width` by
      `rows * cell_height` grid. */
  lemma PositionsInsideGrid(n: nat, k: nat, cellWidth: nat, cellHeight: nat)
    requires n >= 1 && k < n
    ensures var (x, y) := Position(k, Cols(n), cellWidth, cellHeight);
      && 0 <= x && x + cellWidth <= Cols(n) * cellWidth
      && 0 <= y && y + cellHeight <= Rows(n, Cols(n)) * cellHeight
  {
    GridCovers(n);
    ColumnInside(k, Cols(n), cellWidth);
    RowInside(k, Cols(n), Rows(n, Cols(n)), cellHeight);
  }

  lemma ColumnInside(k: nat, c: nat, w: nat)
    requires c >= 1
    ensures 0 <= (k % c) * w && (k % c) * w + w <= c * w
  {
    MulLe(k % c + 1, c, w);
    assert (k % c + 1) * w == (k % c) * w + w;
  }

  lemma RowInside(k: nat, c: nat, r: nat, h: nat)
    requires c >= 1 && k < r * c
    ensures 0 <= (k / c) * h && (k / c) * h + h <= r * h
  {
    var row := k / c;
    assert k == row * c + k % c;
    if row >= r {
      MulLe(r, row, c);
    }
    MulLe(row + 1, r, h);
    assert (row + 1) * h == row * h + h;
  }

  /** Different cells get different positions when cells have a size. */
  lemma PositionsDistinct(cols: nat, j: nat, k: nat, cellWidth: int, cellHeight: int)
    requires cols >= 1 && cellWidth > 0 && cellHeight > 0 && j != k
    ensures Position(j, cols, cellWidth, cellHeight) != Position(k, cols, cellWidth, cellHeight)
  {
    assert j == (j / cols) * cols + j % cols;
    assert k == (k / cols) * cols + k % cols;
    if (j % cols) * cellWidth == (k % cols) * cellWidth {
      MulCancel(j % cols, k % cols, cellWidth);
      if (j / cols) * cellHeight == (k / cols) * cellHeight {
        MulCancel(j / cols, k / cols, cellHeight);
        assert false;
      }
    }
  }

  lemma MulCancel(a: int, b: int, m: int)
    requires m > 0 && a * m == b * m
    ensures a == b
  {
    assert (a - b) * m == a * m - b * m;
  }

  /** `a_b == c_d` with no `_` in `a` or `c` forces `a == c` and `b == d`. */
  lemma SplitAtFirstUnderscore(a: string, b: string, c: string, d: string)
    requires NoChar('_', a) && NoChar('_', c)
    requires a + "_" + b == c + "_" + d
    ensures a == c && b == d
  {
    var s := a + "_" + b;
    FirstIndexAfterFree('_', a, b);
    FirstIndexAfterFree('_', c, d);
    assert a == s[..|a|] && c == s[..|c|];
    assert b == s[|a| + 1..] && d == s[|c| + 1..];
  }

  /** Layout entries of different cells are different strings, so no two
      videos are stacked on the same spot. */
  lemma EntriesDistinct(cols: nat, j: nat, k: nat, cellWidth: int, cellHeight: int)
    requires cols >= 1 && cellWidth > 0 && cellHeight > 0 && j != k
    ensures Entry(j, cols, cellWidth, cellHeight) != Entry(k, cols, cellWidth, cellHeight)
  {
    var (xj, yj) := Position(j, cols, cellWidth, cellHeight);
    var (xk, yk) := Position(k, cols, cellWidth, cellHeight);
    PositionsDistinct(cols, j, k, cellWidth, cellHeight);
    if Entry(j, cols, cellWidth, cellHeight) == Entry(k, cols, cellWidth, cellHeight) {
      IntStrNoChar(xj, '_');
      IntStrNoChar(xk, '_');
      SplitAtFirstUnderscore(IntStr(xj), IntStr(yj), IntStr(xk), IntStr(yk));
      IntStrInjective(xj, xk);
      IntStrInjective(yj, yk);
      assert false;
    }
  }

  /** `f"[v{i}]"`: the label the filter chain of cell `i` writes to. */
  function Ref(i: nat): string
  {
    "[v" + NatStr(i) + "]"
  }

  /** `"".join([f"[v{i}]" for i in range(n)])`. */
  function Refs(n: nat): string
  {
    Concat(seq(n, i requires 0 <= i < n => Ref(i)))
  }

  lemma {:induction false} CountConcat(c: char, parts: seq<string>)
    requires forall i :: 0 <= i < |parts| ==> Count(c, parts[i]) == 1
    ensures Count(c, Concat(parts)) == |parts|
    decreases |parts|
  {
    if parts != [] {
      CountConcat(c, parts[1..]);
      CountAppend(c, parts[0], Concat(parts[1..]));
    }
  }

  /** The reference list opens exactly one `[` per video: `inputs=n` matches it. */
  lemma RefsNameEachVideoOnce(n: nat)
    ensures Count('[', Refs(n)) == n
  {
    var rs := seq(n, i requires 0 <= i < n => Ref(i));
    forall i | 0 <= i < n ensures Count('[', rs[i]) == 1 {
      var d := NatStr(i);
      CountNone('[', d);
      CountAppend('[', "[v" + d, "]");
      CountAppend('[', "[v", d);
    }
    CountConcat('[', rs);
  }

  lemma {:induction false} ConcatSnoc(parts: seq<string>, last: string)
    ensures Concat(parts + [last]) == Concat(parts) + last
    decreases |parts|
  {
    if parts != [] {
      assert (parts + [last])[1..] == parts[1..] + [last];
      ConcatSnoc(parts[1..], last);
    }
  }

  /** The references are laid down one video after another: the list for
      `n + 1` videos is the list for `n` followed by `[v<n>]`. */
  lemma RefsSnoc(n: nat)
    ensures Refs(n + 1) == Refs(n) + Ref(n)
  {
    var rs := seq(n, i requires 0 <= i < n => Ref(i));
    assert seq(n + 1, i requires 0 <= i < n + 1 => Ref(i)) == rs + [Ref(n)];
    ConcatSnoc(rs, Ref(n));
  }

  /** The list for `i` videos opens the list for any `n >= i`. */
  lemma {:induction false} RefsPrefix(i: nat, n: nat)
    requires i <= n
    ensures StartsWith(Refs(n), Refs(i))
    decreases n
  {
    if i < n {
      RefsPrefix(i, n - 1);
      RefsSnoc(n - 1);
      StartsWithConcat(Refs(n - 1), Ref(n - 1));
      StartsWithTransitive(Refs(n), Refs(n - 1), Refs(i));
    }
  }

  /** Video `i` of `n` is referenced as `[v<i>]` right after the references of
      videos `0 .. i - 1`, so stream `i` feeds input `i` of xstack. */
  lemma RefAt(i: nat, n: nat)
    requires i < n
    ensures var at := |Refs(i)|;
      at + |Ref(i)| <= |Refs(n)| && Refs(n)[at..at + |Ref(i)|] == Ref(i)
  {
    RefsSnoc(i);
    RefsPrefix(i + 1, n);
    var at := |Refs(i)|;
    assert Refs(n)[..at + |Ref(i)|] == Refs(i + 1);
    assert Refs(i + 1)[at..] == Ref(i);
  }

  /** Distinct cells write to distinct labels. */
  lemma RefsDistinct(i: nat, j: nat)
    requires Ref(i) == Ref(j)
    ensures i == j
  {
    var a := NatStr(i);
    var b := NatStr(j);
    assert |a| == |b|;
    assert a == Ref(i)[2..|Ref(i)| - 1];
    assert b == Ref(j)[2..|Ref(j)| - 1];
    NatStrInjective(i, j);
  }
}
