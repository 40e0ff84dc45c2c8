/**
 The integer geometry of the graph layout in `toReactFlowElements`
 (src/utils/parsePlan.ts): fixed-size resource leaves packed two to a row
 inside a service box, service boxes packed on a grid inside a provider box,
 and provider boxes stacked top to bottom. Every position is relative to
 the parent box, as in the node list the function returns.
 */
module Geometry {
  import opened Collections

  const PADDING: nat := 16
  const NODE_WIDTH: nat := 220
  const NODE_HEIGHT: nat := 85
  const SERVICE_HEADER: nat := 30
  const PROVIDER_HEADER: nat := 40
  const RESOURCE_COLS: nat := 2
  const RATIO_X: nat := 2
  const RATIO_Y: nat := 1
  /** Vertical gap between two stacked provider boxes. */
  const PROVIDER_GAP: nat := 30

  /** A box: its position within its parent and its size. */
  datatype Box = Box(x: int, y: int, width: nat, height: nat)

  /** The size of a box, before it is placed. */
  datatype Size = Size(width: nat, height: nat)

  /** Two boxes are at least `gap` apart, horizontally or vertically. */
  predicate Apart(a: Box, b: Box, gap: nat) {
    || a.x + a.width + gap <= b.x
    || b.x + b.width + gap <= a.x
    || a.y + a.height + gap <= b.y
    || b.y + b.height + gap <= a.y
  }

  /**
   `Math.ceil(a / b)`, counted in whole steps of `b` so that unfolding it
   adds no division (CeilDivBounds states that it is the ceiling).
   */
  function CeilDiv(a: nat, b: nat): nat
    requires b > 0
  {
    if a == 0 then 0 else if a <= b then 1 else 1 + CeilDiv(a - b, b)
  }

  /** `CeilDiv(a, b)` is the least `q` with `q * b >= a`. */
  lemma {:induction false} CeilDivBounds(a: nat, b: nat)
    requires b > 0
    ensures CeilDiv(a, b) * b >= a
    ensures CeilDiv(a, b) == 0 || (CeilDiv(a, b) - 1) * b < a
    decreases a
  {
    if a > b {
      var q := CeilDiv(a - b, b);
      CeilDivBounds(a - b, b);
      assert (q + 1) * b == q * b + b;
      assert q * b == (q - 1) * b + b;
    }
  }

  /** An index lies in one of the first `CeilDiv(n, b)` rows of width `b`. */
  lemma RowBelowCeil(i: nat, n: nat, b: nat)
    requires i < n && b > 0
    ensures i / b < CeilDiv(n, b)
  {
    var q, c := i / b, CeilDiv(n, b);
    DivTimesBelow(i, b);
    CeilDivBounds(n, b);
    if c <= q {
      TimesMonotone(c, q, b);
    }
  }

  lemma DivTimesBelow(a: nat, b: nat)
    requires b > 0
    ensures (a / b) * b <= a
  {
    assert a == (a / b) * b + a % b;
  }

  lemma TimesMonotone(x: nat, y: nat, b: nat)
    requires x <= y
    ensures x * b <= y * b
  {
    assert y * b == x * b + (y - x) * b;
  }

  // ----- Resource leaves inside a service box -----

  /** Every service box has room for two leaves side by side. */
  const SERVICE_WIDTH: nat := RESOURCE_COLS * NODE_WIDTH + (RESOURCE_COLS + 1) * PADDING

  /** The height of a service box holding `k` resources. */
  function ServiceHeight(k: nat): nat {
    var rows := CeilDiv(k, RESOURCE_COLS);
    SERVICE_HEADER + rows * NODE_HEIGHT + (rows + 1) * PADDING
  }

  function ServiceSize(k: nat): Size {
    Size(SERVICE_WIDTH, ServiceHeight(k))
  }

  /** The box of the `i`-th resource of a service. */
  function LeafBox(i: nat): Box {
    var col := i % RESOURCE_COLS;
    var row := i / RESOURCE_COLS;
    Box(PADDING + col * (NODE_WIDTH + PADDING), SERVICE_HEADER + PADDING + row * (NODE_HEIGHT + PADDING),
        NODE_WIDTH, NODE_HEIGHT)
  }

  /** A service box is 488 wide and 46 + 101·⌈k/2⌉ tall. */
  lemma ServiceSizeValues(k: nat)
    ensures SERVICE_WIDTH == 488
    ensures ServiceHeight(k) == 46 + 101 * CeilDiv(k, 2)
  {
  }

  /**
   Each of the `k` leaves of a service lies inside the service box, below
   the header, with a margin of `PADDING` on every side.
   */
  lemma LeafInsideService(k: nat, i: nat)
    requires i < k
    ensures var b := LeafBox(i);
            && PADDING <= b.x && b.x + b.width + PADDING <= SERVICE_WIDTH
            && SERVICE_HEADER + PADDING <= b.y && b.y + b.height + PADDING <= ServiceHeight(k)
  {
    RowBelowCeil(i, k, RESOURCE_COLS);
  }

  /** Two leaves of the same service are at least `PADDING` apart. */
  lemma LeavesApart(i: nat, j: nat)
    requires i != j
    ensures Apart(LeafBox(i), LeafBox(j), PADDING)
  {
    if i / 2 == j / 2 {
      assert i % 2 != j % 2;
    }
  }

  // ----- The service grid inside a provider box -----

  /** The least `r >= c` with `r * r >= m`, searching upwards from `c`. */
  function CeilSqrtFrom(m: nat, c: nat): nat
    requires c <= m
    decreases m - c
  {
    if c * c >= m then c
    else
      assert c < m by {
        if c > 0 { assert c <= c * c; }
      }
      CeilSqrtFrom(m, c + 1)
  }

  /** `Math.ceil(Math.sqrt(m))`, exactly, for an integer `m`. */
  function CeilSqrt(m: nat): nat {
    CeilSqrtFrom(m, 0)
  }

  lemma {:induction false} CeilSqrtFromBounds(m: nat, c: nat)
    requires c <= m && (c == 0 || (c - 1) * (c - 1) < m)
    ensures var r := CeilSqrtFrom(m, c);
            r * r >= m && (r == 0 || (r - 1) * (r - 1) < m)
    decreases m - c
  {
    if c * c < m {
      assert c < m by {
        if c > 0 { assert c <= c * c; }
      }
      CeilSqrtFromBounds(m, c + 1);
    }
  }

  /** `CeilSqrt(m)` is the least `r` with `r * r >= m`. */
  lemma CeilSqrtBounds(m: nat)
    ensures CeilSqrt(m) * CeilSqrt(m) >= m
    ensures CeilSqrt(m) == 0 || (CeilSqrt(m) - 1) * (CeilSqrt(m) - 1) < m
  {
    CeilSqrtFromBounds(m, 0);
  }

  /** The number of grid columns for `n` services. */
  function Cols(n: nat): (cols: nat)
    ensures cols >= 1
  {
    var s := CeilSqrt(n * RATIO_X / RATIO_Y);
    if s < 1 then 1 else s
  }

  /** The number of grid rows for `n` services. */
  function Rows(n: nat): nat {
    CeilDiv(n, Cols(n))
  }

  /**
   The grid has the fewest columns whose square reaches 2n, and enough rows
   for every service.
   */
  lemma GridShape(n: nat)
    ensures Cols(n) >= 1 && Cols(n) * Cols(n) >= 2 * n
    ensures Cols(n) == 1 || (Cols(n) - 1) * (Cols(n) - 1) < 2 * n
    ensures Rows(n) * Cols(n) >= n && (Rows(n) == 0 || (Rows(n) - 1) * Cols(n) < n)
  {
    CeilSqrtBounds(2 * n);
    CeilDivBounds(n, Cols(n));
  }

  /** A single service gets a grid of two columns, the second one empty. */
  lemma OneServiceTwoColumns()
    ensures Cols(1) == 2 && Rows(1) == 1
  {
    assert CeilSqrt(2) == 2 by {
      assert CeilSqrtFrom(2, 2) == 2;
      assert CeilSqrtFrom(2, 1) == 2;
    }
  }

  /**
   The grid column and row of index `i`, counted by whole rows: `i % cols`
   and `i / cols` (GridCell), written without division so that unfolding the
   column and row maxima below adds no nonlinear arithmetic.
   */
  function ColOf(i: nat, cols: nat): nat
    requires cols > 0
  {
    if i < cols then i else ColOf(i - cols, cols)
  }

  function RowOf(i: nat, cols: nat): nat
    requires cols > 0
  {
    if i < cols then 0 else RowOf(i - cols, cols) + 1
  }

  lemma GridCell(i: nat, cols: nat)
    requires cols > 0
    ensures ColOf(i, cols) == i % cols && RowOf(i, cols) == i / cols
  {
    GridDecompose(i, cols);
    ColOfBelow(i, cols);
    DivModUnique(i, cols, RowOf(i, cols), ColOf(i, cols));
  }

  /** Every index is its row times the row width plus its column. */
  lemma {:induction false} GridDecompose(i: nat, cols: nat)
    requires cols > 0
    ensures i == RowOf(i, cols) * cols + ColOf(i, cols)
    decreases i
  {
    if i >= cols {
      GridDecompose(i - cols, cols);
      var r := RowOf(i - cols, cols);
      assert (r + 1) * cols == r * cols + cols;
    }
  }

  /** Quotient and remainder are the only ones with `a == q * b + m` and `m < b`. */
  lemma DivModUnique(a: nat, b: nat, q: nat, m: nat)
    requires b > 0 && m < b && a == q * b + m
    ensures a / b == q && a % b == m
  {
    var q2, m2 := a / b, a % b;
    assert a == q2 * b + m2;
    var d: int := q - q2;
    assert d * b == q * b - q2 * b;
    ProductSign(d, b);
  }

  /** A non-zero multiple of `b` is at least `b` away from zero. */
  lemma ProductSign(x: int, b: nat)
    ensures x >= 1 ==> x * b >= b
    ensures x <= -1 ==> x * b + b <= 0
  {
    if x >= 1 {
      assert x * b == (x - 1) * b + b;
    } else if x <= -1 {
      assert x * b + b == (x + 1) * b;
    }
  }

  /** The widest of the first `n` boxes in column `c` (0 when there is none). */
  function ColMax(sizes: seq<Size>, cols: nat, c: nat, n: nat): nat
    requires cols > 0 && n <= |sizes|
  {
    if n == 0 then 0
    else
      var w := ColMax(sizes, cols, c, n - 1);
      if ColOf(n - 1, cols) == c then Max(w, sizes[n - 1].width) else w
  }

  /** The tallest of the first `n` boxes in row `r` (0 when there is none). */
  function RowMax(sizes: seq<Size>, cols: nat, r: nat, n: nat): nat
    requires cols > 0 && n <= |sizes|
  {
    if n == 0 then 0
    else
      var h := RowMax(sizes, cols, r, n - 1);
      if RowOf(n - 1, cols) == r then Max(h, sizes[n - 1].height) else h
  }

  /** The column maximum is at least the width of every box of that column. */
  lemma {:induction false} ColMaxBound(sizes: seq<Size>, cols: nat, c: nat, n: nat, i: nat)
    requires cols > 0 && n <= |sizes| && i < n && ColOf(i, cols) == c
    ensures sizes[i].width <= ColMax(sizes, cols, c, n)
  {
    if i < n - 1 {
      ColMaxBound(sizes, cols, c, n - 1, i);
    }
  }

  /** The row maximum is at least the height of every box of that row. */
  lemma {:induction false} RowMaxBound(sizes: seq<Size>, cols: nat, r: nat, n: nat, i: nat)
    requires cols > 0 && n <= |sizes| && i < n && RowOf(i, cols) == r
    ensures sizes[i].height <= RowMax(sizes, cols, r, n)
  {
    if i < n - 1 {
      RowMaxBound(sizes, cols, r, n - 1, i);
    }
  }

  function ColWidth(sizes: seq<Size>, c: nat): nat {
    ColMax(sizes, Cols(|sizes|), c, |sizes|)
  }

  function RowHeight(sizes: seq<Size>, r: nat): nat {
    RowMax(sizes, Cols(|sizes|), r, |sizes|)
  }

  /** The left edge of grid column `c`: each column is as wide as its widest box, plus `PADDING`. */
  function ColPos(sizes: seq<Size>, c: nat): nat {
    if c == 0 then PADDING else ColPos(sizes, c - 1) + ColWidth(sizes, c - 1) + PADDING
  }

  /** The top edge of grid row `r`, below the provider header. */
  function RowPos(sizes: seq<Size>, r: nat): nat {
    if r == 0 then PROVIDER_HEADER + PADDING else RowPos(sizes, r - 1) + RowHeight(sizes, r - 1) + PADDING
  }

  /** The box of the `i`-th service of a provider whose services have sizes `sizes`. */
  function ServiceBox(sizes: seq<Size>, i: nat): Box
    requires i < |sizes|
  {
    var cols := Cols(|sizes|);
    Box(ColPos(sizes, ColOf(i, cols)), RowPos(sizes, RowOf(i, cols)), sizes[i].width, sizes[i].height)
  }

  /** The box of service `i` sits at its grid column and row. */
  lemma ServiceBoxAt(sizes: seq<Size>, i: nat, cols: nat, x: nat, y: nat)
    requires i < |sizes| && cols == Cols(|sizes|)
    requires x == ColPos(sizes, ColOf(i, cols)) && y == RowPos(sizes, RowOf(i, cols))
    ensures ServiceBox(sizes, i) == Box(x, y, sizes[i].width, sizes[i].height)
  {
  }

  function ProviderWidth(sizes: seq<Size>): nat {
    ColPos(sizes, Cols(|sizes|)) + PADDING
  }

  function ProviderHeight(sizes: seq<Size>): nat {
    RowPos(sizes, Rows(|sizes|)) + PADDING
  }

  /** A column ends, with its padding, no later than any later column starts. */
  lemma {:induction false} ColPosGrows(sizes: seq<Size>, c: nat, d: nat)
    requires c < d
    ensures ColPos(sizes, c) + ColWidth(sizes, c) + PADDING <= ColPos(sizes, d)
  {
    if c < d - 1 {
      ColPosGrows(sizes, c, d - 1);
    }
  }

  /** A row ends, with its padding, no later than any later row starts. */
  lemma {:induction false} RowPosGrows(sizes: seq<Size>, r: nat, s: nat)
    requires r < s
    ensures RowPos(sizes, r) + RowHeight(sizes, r) + PADDING <= RowPos(sizes, s)
  {
    if r < s - 1 {
      RowPosGrows(sizes, r, s - 1);
    }
  }

  /**
   Every service box lies inside its provider box, below the header, with a
   margin of at least `PADDING` on every side.
   */
  lemma ServiceInsideProvider(sizes: seq<Size>, i: nat)
    requires i < |sizes|
    ensures var b := ServiceBox(sizes, i);
            && PADDING <= b.x && b.x + b.width + PADDING <= ProviderWidth(sizes)
            && PROVIDER_HEADER + PADDING <= b.y && b.y + b.height + PADDING <= ProviderHeight(sizes)
  {
    var cols := Cols(|sizes|);
    var c, r := ColOf(i, cols), RowOf(i, cols);
    ColumnInsideProvider(sizes, c, i);
    RowOfBelow(i, |sizes|, cols);
    RowInsideProvider(sizes, r, i);
    ServiceBoxAt(sizes, i, cols, ColPos(sizes, c), RowPos(sizes, r));
  }

  lemma ColumnInsideProvider(sizes: seq<Size>, c: nat, i: nat)
    requires i < |sizes| && c == ColOf(i, Cols(|sizes|))
    ensures PADDING <= ColPos(sizes, c)
    ensures ColPos(sizes, c) + sizes[i].width + PADDING <= ProviderWidth(sizes)
  {
    var cols := Cols(|sizes|);
    ColMaxBound(sizes, cols, c, |sizes|, i);
    ColOfBelow(i, cols);
    if c > 0 {
      ColPosGrows(sizes, 0, c);
    }
    if c + 1 < cols {
      ColPosGrows(sizes, c + 1, cols);
    }
  }

  lemma RowInsideProvider(sizes: seq<Size>, r: nat, i: nat)
    requires i < |sizes| && r == RowOf(i, Cols(|sizes|)) && r < Rows(|sizes|)
    ensures PROVIDER_HEADER + PADDING <= RowPos(sizes, r)
    ensures RowPos(sizes, r) + sizes[i].height + PADDING <= ProviderHeight(sizes)
  {
    var rows := Rows(|sizes|);
    RowMaxBound(sizes, Cols(|sizes|), r, |sizes|, i);
    if r > 0 {
      RowPosGrows(sizes, 0, r);
    }
    if r + 1 < rows {
      RowPosGrows(sizes, r + 1, rows);
    }
  }

  /** Two service boxes of the same provider are at least `PADDING` apart. */
  lemma ServicesApart(sizes: seq<Size>, i: nat, j: nat)
    requires i < |sizes| && j < |sizes| && i != j
    ensures Apart(ServiceBox(sizes, i), ServiceBox(sizes, j), PADDING)
  {
    var cols := Cols(|sizes|);
    if ColOf(i, cols) < ColOf(j, cols) {
      ColumnGap(sizes, i, j);
    } else if ColOf(j, cols) < ColOf(i, cols) {
      ColumnGap(sizes, j, i);
    } else {
      SameColumnOtherRow(i, j, cols);
      if RowOf(i, cols) < RowOf(j, cols) {
        RowGap(sizes, i, j);
      } else {
        RowGap(sizes, j, i);
      }
    }
  }

  /** A box in an earlier column ends, with its padding, before a box of a later column starts. */
  lemma ColumnGap(sizes: seq<Size>, i: nat, j: nat)
    requires i < |sizes| && j < |sizes| && ColOf(i, Cols(|sizes|)) < ColOf(j, Cols(|sizes|))
    ensures ServiceBox(sizes, i).x + sizes[i].width + PADDING <= ServiceBox(sizes, j).x
  {
    var cols := Cols(|sizes|);
    var ci, cj := ColOf(i, cols), ColOf(j, cols);
    ColMaxBound(sizes, cols, ci, |sizes|, i);
    ColPosGrows(sizes, ci, cj);
  }

  /** A box in an earlier row ends, with its padding, before a box of a later row starts. */
  lemma RowGap(sizes: seq<Size>, i: nat, j: nat)
    requires i < |sizes| && j < |sizes| && RowOf(i, Cols(|sizes|)) < RowOf(j, Cols(|sizes|))
    ensures ServiceBox(sizes, i).y + sizes[i].height + PADDING <= ServiceBox(sizes, j).y
  {
    var cols := Cols(|sizes|);
    var ri, rj := RowOf(i, cols), RowOf(j, cols);
    RowMaxBound(sizes, cols, ri, |sizes|, i);
    RowPosGrows(sizes, ri, rj);
  }

  /** Two different indices in the same grid column are in different rows. */
  lemma SameColumnOtherRow(i: nat, j: nat, cols: nat)
    requires cols > 0 && i != j && ColOf(i, cols) == ColOf(j, cols)
    ensures RowOf(i, cols) != RowOf(j, cols)
  {
    GridDecompose(i, cols);
    GridDecompose(j, cols);
  }

  /** The column of an index is one of the `cols` columns. */
  lemma {:induction false} ColOfBelow(i: nat, cols: nat)
    requires cols > 0
    ensures ColOf(i, cols) < cols
    decreases i
  {
    if i >= cols {
      ColOfBelow(i - cols, cols);
    }
  }

  /** The row of one of `n` indices is one of the `CeilDiv(n, cols)` rows. */
  lemma RowOfBelow(i: nat, n: nat, cols: nat)
    requires cols > 0 && i < n
    ensures RowOf(i, cols) < CeilDiv(n, cols)
  {
    GridCell(i, cols);
    RowBelowCeil(i, n, cols);
  }

  /** The grid as the layout loop computes it. */
  datatype Grid = Grid(cols: nat, rows: nat, colPositions: seq<nat>, rowPositions: seq<nat>, width: nat, height: nat)

  /**
   The grid computation of `toReactFlowElements` for one provider: running
   maxima per column and per row, then prefix sums of the column widths and
   row heights.
   */
  method LayoutGrid(sizes: seq<Size>) returns (g: Grid)
    ensures g.cols == Cols(|sizes|) && g.rows == Rows(|sizes|)
    ensures |g.colPositions| == g.cols + 1 && forall c :: 0 <= c <= g.cols ==> g.colPositions[c] == ColPos(sizes, c)
    ensures |g.rowPositions| == g.rows + 1 && forall r :: 0 <= r <= g.rows ==> g.rowPositions[r] == RowPos(sizes, r)
    ensures g.width == ProviderWidth(sizes) && g.height == ProviderHeight(sizes)
  {
    var serviceCount := |sizes|;
    var s := CeilSqrt(serviceCount * RATIO_X / RATIO_Y);
    var serviceCols: nat := if s < 1 then 1 else s;
    assert serviceCols == Cols(serviceCount);
    var serviceRows := CeilDiv(serviceCount, serviceCols);

    var rowHeights := new nat[serviceRows](_ => 0);
    var colWidths := new nat[serviceCols](_ => 0);
    FillMaxima(sizes, serviceCols, colWidths, rowHeights);

    var colPositions := PrefixPositions(PADDING, colWidths[..]);
    var rowPositions := PrefixPositions(PROVIDER_HEADER + PADDING, rowHeights[..]);
    forall c | 0 <= c <= serviceCols
      ensures colPositions[c] == ColPos(sizes, c)
    {
      ColumnOffsets(sizes, colWidths[..], c);
    }
    forall r | 0 <= r <= serviceRows
      ensures rowPositions[r] == RowPos(sizes, r)
    {
      RowOffsets(sizes, rowHeights[..], r);
    }
    g := Grid(serviceCols, serviceRows, colPositions, rowPositions,
              colPositions[serviceCols] + PADDING, rowPositions[serviceRows] + PADDING);
  }

  /** The `k`-th prefix sum of `lengths`, each followed by `PADDING`, from `start`. */
  function Offset(start: nat, lengths: seq<nat>, k: nat): nat
    requires k <= |lengths|
  {
    if k == 0 then start else Offset(start, lengths, k - 1) + lengths[k - 1] + PADDING
  }

  /**
   The prefix-sum loops over the column widths and the row heights: the
   leading edge of every column (row), and one past the last.
   */
  method PrefixPositions(start: nat, lengths: seq<nat>) returns (positions: seq<nat>)
    ensures |positions| == |lengths| + 1
    ensures forall k :: 0 <= k <= |lengths| ==> positions[k] == Offset(start, lengths, k)
  {
    positions := [start];
    for i := 0 to |lengths|
      invariant |positions| == i + 1
      invariant forall k :: 0 <= k <= i ==> positions[k] == Offset(start, lengths, k)
    {
      positions := positions + [positions[i] + lengths[i] + PADDING];
    }
  }

  /** Prefix sums of the column widths are the column positions. */
  lemma {:induction false} ColumnOffsets(sizes: seq<Size>, widths: seq<nat>, c: nat)
    requires forall k :: 0 <= k < |widths| ==> widths[k] == ColWidth(sizes, k)
    requires c <= |widths|
    ensures Offset(PADDING, widths, c) == ColPos(sizes, c)
  {
    if c > 0 {
      ColumnOffsets(sizes, widths, c - 1);
      ColPosStep(sizes, c - 1, widths[c - 1]);
    }
  }

  /** Prefix sums of the row heights are the row positions. */
  lemma {:induction false} RowOffsets(sizes: seq<Size>, heights: seq<nat>, r: nat)
    requires forall k :: 0 <= k < |heights| ==> heights[k] == RowHeight(sizes, k)
    requires r <= |heights|
    ensures Offset(PROVIDER_HEADER + PADDING, heights, r) == RowPos(sizes, r)
  {
    if r > 0 {
      RowOffsets(sizes, heights, r - 1);
      RowPosStep(sizes, r - 1, heights[r - 1]);
    }
  }

  lemma ColPosStep(sizes: seq<Size>, c: nat, w: nat)
    requires w == ColWidth(sizes, c)
    ensures ColPos(sizes, c + 1) == ColPos(sizes, c) + w + PADDING
  {
  }

  lemma RowPosStep(sizes: seq<Size>, r: nat, h: nat)
    requires h == RowHeight(sizes, r)
    ensures RowPos(sizes, r + 1) == RowPos(sizes, r) + h + PADDING
  {
  }

  /** The box of the `index`-th service, read off a laid-out grid. */
  method CellBox(sizes: seq<Size>, g: Grid, index: nat) returns (box: Box)
    requires index < |sizes|
    requires g.cols == Cols(|sizes|) && g.rows == Rows(|sizes|)
    requires |g.colPositions| == g.cols + 1 && forall c :: 0 <= c <= g.cols ==> g.colPositions[c] == ColPos(sizes, c)
    requires |g.rowPositions| == g.rows + 1 && forall r :: 0 <= r <= g.rows ==> g.rowPositions[r] == RowPos(sizes, r)
    ensures box == ServiceBox(sizes, index)
  {
    var col := index % g.cols;
    var row := index / g.cols;
    CellIndices(index, |sizes|, g.cols, g.rows);
    GridCell(index, g.cols);
    var x := g.colPositions[col];
    var y := g.rowPositions[row];
    ServiceBoxAt(sizes, index, g.cols, x, y);
    box := Box(x, y, sizes[index].width, sizes[index].height);
  }

  /** Service `index` falls in one of the grid's columns and rows. */
  lemma CellIndices(index: nat, n: nat, cols: nat, rows: nat)
    requires cols > 0 && index < n && rows == CeilDiv(n, cols)
    ensures index % cols < cols && index / cols < rows
  {
    RowBelowCeil(index, n, cols);
  }

  /** The `forEach` that records the widest box of every column and the tallest of every row. */
  method FillMaxima(sizes: seq<Size>, cols: nat, colWidths: array<nat>, rowHeights: array<nat>)
    requires cols > 0 && colWidths.Length == cols && rowHeights.Length == CeilDiv(|sizes|, cols)
    requires colWidths != rowHeights
    requires forall c :: 0 <= c < cols ==> colWidths[c] == 0
    requires forall r :: 0 <= r < rowHeights.Length ==> rowHeights[r] == 0
    modifies colWidths, rowHeights
    ensures forall c :: 0 <= c < cols ==> colWidths[c] == ColMax(sizes, cols, c, |sizes|)
    ensures forall r :: 0 <= r < rowHeights.Length ==> rowHeights[r] == RowMax(sizes, cols, r, |sizes|)
  {
    for index := 0 to |sizes|
      invariant forall c :: 0 <= c < cols ==> colWidths[c] == ColMax(sizes, cols, c, index)
      invariant forall r :: 0 <= r < rowHeights.Length ==> rowHeights[r] == RowMax(sizes, cols, r, index)
    {
      var col := index % cols;
      var row := index / cols;
      RowBelowCeil(index, |sizes|, cols);
      GridCell(index, cols);
      colWidths[col] := Max(colWidths[col], sizes[index].width);
      rowHeights[row] := Max(rowHeights[row], sizes[index].height);
    }
  }

  // ----- Providers stacked top to bottom -----

  /** The top edge of the `k`-th provider box, given the heights of the boxes above it. */
  function ProviderY(heights: seq<nat>, k: nat): nat
    requires k <= |heights|
  {
    if k == 0 then 0 else ProviderY(heights, k - 1) + heights[k - 1] + PROVIDER_GAP
  }

  /** A provider box ends `PROVIDER_GAP` or more above every later one. */
  lemma {:induction false} ProvidersApart(heights: seq<nat>, j: nat, k: nat)
    requires j < k <= |heights|
    ensures ProviderY(heights, j) + heights[j] + PROVIDER_GAP <= ProviderY(heights, k)
  {
    if j < k - 1 {
      ProvidersApart(heights, j, k - 1);
    }
  }
}
