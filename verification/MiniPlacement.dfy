/** The coldest window of an activity grid: a summed-area table and a first-minimum search
    (scripts/mini-placement.py). Scores are exact reals. */
module MiniPlacement {

  const MENUBAR_FRAC: real := 0.035
  const EDGE_MARGIN: real := 0.012

  type Grid = seq<seq<real>>

  predicate IsGrid(act: Grid, gw: nat, gh: nat) {
    |act| == gh && forall i | 0 <= i < gh :: |act[i]| == gw
  }

  function Max(a: int, b: int): int { if a < b then b else a }

  function Min(a: int, b: int): int { if a < b then a else b }

  /** Rounding to the nearest integer, halves to the even one. */
  function Round(x: real): (n: int)
    ensures x - 0.5 <= n as real <= x + 0.5
    ensures x >= 0.0 ==> n >= 0
  {
    var f := x.Floor;
    var d := x - f as real;
    if d < 0.5 || (d == 0.5 && f % 2 == 0) then f else f + 1
  }

  // ---- Sums by definition, and by table ------------------------------------------------

  /** The cells of column `j` in the rows from `i0` to `i1`. */
  function ColumnSum(act: Grid, gw: nat, gh: nat, i0: nat, i1: nat, j: nat): real
    requires IsGrid(act, gw, gh) && i0 <= i1 <= gh && j < gw
    decreases i1
  {
    if i0 == i1 then 0.0 else ColumnSum(act, gw, gh, i0, i1 - 1, j) + act[i1 - 1][j]
  }

  /** The true sum of the cells in rows `i0..i1` and columns `j0..j1`. */
  function WindowSum(act: Grid, gw: nat, gh: nat, i0: nat, i1: nat, j0: nat, j1: nat): real
    requires IsGrid(act, gw, gh) && i0 <= i1 <= gh && j0 <= j1 <= gw
    decreases j1
  {
    if j0 == j1 then 0.0 else WindowSum(act, gw, gh, i0, i1, j0, j1 - 1) + ColumnSum(act, gw, gh, i0, i1, j1 - 1)
  }

  lemma {:induction false} ColumnSplits(act: Grid, gw: nat, gh: nat, i0: nat, i1: nat, j: nat)
    requires IsGrid(act, gw, gh) && i0 <= i1 <= gh && j < gw
    ensures ColumnSum(act, gw, gh, 0, i1, j) == ColumnSum(act, gw, gh, 0, i0, j) + ColumnSum(act, gw, gh, i0, i1, j)
    decreases i1
  {
    if i0 < i1 { ColumnSplits(act, gw, gh, i0, i1 - 1, j); }
  }

  /** Four corners of the table give the sum of the window between them. */
  lemma {:induction false} FourCorners(act: Grid, gw: nat, gh: nat, i0: nat, i1: nat, j0: nat, j1: nat)
    requires IsGrid(act, gw, gh) && i0 <= i1 <= gh && j0 <= j1 <= gw
    ensures WindowSum(act, gw, gh, i0, i1, j0, j1) ==
      WindowSum(act, gw, gh, 0, i1, 0, j1) - WindowSum(act, gw, gh, 0, i0, 0, j1)
      - WindowSum(act, gw, gh, 0, i1, 0, j0) + WindowSum(act, gw, gh, 0, i0, 0, j0)
    decreases j1
  {
    if j0 < j1 {
      FourCorners(act, gw, gh, i0, i1, j0, j1 - 1);
      ColumnSplits(act, gw, gh, i0, i1, j1 - 1);
    }
  }

  ghost predicate IsTable(sat: array2<real>, act: Grid, gw: nat, gh: nat)
    reads sat
  {
    && IsGrid(act, gw, gh) && sat.Length0 == gh + 1 && sat.Length1 == gw + 1
    && forall i, j | 0 <= i <= gh && 0 <= j <= gw :: sat[i, j] == WindowSum(act, gw, gh, 0, i, 0, j)
  }

  lemma {:induction false} EmptyRows(act: Grid, gw: nat, gh: nat, j: nat)
    requires IsGrid(act, gw, gh) && j <= gw
    ensures WindowSum(act, gw, gh, 0, 0, 0, j) == 0.0
  {
    if j > 0 { EmptyRows(act, gw, gh, j - 1); }
  }

  /** The entry of the table after the sums down the columns. */
  function ColumnEntry(act: Grid, gw: nat, gh: nat, i: nat, j: nat): real
    requires IsGrid(act, gw, gh) && i <= gh && j <= gw
  {
    if j == 0 then 0.0 else ColumnSum(act, gw, gh, 0, i, j - 1)
  }

  ghost predicate SumsDown(sat: array2<real>, act: Grid, gw: nat, gh: nat)
    reads sat
  {
    && IsGrid(act, gw, gh) && sat.Length0 == gh + 1 && sat.Length1 == gw + 1
    && forall i, j | 0 <= i <= gh && 0 <= j <= gw :: sat[i, j] == ColumnEntry(act, gw, gh, i, j)
  }

  /** The first running sum, down the columns. */
  method SumDown(act: Grid, gw: nat, gh: nat) returns (sat: array2<real>)
    requires IsGrid(act, gw, gh)
    ensures fresh(sat) && SumsDown(sat, act, gw, gh)
  {
    sat := new real[gh + 1, gw + 1]((i, j) => 0.0);
    for i := 0 to gh
      invariant forall k, l | 0 <= k <= i && 0 <= l <= gw :: sat[k, l] == ColumnEntry(act, gw, gh, k, l)
      invariant forall k | 0 <= k <= gh :: sat[k, 0] == 0.0
    {
      var row := i + 1;
      for j := 0 to gw
        invariant forall k, l | 0 <= k <= i && 0 <= l <= gw :: sat[k, l] == ColumnEntry(act, gw, gh, k, l)
        invariant forall l | 0 <= l <= j :: sat[row, l] == ColumnEntry(act, gw, gh, row, l)
        invariant forall k | 0 <= k <= gh :: sat[k, 0] == 0.0
      {
        sat[row, j + 1] := sat[i, j + 1] + act[i][j];
      }
    }
  }

  /** The second running sum, along the rows. */
  method SumAcross(sat: array2<real>, act: Grid, gw: nat, gh: nat)
    requires SumsDown(sat, act, gw, gh)
    modifies sat
    ensures IsTable(sat, act, gw, gh)
  {
    hide ColumnSum;
    forall j | 0 <= j <= gw ensures sat[0, j] == WindowSum(act, gw, gh, 0, 0, 0, j) {
      EmptyRows(act, gw, gh, j);
      NoColumnSum(act, gw, gh, j);
    }
    for i := 0 to gh
      invariant forall k, l | 0 <= k <= i && 0 <= l <= gw :: sat[k, l] == WindowSum(act, gw, gh, 0, k, 0, l)
      invariant forall k, l | i < k <= gh && 0 <= l <= gw :: sat[k, l] == ColumnEntry(act, gw, gh, k, l)
    {
      var row := i + 1;
      for j := 0 to gw
        invariant forall k, l | 0 <= k <= i && 0 <= l <= gw :: sat[k, l] == WindowSum(act, gw, gh, 0, k, 0, l)
        invariant forall l | 0 <= l <= j :: sat[row, l] == WindowSum(act, gw, gh, 0, row, 0, l)
        invariant forall l | j < l <= gw :: sat[row, l] == ColumnEntry(act, gw, gh, row, l)
        invariant forall k, l | row < k <= gh && 0 <= l <= gw :: sat[k, l] == ColumnEntry(act, gw, gh, k, l)
      {
        sat[row, j + 1] := sat[row, j + 1] + sat[row, j];
      }
    }
  }

  lemma NoColumnSum(act: Grid, gw: nat, gh: nat, j: nat)
    requires IsGrid(act, gw, gh) && j <= gw
    ensures ColumnEntry(act, gw, gh, 0, j) == 0.0
  {
  }

  method BuildTable(act: Grid, gw: nat, gh: nat) returns (sat: array2<real>)
    requires IsGrid(act, gw, gh)
    ensures fresh(sat) && IsTable(sat, act, gw, gh)
  {
    sat := SumDown(act, gw, gh);
    SumAcross(sat, act, gw, gh);
  }

  // ---- The candidates ----------------------------------------------------------------------

  /** The window size in cells; `rawWidth` is the rounded root of the target area. */
  function WindowWidth(gw: nat, rawWidth: int): (tw: nat)
    ensures tw <= gw
  {
    Min(Max(2, rawWidth), gw)
  }

  function WindowHeight(gh: nat, rawWidth: int, ratio: real): (th: nat)
    requires ratio > 0.0
    ensures th <= gh
  {
    Min(Max(2, Round(Max(2, rawWidth) as real / ratio)), gh)
  }

  /** The range of candidate offsets: inside the forbidden zones when that leaves any, else anywhere. */
  function Range(cells: nat, size: nat, low: nat, margin: nat): (r: (int, int))
    requires size <= cells
    ensures 0 <= r.0 <= r.1 <= cells - size
    ensures low + margin <= cells - size - margin ==> r == (low + margin, cells - size - margin)
  {
    if cells - size - margin < low + margin then (0, cells - size) else (low + margin, cells - size - margin)
  }

  function Rows(gh: nat, th: nat): (r: (int, int))
    requires th <= gh
    ensures 0 <= r.0 <= r.1 <= gh - th
  {
    Range(gh, th, Round(MENUBAR_FRAC * gh as real), Round(EDGE_MARGIN * gh as real))
  }

  function Columns(gw: nat, tw: nat): (r: (int, int))
    requires tw <= gw
    ensures 0 <= r.0 <= r.1 <= gw - tw
  {
    Range(gw, tw, 0, Round(EDGE_MARGIN * gw as real))
  }

  function EdgePull(gw: nat, gh: nat, tw: nat, th: nat, i: int, j: int): real {
    Min(j, gw - tw - j) as real + 0.5 * (gh - th - i) as real
  }

  /** The score of the window at `(i, j)`, from the cells themselves. */
  function Score(act: Grid, gw: nat, gh: nat, tw: nat, th: nat, i: int, j: int): real
    requires IsGrid(act, gw, gh) && 0 <= i <= gh - th && 0 <= j <= gw - tw
  {
    WindowSum(act, gw, gh, i, i + th, j, j + tw) + 0.15 * EdgePull(gw, gh, tw, th, i, j)
  }

  predicate Before(i: int, j: int, k: int, l: int) {
    i < k || (i == k && j < l)
  }

  /** `(bi, bj)` is the first window, row by row, among those of least score up to `(ei, ej)`. */
  ghost predicate FirstMinimum(act: Grid, gw: nat, gh: nat, tw: nat, th: nat, rows: (int, int), columns: (int, int),
                               bi: int, bj: int, ei: int, ej: int)
    requires IsGrid(act, gw, gh) && tw <= gw && th <= gh
    requires 0 <= rows.0 && rows.1 <= gh - th && 0 <= columns.0 && columns.1 <= gw - tw
  {
    && rows.0 <= bi <= rows.1 && columns.0 <= bj <= columns.1
    && forall i, j | rows.0 <= i <= rows.1 && columns.0 <= j <= columns.1 && Before(i, j, ei, ej) ::
         if Before(i, j, bi, bj) then Score(act, gw, gh, tw, th, i, j) > Score(act, gw, gh, tw, th, bi, bj)
         else Score(act, gw, gh, tw, th, i, j) >= Score(act, gw, gh, tw, th, bi, bj)
  }

  /** `best` of the search loop: none yet, or the score, place and sum of a window. */
  datatype Best = NoneYet | Best(score: real, i: int, j: int, sum: real)

  /** What the loop knows before it looks at `(ei, ej)`. */
  ghost predicate Holds(act: Grid, gw: nat, gh: nat, tw: nat, th: nat, rows: (int, int), columns: (int, int),
                        best: Best, ei: int, ej: int)
    requires IsGrid(act, gw, gh) && tw <= gw && th <= gh
    requires 0 <= rows.0 && rows.1 <= gh - th && 0 <= columns.0 && columns.1 <= gw - tw
  {
    match best
    case NoneYet => ei == rows.0 && ej <= columns.0
    case Best(score, i, j, sum) =>
      && Before(i, j, ei, ej)
      && FirstMinimum(act, gw, gh, tw, th, rows, columns, i, j, ei, ej)
      && score == Score(act, gw, gh, tw, th, i, j)
      && sum == WindowSum(act, gw, gh, i, i + th, j, j + tw)
  }

  /** One more candidate: it becomes the best when there is none yet or its score is less. */
  lemma OneMore(act: Grid, gw: nat, gh: nat, tw: nat, th: nat, rows: (int, int), columns: (int, int), best: Best,
                next: Best)
    requires IsGrid(act, gw, gh) && tw <= gw && th <= gh && next.Best?
    requires 0 <= rows.0 <= next.i <= rows.1 <= gh - th && 0 <= columns.0 <= next.j <= columns.1 <= gw - tw
    requires Holds(act, gw, gh, tw, th, rows, columns, best, next.i, next.j)
    requires next.score == Score(act, gw, gh, tw, th, next.i, next.j)
    requires next.sum == WindowSum(act, gw, gh, next.i, next.i + th, next.j, next.j + tw)
    ensures Holds(act, gw, gh, tw, th, rows, columns,
                  if best.NoneYet? || next.score < best.score then next else best, next.i, next.j + 1)
  {
    hide Score, WindowSum;
    var i, j, after := next.i, next.j, next.j + 1;
    assert forall k, l :: Before(k, l, i, after) <==> Before(k, l, i, j) || (k == i && l == j);
  }

  /** The end of a row is the start of the next, and after the last row everything has been seen. */
  lemma NextRow(act: Grid, gw: nat, gh: nat, tw: nat, th: nat, rows: (int, int), columns: (int, int), best: Best,
                i: int)
    requires IsGrid(act, gw, gh) && tw <= gw && th <= gh
    requires 0 <= rows.0 <= i <= rows.1 <= gh - th && 0 <= columns.0 <= columns.1 <= gw - tw
    requires Holds(act, gw, gh, tw, th, rows, columns, best, i, columns.1 + 1)
    ensures Holds(act, gw, gh, tw, th, rows, columns, best, i + 1, columns.0) && best.Best?
    ensures i == rows.1 ==> FirstMinimum(act, gw, gh, tw, th, rows, columns, best.i, best.j, gh + 1, 0)
  {
    hide Score, WindowSum;
    var end, next, start := columns.1 + 1, i + 1, columns.0;
    assert forall k, l | start <= l < end :: Before(k, l, i, end) <==> Before(k, l, next, start);
  }

  /** The search over the table finds the first window of least score, and its true sum. */
  method ColdestRect(act: Grid, gw: nat, gh: nat, rawWidth: int, ratio: real)
    returns (gi: nat, gj: nat, tw: nat, th: nat, raw: real)
    requires IsGrid(act, gw, gh) && ratio > 0.0
    ensures tw == WindowWidth(gw, rawWidth) && th == WindowHeight(gh, rawWidth, ratio)
    ensures gi + th <= gh && gj + tw <= gw
    ensures FirstMinimum(act, gw, gh, tw, th, Rows(gh, th), Columns(gw, tw), gi, gj, gh + 1, 0)
    ensures raw == WindowSum(act, gw, gh, gi, gi + th, gj, gj + tw)
  {
    tw, th := WindowWidth(gw, rawWidth), WindowHeight(gh, rawWidth, ratio);
    var rows, columns := Rows(gh, th), Columns(gw, tw);
    var best := Search(act, gw, gh, tw, th, rows, columns);
    gi, gj, raw := best.i, best.j, best.sum;
  }

  method Search(act: Grid, gw: nat, gh: nat, tw: nat, th: nat, rows: (int, int), columns: (int, int))
    returns (best: Best)
    requires IsGrid(act, gw, gh) && tw <= gw && th <= gh
    requires 0 <= rows.0 <= rows.1 <= gh - th && 0 <= columns.0 <= columns.1 <= gw - tw
    ensures best.Best? && rows.0 <= best.i <= rows.1 && columns.0 <= best.j <= columns.1
    ensures FirstMinimum(act, gw, gh, tw, th, rows, columns, best.i, best.j, gh + 1, 0)
    ensures best.sum == WindowSum(act, gw, gh, best.i, best.i + th, best.j, best.j + tw)
  {
    hide Score, FirstMinimum, WindowSum, EdgePull, Holds;
    var sat := BuildTable(act, gw, gh);
    best := NoneYet;
    StartHolds(act, gw, gh, tw, th, rows, columns);
    for i := rows.0 to rows.1 + 1
      invariant IsTable(sat, act, gw, gh)
      invariant Holds(act, gw, gh, tw, th, rows, columns, best, i, columns.0)
      invariant i == rows.1 + 1 ==>
        best.Best? && FirstMinimum(act, gw, gh, tw, th, rows, columns, best.i, best.j, gh + 1, 0)
    {
      for j := columns.0 to columns.1 + 1
        invariant IsTable(sat, act, gw, gh)
        invariant Holds(act, gw, gh, tw, th, rows, columns, best, i, j)
      {
        var s := RectSum(sat, act, gw, gh, i, j, th, tw);
        var next := Best(s + 0.15 * EdgePull(gw, gh, tw, th, i, j), i, j, s);
        ScoreIs(act, gw, gh, tw, th, i, j);
        OneMore(act, gw, gh, tw, th, rows, columns, best, next);
        if best.NoneYet? || next.score < best.score {
          best := next;
        }
      }
      NextRow(act, gw, gh, tw, th, rows, columns, best, i);
    }
    HoldsMeans(act, gw, gh, tw, th, rows, columns, best, rows.1 + 1, columns.0);
  }

  lemma StartHolds(act: Grid, gw: nat, gh: nat, tw: nat, th: nat, rows: (int, int), columns: (int, int))
    requires IsGrid(act, gw, gh) && tw <= gw && th <= gh
    requires 0 <= rows.0 && rows.1 <= gh - th && 0 <= columns.0 && columns.1 <= gw - tw
    ensures Holds(act, gw, gh, tw, th, rows, columns, NoneYet, rows.0, columns.0)
  {
  }

  lemma HoldsMeans(act: Grid, gw: nat, gh: nat, tw: nat, th: nat, rows: (int, int), columns: (int, int), best: Best,
                   ei: int, ej: int)
    requires IsGrid(act, gw, gh) && tw <= gw && th <= gh
    requires 0 <= rows.0 && rows.1 <= gh - th && 0 <= columns.0 && columns.1 <= gw - tw
    requires best.Best? && Holds(act, gw, gh, tw, th, rows, columns, best, ei, ej)
    ensures rows.0 <= best.i <= rows.1 && columns.0 <= best.j <= columns.1
    ensures best.sum == WindowSum(act, gw, gh, best.i, best.i + th, best.j, best.j + tw)
  {
  }

  method RectSum(sat: array2<real>, act: Grid, gw: nat, gh: nat, i: nat, j: nat, th: nat, tw: nat) returns (s: real)
    requires IsTable(sat, act, gw, gh) && i + th <= gh && j + tw <= gw
    ensures s == WindowSum(act, gw, gh, i, i + th, j, j + tw)
  {
    FourCorners(act, gw, gh, i, i + th, j, j + tw);
    s := sat[i + th, j + tw] - sat[i, j + tw] - sat[i + th, j] + sat[i, j];
  }

  lemma ScoreIs(act: Grid, gw: nat, gh: nat, tw: nat, th: nat, i: int, j: int)
    requires IsGrid(act, gw, gh) && 0 <= i <= gh - th && 0 <= j <= gw - tw
    ensures Score(act, gw, gh, tw, th, i, j) ==
      WindowSum(act, gw, gh, i, i + th, j, j + tw) + 0.15 * EdgePull(gw, gh, tw, th, i, j)
  {
  }

  /** The result is the only one its contract allows. */
  lemma FirstMinimumUnique(act: Grid, gw: nat, gh: nat, tw: nat, th: nat, rows: (int, int), columns: (int, int),
                           i: int, j: int, k: int, l: int)
    requires IsGrid(act, gw, gh) && tw <= gw && th <= gh
    requires 0 <= rows.0 && rows.1 <= gh - th && 0 <= columns.0 && columns.1 <= gw - tw
    requires FirstMinimum(act, gw, gh, tw, th, rows, columns, i, j, gh + 1, 0)
    requires FirstMinimum(act, gw, gh, tw, th, rows, columns, k, l, gh + 1, 0)
    ensures i == k && j == l
  {
    assert Before(i, j, gh + 1, 0) && Before(k, l, gh + 1, 0);
    assert Score(act, gw, gh, tw, th, i, j) >= Score(act, gw, gh, tw, th, k, l);
    assert Score(act, gw, gh, tw, th, k, l) >= Score(act, gw, gh, tw, th, i, j);
  }

  // ---- Back to pixels --------------------------------------------------------------------------

  datatype Rect = Rect(x: int, y: int, w: int, h: int)

  function Exact(cells: nat, grid: nat, pixels: nat): real
    requires grid > 0
  {
    cells as real / grid as real * pixels as real
  }

  function Scaled(cells: nat, grid: nat, pixels: nat): int
    requires grid > 0
  {
    Round(Exact(cells, grid, pixels))
  }

  function ToPixels(gi: nat, gj: nat, tw: nat, th: nat, gw: nat, gh: nat, width: nat, height: nat): Rect
    requires gw > 0 && gh > 0
  {
    Rect(Scaled(gj, gw, width), Scaled(gi, gh, height), Scaled(tw, gw, width), Scaled(th, gh, height))
  }

  lemma RoundedSum(x: real, y: real, p: int)
    requires x + y <= p as real
    ensures Round(x) + Round(y) <= p + 1
  {
    hide Round;
    assert (Round(x) + Round(y)) as real <= x + y + 1.0;
  }

  lemma ScaledFits(a: nat, b: nat, grid: nat, pixels: nat)
    requires grid > 0 && a + b <= grid
    ensures 0 <= Scaled(a, grid, pixels) && 0 <= Scaled(b, grid, pixels)
    ensures Scaled(a, grid, pixels) + Scaled(b, grid, pixels) <= pixels + 1
  {
    hide Round, Exact;
    ExactShares(a, b, grid, pixels);
    NotNegative(a, grid, pixels);
    NotNegative(b, grid, pixels);
    RoundedSum(Exact(a, grid, pixels), Exact(b, grid, pixels), pixels);
  }

  lemma NotNegative(cells: nat, grid: nat, pixels: nat)
    requires grid > 0
    ensures Exact(cells, grid, pixels) >= 0.0
  {
    var u := cells as real / grid as real;
    assert u >= 0.0 && u * pixels as real >= 0.0;
  }

  lemma Shares(a: real, b: real, g: real)
    requires g > 0.0 && a + b <= g
    ensures a / g + b / g <= 1.0
  {
    assert a / g + b / g == (a + b) / g;
  }

  lemma ScaleSum(u: real, v: real, p: real)
    requires u >= 0.0 && v >= 0.0 && u + v <= 1.0 && p >= 0.0
    ensures u * p >= 0.0 && v * p >= 0.0 && u * p + v * p <= p
  {
    assert u * p + v * p == (u + v) * p;
  }

  /** The pixel rectangle of a window inside the grid leaves the screen by at most one pixel. */
  lemma PixelsFit(gi: nat, gj: nat, tw: nat, th: nat, gw: nat, gh: nat, width: nat, height: nat)
    requires gw > 0 && gh > 0 && gi + th <= gh && gj + tw <= gw
    ensures var r := ToPixels(gi, gj, tw, th, gw, gh, width, height);
      && 0 <= r.x && 0 <= r.y && 0 <= r.w && 0 <= r.h
      && r.x + r.w <= width + 1 && r.y + r.h <= height + 1
  {
    ScaledFits(gj, tw, gw, width);
    ScaledFits(gi, th, gh, height);
  }

  // ---- Exactly when one pixel over ----------------------------------------------------------------

  /** The scaled value is half-way above an odd integer, so that rounding adds a half. */
  predicate RoundsUpFromHalf(a: nat, grid: nat, pixels: nat)
    requires grid > 0
  {
    2 * a * pixels % (4 * grid) == 3 * grid
  }

  lemma ModIs(v: int, m: int, q: int, r: int)
    requires m > 0 && 0 <= r < m && v == q * m + r
    ensures v % m == r
  {
    var d := v / m - q;
    assert d * m == r - v % m by { assert v == (v / m) * m + v % m; }
    TimesApart(d, m);
  }

  lemma TimesApart(d: int, m: int)
    requires m > 0
    ensures d == 0 || d * m >= m || d * m <= -m
  {
  }

  lemma Unscale(a: nat, grid: nat, pixels: nat)
    requires grid > 0
    ensures Exact(a, grid, pixels) * grid as real == (a * pixels) as real
  {
    var u, p, g := a as real / grid as real, pixels as real, grid as real;
    assert u * g == a as real;
    assert u * p * g == u * g * p;
  }

  lemma RoundGainsHalf(x: real)
    ensures Round(x) as real == x + 0.5 <==> x == x.Floor as real + 0.5 && x.Floor % 2 == 1
  {
  }

  lemma HalfIff(a: nat, grid: nat, pixels: nat)
    requires grid > 0
    ensures Scaled(a, grid, pixels) as real == Exact(a, grid, pixels) + 0.5 <==> RoundsUpFromHalf(a, grid, pixels)
  {
    hide Round;
    var x := Exact(a, grid, pixels);
    RoundGainsHalf(x);
    Unscale(a, grid, pixels);
    assert Scaled(a, grid, pixels) == Round(x);
    hide Exact, RoundsUpFromHalf, Scaled;
    HalfModulusIff(x, a, grid, pixels);
  }

  lemma HalfModulusIff(x: real, a: nat, grid: nat, pixels: nat)
    requires grid > 0 && x * grid as real == (a * pixels) as real
    ensures x == x.Floor as real + 0.5 && x.Floor % 2 == 1 <==> RoundsUpFromHalf(a, grid, pixels)
  {
    hide RoundsUpFromHalf;
    if x == x.Floor as real + 0.5 && x.Floor % 2 == 1 {
      OddHalf(x);
      HalfToModulus(x, x.Floor / 2, a, grid, pixels);
    }
    if RoundsUpFromHalf(a, grid, pixels) {
      var k := Quotient(a, grid, pixels);
      ModulusToHalf(x, k, a, grid, pixels);
      OddIs(k);
    }
  }

  lemma OddHalf(x: real)
    requires x == x.Floor as real + 0.5 && x.Floor % 2 == 1
    ensures x == (2 * (x.Floor / 2) + 1) as real + 0.5
  {
  }

  lemma OddIs(k: int)
    ensures (2 * k + 1) % 2 == 1
  {
  }

  lemma Quotient(a: nat, grid: nat, pixels: nat) returns (k: int)
    requires grid > 0 && RoundsUpFromHalf(a, grid, pixels)
    ensures 2 * a * pixels == k * (4 * grid) + 3 * grid
  {
    k := 2 * a * pixels / (4 * grid);
  }

  lemma HalfToModulus(x: real, k: int, a: nat, grid: nat, pixels: nat)
    requires grid > 0 && x * grid as real == (a * pixels) as real && x == (2 * k + 1) as real + 0.5
    ensures RoundsUpFromHalf(a, grid, pixels)
  {
    var g := grid as real;
    assert 2.0 * x == (4 * k + 3) as real;
    assert (2 * (a * pixels)) as real == 2.0 * x * g;
    assert 2.0 * x * g == ((4 * k + 3) * grid) as real;
    assert 2 * a * pixels == 2 * (a * pixels) == (4 * k + 3) * grid == k * (4 * grid) + 3 * grid;
    ModIs(2 * a * pixels, 4 * grid, k, 3 * grid);
  }

  lemma ModulusToHalf(x: real, k: int, a: nat, grid: nat, pixels: nat)
    requires grid > 0 && x * grid as real == (a * pixels) as real && 2 * a * pixels == k * (4 * grid) + 3 * grid
    ensures x == (2 * k + 1) as real + 0.5 && x.Floor == 2 * k + 1
  {
    var g := grid as real;
    assert 2 * (a * pixels) == (4 * k + 3) * grid;
    assert 2.0 * x * g == ((4 * k + 3) * grid) as real == (4 * k + 3) as real * g;
    Cancel(2.0 * x, (4 * k + 3) as real, g);
  }

  lemma Cancel(u: real, v: real, g: real)
    requires g > 0.0 && u * g == v * g
    ensures u == v
  {
    assert (u - v) * g == 0.0;
  }

  /** Along one side of the screen: one pixel over exactly when the window reaches the far edge of the grid and both its
      offset and its size scale to halves above odd integers. */
  lemma AxisOverIff(a: nat, b: nat, grid: nat, pixels: nat)
    requires grid > 0 && a + b <= grid
    ensures Scaled(a, grid, pixels) + Scaled(b, grid, pixels) == pixels + 1 <==>
      (a + b == grid && RoundsUpFromHalf(a, grid, pixels) && RoundsUpFromHalf(b, grid, pixels))
  {
    var m, n := Scaled(a, grid, pixels), Scaled(b, grid, pixels);
    var x, y := Exact(a, grid, pixels), Exact(b, grid, pixels);
    assert m as real <= x + 0.5 && n as real <= y + 0.5;
    hide Round, RoundsUpFromHalf, Scaled, Exact;
    HalfIff(a, grid, pixels);
    HalfIff(b, grid, pixels);
    ExactShares(a, b, grid, pixels);
    if m + n == pixels + 1 {
      assert x + y == pixels as real;
      if pixels == 0 { NoPixels(a, grid); NoPixels(b, grid); } else { WholeGrid(a, b, grid, pixels); }
    }
  }

  lemma ExactShares(a: nat, b: nat, grid: nat, pixels: nat)
    requires grid > 0 && a + b <= grid
    ensures Exact(a, grid, pixels) + Exact(b, grid, pixels) <= pixels as real
    ensures a + b == grid ==> Exact(a, grid, pixels) + Exact(b, grid, pixels) == pixels as real
  {
    var u, v, p, g := a as real / grid as real, b as real / grid as real, pixels as real, grid as real;
    Shares(a as real, b as real, g);
    ScaleSum(u, v, p);
    assert u + v == (a + b) as real / g;
    assert u * p + v * p == (u + v) * p;
  }

  lemma WholeGrid(a: nat, b: nat, grid: nat, pixels: nat)
    requires grid > 0 && pixels > 0 && Exact(a, grid, pixels) + Exact(b, grid, pixels) == pixels as real
    ensures a + b == grid
  {
    var u, v, p, g := a as real / grid as real, b as real / grid as real, pixels as real, grid as real;
    assert Exact(a, grid, pixels) == u * p && Exact(b, grid, pixels) == v * p;
    assert (u + v) * p == u * p + v * p;
    Cancel(u + v, 1.0, p);
    assert u * g == a as real && v * g == b as real;
    assert (u + v) * g == g;
  }

  lemma NoPixels(a: nat, grid: nat)
    requires grid > 0
    ensures Scaled(a, grid, 0) == 0 && !RoundsUpFromHalf(a, grid, 0)
  {
    assert a as real / grid as real * 0.0 == 0.0;
    assert (0.0).Floor == 0;
    assert 2 * a * 0 == 0;
  }

  lemma PixelsOverIff(gi: nat, gj: nat, tw: nat, th: nat, gw: nat, gh: nat, width: nat, height: nat)
    requires gw > 0 && gh > 0 && gi + th <= gh && gj + tw <= gw
    ensures var r := ToPixels(gi, gj, tw, th, gw, gh, width, height);
      && (r.x + r.w == width + 1 <==>
        gj + tw == gw && RoundsUpFromHalf(gj, gw, width) && RoundsUpFromHalf(tw, gw, width))
      && (r.y + r.h == height + 1 <==>
        gi + th == gh && RoundsUpFromHalf(gi, gh, height) && RoundsUpFromHalf(th, gh, height))
  {
    hide RoundsUpFromHalf;
    AxisOverIff(gj, tw, gw, width);
    AxisOverIff(gi, th, gh, height);
  }

  const GRID_WIDTH: nat := 192

  /** On the script's grid a window found by the search never sticks out sideways, on a screen of any width. */
  lemma NeverOverSideways(gj: nat, tw: nat, width: nat)
    requires tw <= GRID_WIDTH && Columns(GRID_WIDTH, tw).0 <= gj <= Columns(GRID_WIDTH, tw).1
    ensures Scaled(gj, GRID_WIDTH, width) + Scaled(tw, GRID_WIDTH, width) <= width
  {
    ScaledFits(gj, tw, GRID_WIDTH, width);
    AxisOverIff(gj, tw, GRID_WIDTH, width);
    assert Round(EDGE_MARGIN * GRID_WIDTH as real) == 2 by {
      assert EDGE_MARGIN * 192.0 == 2.304;
      assert (2.304).Floor == 2;
    }
    hide Round, Scaled;
    if gj + tw == GRID_WIDTH {
      assert gj <= 3;
      NotBothHalves(gj, tw, width);
    }
  }

  lemma NotBothHalves(a: nat, b: nat, pixels: nat)
    requires a <= 3 && a + b == GRID_WIDTH
    ensures !RoundsUpFromHalf(a, GRID_WIDTH, pixels) || !RoundsUpFromHalf(b, GRID_WIDTH, pixels)
  {
    var p: int := pixels;
    if a == 0 {
      assert 2 * a * p == 0;
    } else if a == 1 {
      assert 2 * a * p == 2 * p && 2 * b * p == 382 * p;
    } else if a == 2 {
      assert 2 * a * p == 4 * p && 2 * b * p == 380 * p;
    } else {
      assert 2 * a * p == 6 * p && 2 * b * p == 378 * p;
    }
  }

  /** Downwards it happens: on a screen of 864 by 369 pixels the grid has 82 rows, a window of 79 rows leaves the
      candidates 0 to 3, and at row 3 the rectangle ends one pixel below the screen. */
  lemma OnePixelOver(gj: nat, tw: nat)
    requires gj + tw <= GRID_WIDTH
    ensures Round(GRID_WIDTH as real * 369.0 / 864.0) == 82 && Rows(82, 79) == (0, 3)
    ensures var r := ToPixels(3, gj, tw, 79, GRID_WIDTH, 82, 864, 369); r.y + r.h == 369 + 1
  {
    assert GRID_WIDTH as real * 369.0 / 864.0 == 82.0;
    assert MENUBAR_FRAC * 82.0 == 2.87 && (2.87).Floor == 2;
    assert EDGE_MARGIN * 82.0 == 0.984 && (0.984).Floor == 0;
    assert 2 * 3 * 369 % (4 * 82) == 3 * 82 && 2 * 79 * 369 % (4 * 82) == 3 * 82;
    PixelsOverIff(3, gj, tw, 79, GRID_WIDTH, 82, 864, 369);
  }

  // ---- The pixels, in integers ------------------------------------------------------------------------

  /** `n` of `pixels` is nearest to `cells` of `grid`, the even one of two. */
  predicate IsNearest(n: int, cells: nat, grid: nat, pixels: nat) {
    var twice := 2 * Abs(n * grid - cells * pixels);
    twice <= grid && (twice == grid ==> n % 2 == 0)
  }

  function Abs(n: int): int { if n < 0 then -n else n }

  lemma RoundIsNearest(x: real)
    ensures -0.5 <= Round(x) as real - x <= 0.5
    ensures Round(x) as real - x == 0.5 || Round(x) as real - x == -0.5 ==> Round(x) % 2 == 0
  {
  }

  /** How far `n` units of `grid` are from a share, and a real number of units of `g`. */
  function Off(n: int, grid: nat, share: int): int { n * grid - share }

  function Units(d: real, g: real): real { d * g }

  lemma ScaledIsNearest(cells: nat, grid: nat, pixels: nat)
    requires grid > 0
    ensures IsNearest(Scaled(cells, grid, pixels), cells, grid, pixels)
  {
    var x, n := Exact(cells, grid, pixels), Scaled(cells, grid, pixels);
    RoundIsNearest(x);
    assert n == Round(x);
    Unscale(cells, grid, pixels);
    OffBy(n, cells * pixels, grid, x);
    hide Round, Exact, Scaled, Off, Units, IsNearest;
    OffIsNearest(Off(n, grid, cells * pixels), n, grid, n as real - x);
    NearestByOff(n, cells, grid, pixels);
  }

  lemma OffBy(n: int, share: int, grid: nat, x: real)
    requires x * grid as real == share as real
    ensures Off(n, grid, share) as real == Units(n as real - x, grid as real)
  {
    var g := grid as real;
    assert (n as real - x) * g == n as real * g - x * g;
    assert (n * grid) as real == n as real * g;
  }

  lemma OffIsNearest(off: int, n: int, grid: nat, d: real)
    requires grid > 0 && off as real == Units(d, grid as real)
    requires -0.5 <= d <= 0.5 && (d == 0.5 || d == -0.5 ==> n % 2 == 0)
    ensures 2 * Abs(off) <= grid && (2 * Abs(off) == grid ==> n % 2 == 0)
  {
    UnitsBetween(d, grid as real);
    hide Units;
    assert (2 * off) as real == 2.0 * off as real;
  }

  lemma UnitsBetween(d: real, g: real)
    requires g > 0.0 && -0.5 <= d <= 0.5
    ensures -g <= 2.0 * Units(d, g) <= g
    ensures 2.0 * Units(d, g) == g ==> d == 0.5
    ensures 2.0 * Units(d, g) == -g ==> d == -0.5
  {
    assert (0.5 - d) * g >= 0.0 && (0.5 + d) * g >= 0.0;
    assert (0.5 - d) * g == 0.5 * g - d * g && (0.5 + d) * g == 0.5 * g + d * g;
    if 2.0 * (d * g) == g { Cancel(d, 0.5, g); }
    if 2.0 * (d * g) == -g { Cancel(d, -0.5, g); }
  }

  lemma NearestByOff(n: int, cells: nat, grid: nat, pixels: nat)
    requires var off := Off(n, grid, cells * pixels);
      2 * Abs(off) <= grid && (2 * Abs(off) == grid ==> n % 2 == 0)
    ensures IsNearest(n, cells, grid, pixels)
  {
  }

  /** Each side of the pixel rectangle is the nearest pixel to its share of the screen: left edge and width along the
      columns, top edge and height along the rows. */
  lemma PixelsAreNearest(gi: nat, gj: nat, tw: nat, th: nat, gw: nat, gh: nat, width: nat, height: nat)
    requires gw > 0 && gh > 0
    ensures var r := ToPixels(gi, gj, tw, th, gw, gh, width, height);
      && IsNearest(r.x, gj, gw, width) && IsNearest(r.w, tw, gw, width)
      && IsNearest(r.y, gi, gh, height) && IsNearest(r.h, th, gh, height)
  {
    hide IsNearest, Scaled;
    ScaledIsNearest(gj, gw, width);
    ScaledIsNearest(tw, gw, width);
    ScaledIsNearest(gi, gh, height);
    ScaledIsNearest(th, gh, height);
  }

  // ---- The window's height ------------------------------------------------------------------------------

  /** The height is the width asked for, at least 2 and not yet cut to the grid, divided by the ratio and rounded; it is
      at least 2 and at most the grid. */
  lemma HeightFollowsRatio(gh: nat, rawWidth: int, ratio: real)
    requires ratio > 0.0
    ensures var th, exact := WindowHeight(gh, rawWidth, ratio), (if rawWidth < 2 then 2 else rawWidth) as real / ratio;
      && (exact < 1.5 ==> th == if gh < 2 then gh else 2)
      && (exact > gh as real + 0.5 ==> th == gh)
      && (2.5 <= exact <= gh as real - 0.5 ==> -0.5 <= th as real - exact <= 0.5)
  {
    hide Round;
    var exact := Max(2, rawWidth) as real / ratio;
    RoundIsNearest(exact);
  }

  // ---- What the score prefers ------------------------------------------------------------------------------

  /** One row lower is worth 0.075 of activity. */
  lemma LowerIsWorth(act: Grid, gw: nat, gh: nat, tw: nat, th: nat, i: int, j: int)
    requires IsGrid(act, gw, gh) && 0 <= i < gh - th && 0 <= j <= gw - tw
    ensures var next := i + 1;
      Score(act, gw, gh, tw, th, next, j) - WindowSum(act, gw, gh, next, next + th, j, j + tw)
      == Score(act, gw, gh, tw, th, i, j) - WindowSum(act, gw, gh, i, i + th, j, j + tw) - 0.075
  {
  }

  /** One column nearer to the closer side of the screen is worth 0.15. */
  lemma SidewardIsWorth(act: Grid, gw: nat, gh: nat, tw: nat, th: nat, i: int, j: int)
    requires IsGrid(act, gw, gh) && 0 <= i <= gh - th && 0 <= j < gw - tw
    ensures var next := j + 1;
      Score(act, gw, gh, tw, th, i, next) - WindowSum(act, gw, gh, i, i + th, next, next + tw)
      == Score(act, gw, gh, tw, th, i, j) - WindowSum(act, gw, gh, i, i + th, j, j + tw)
         + if next <= gw - tw - next then 0.15 else if j >= gw - tw - j then -0.15 else 0.0
  {
  }

  predicate IsBlank(act: Grid) {
    forall i, j | 0 <= i < |act| && 0 <= j < |act[i]| :: act[i][j] == 0.0
  }

  lemma {:induction false} BlankColumn(act: Grid, gw: nat, gh: nat, i0: nat, i1: nat, j: nat)
    requires IsGrid(act, gw, gh) && IsBlank(act) && i0 <= i1 <= gh && j < gw
    ensures ColumnSum(act, gw, gh, i0, i1, j) == 0.0
    decreases i1
  {
    if i0 < i1 { BlankColumn(act, gw, gh, i0, i1 - 1, j); }
  }

  lemma {:induction false} BlankWindow(act: Grid, gw: nat, gh: nat, i0: nat, i1: nat, j0: nat, j1: nat)
    requires IsGrid(act, gw, gh) && IsBlank(act) && i0 <= i1 <= gh && j0 <= j1 <= gw
    ensures WindowSum(act, gw, gh, i0, i1, j0, j1) == 0.0
    decreases j1
  {
    if j0 < j1 {
      BlankWindow(act, gw, gh, i0, i1, j0, j1 - 1);
      BlankColumn(act, gw, gh, i0, i1, j1 - 1);
    }
  }

  lemma ColumnsMirror(gw: nat, tw: nat)
    requires tw <= gw
    ensures Columns(gw, tw).0 + Columns(gw, tw).1 == gw - tw
  {
  }

  /** On a blank screen the window goes to the lowest row of candidates, at its left end. */
  lemma BlankGoesLowLeft(act: Grid, gw: nat, gh: nat, tw: nat, th: nat, bi: int, bj: int)
    requires IsGrid(act, gw, gh) && IsBlank(act) && tw <= gw && th <= gh
    requires FirstMinimum(act, gw, gh, tw, th, Rows(gh, th), Columns(gw, tw), bi, bj, gh + 1, 0)
    ensures bi == Rows(gh, th).1 && bj == Columns(gw, tw).0
  {
    var i, j := Rows(gh, th).1, Columns(gw, tw).0;
    ColumnsMirror(gw, tw);
    BlankWindow(act, gw, gh, i, i + th, j, j + tw);
    BlankWindow(act, gw, gh, bi, bi + th, bj, bj + tw);
    hide WindowSum, Rows, Columns, IsBlank;
    assert Before(i, j, gh + 1, 0);
    assert Score(act, gw, gh, tw, th, i, j) >= Score(act, gw, gh, tw, th, bi, bj);
    assert Score(act, gw, gh, tw, th, bi, bj) == 0.15 * EdgePull(gw, gh, tw, th, bi, bj);
    assert Score(act, gw, gh, tw, th, i, j) == 0.15 * EdgePull(gw, gh, tw, th, i, j);
  }

  /** The candidates of a window of 60 by 40 cells on a screen of 192 by 108: below the menu bar and off the edges. */
  lemma CandidatesOnScreen()
    ensures Rows(108, 40) == (5, 67) && Columns(192, 60) == (2, 130)
  {
    assert MENUBAR_FRAC * 108.0 == 3.78 && (3.78).Floor == 3;
    assert EDGE_MARGIN * 108.0 == 1.296 && (1.296).Floor == 1;
    assert EDGE_MARGIN * 192.0 == 2.304 && (2.304).Floor == 2;
  }
}
