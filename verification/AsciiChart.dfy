/** internal/chart/markdown.go: the text chart, a grid of characters filled series by series. */
module AsciiChart {
  import opened Downsample

  const ROWS := 8
  const COLS := 67

  /** The marker of series i. */
  function MarkerOf(i: nat): char { ['*', '+', 'x', 'o'][i % 4] }

  lemma MarkersTakeTurns(i: nat)
    ensures MarkerOf(4 * i) == '*' && MarkerOf(4 * i + 1) == '+'
    ensures MarkerOf(4 * i + 2) == 'x' && MarkerOf(4 * i + 3) == 'o'
  {
  }

  // ---- the row of a value -------------------------------------------------------------

  /** math.Round: to the nearest integer, halves away from zero. */
  function Round(x: real): int {
    if x >= 0.0 then (x + 0.5).Floor else -((0.5 - x).Floor)
  }

  function Clamp(r: int): (k: nat)
    ensures k < ROWS
  {
    if r < 0 then 0 else if r > ROWS - 1 then ROWS - 1 else r
  }

  function RowOf(v: real, vmin: real, vmax: real): nat
    requires vmin < vmax
  {
    Clamp(Round((vmax - v) / (vmax - vmin) * 7.0))
  }

  lemma RoundMonotone(x: real, y: real)
    requires x <= y
    ensures Round(x) <= Round(y)
  {
  }

  lemma QuotientMonotone(a: real, b: real, d: real)
    requires d > 0.0 && a <= b
    ensures a / d <= b / d
  {
    assert (b - a) / d >= 0.0;
    assert b / d == a / d + (b - a) / d;
  }

  lemma ScaleMonotone(a: real, b: real, d: real)
    requires d > 0.0 && a <= b
    ensures a / d * 7.0 <= b / d * 7.0
  {
    QuotientMonotone(a, b, d);
  }

  lemma ScaleEnds(d: real)
    requires d > 0.0
    ensures 0.0 / d * 7.0 == 0.0 && d / d * 7.0 == 7.0
  {
    assert 0.0 / d == 0.0 && d / d == 1.0;
  }

  lemma RowsReverse(v: real, w: real, vmin: real, vmax: real)
    requires vmin < vmax && v <= w
    ensures RowOf(w, vmin, vmax) <= RowOf(v, vmin, vmax)
  {
    ScaleMonotone(vmax - w, vmax - v, vmax - vmin);
    RoundMonotone((vmax - w) / (vmax - vmin) * 7.0, (vmax - v) / (vmax - vmin) * 7.0);
  }

  /** Inside the axis the rounded row needs no clamping. */
  lemma ClampIsIdle(v: real, vmin: real, vmax: real)
    requires vmin < vmax && vmin <= v <= vmax
    ensures RowOf(v, vmin, vmax) == Round((vmax - v) / (vmax - vmin) * 7.0)
  {
    var d := vmax - vmin;
    ScaleMonotone(0.0, vmax - v, d);
    ScaleMonotone(vmax - v, d, d);
    ScaleEnds(d);
    RoundMonotone(0.0, (vmax - v) / d * 7.0);
    RoundMonotone((vmax - v) / d * 7.0, 7.0);
  }

  /** A value's row is the nearest to its exact height, the lower one of two that are as near. */
  lemma RowIsNearest(v: real, vmin: real, vmax: real)
    requires vmin < vmax && vmin <= v <= vmax
    ensures var height := (vmax - v) / (vmax - vmin) * 7.0;
            height - 0.5 < RowOf(v, vmin, vmax) as real <= height + 0.5
  {
    ClampIsIdle(v, vmin, vmax);
    ScaleMonotone(0.0, vmax - v, vmax - vmin);
    ScaleEnds(vmax - vmin);
    RoundIsNearest((vmax - v) / (vmax - vmin) * 7.0);
  }

  lemma RoundIsNearest(x: real)
    requires x >= 0.0
    ensures x - 0.5 < Round(x) as real <= x + 0.5
  {
  }

  /** Greater values stand higher; the greatest stands in the first row and the least in the last. */
  lemma RowsFollowValues(v: real, w: real, vmin: real, vmax: real)
    requires vmin < vmax
    ensures v <= w ==> RowOf(w, vmin, vmax) <= RowOf(v, vmin, vmax)
    ensures RowOf(vmax, vmin, vmax) == 0 && RowOf(vmin, vmin, vmax) == ROWS - 1
    ensures vmin <= v <= vmax ==> RowOf(v, vmin, vmax) == Round((vmax - v) / (vmax - vmin) * 7.0)
  {
    if v <= w {
      RowsReverse(v, w, vmin, vmax);
    }
    if vmin <= v <= vmax {
      ClampIsIdle(v, vmin, vmax);
    }
    ScaleEnds(vmax - vmin);
  }

  // ---- the picture ----------------------------------------------------------------------

  predicate StrictlyBetween(r: int, a: int, b: int) { a < r < b || b < r < a }

  /** Series s, given by its rows, is plotted in cell (r, x). */
  predicate Plots(s: seq<nat>, r: nat, x: nat) { x < |s| && s[x] == r }

  /** Series s passes cell (r, x) on its way from the column before. */
  predicate Passes(s: seq<nat>, r: nat, x: nat) { 1 <= x < |s| && StrictlyBetween(r, s[x - 1], s[x]) }

  /** What cell (r, x) of the finished chart shows. */
  ghost predicate Shows(cell: char, rows: seq<seq<nat>>, r: nat, x: nat) {
    if exists i | 0 <= i < |rows| :: Plots(rows[i], r, x) then
      exists i | 0 <= i < |rows| ::
        Plots(rows[i], r, x) && cell == MarkerOf(i) && forall k | i < k < |rows| :: !Plots(rows[k], r, x)
    else
      cell == if exists i | 0 <= i < |rows| :: Passes(rows[i], r, x) then '|' else ' '
  }

  /** A cell after one more series. */
  function Drawn(cell: char, s: seq<nat>, marker: char, r: nat, x: nat): char {
    if Plots(s, r, x) then marker
    else if Passes(s, r, x) && cell == ' ' then '|'
    else cell
  }

  function CellOf(rows: seq<seq<nat>>, r: nat, x: nat): char {
    if rows == [] then ' ' else
    var n := |rows| - 1;
    Drawn(CellOf(rows[..n], r, x), rows[n], MarkerOf(n), r, x)
  }

  /** Drawing series after series, with connectors only in blank cells, makes the picture. */
  lemma {:induction false} CellShows(rows: seq<seq<nat>>, r: nat, x: nat)
    ensures Shows(CellOf(rows, r, x), rows, r, x)
  {
    hide Plots, Passes;
    if rows != [] {
      var n := |rows| - 1;
      var front := rows[..n];
      CellShows(front, r, x);
      assert forall i | 0 <= i < n :: front[i] == rows[i];
      var cell := CellOf(front, r, x);
      if Plots(rows[n], r, x) {
      } else if i :| 0 <= i < n && Plots(rows[i], r, x) {
        assert Plots(front[i], r, x);
        var k :| 0 <= k < n && Plots(front[k], r, x) && cell == MarkerOf(k) &&
                 forall l | k < l < n :: !Plots(front[l], r, x);
        assert Plots(rows[k], r, x) && forall l | k < l < |rows| :: !Plots(rows[l], r, x);
      } else {
        assert forall i | 0 <= i < |rows| :: !Plots(rows[i], r, x);
        if i :| 0 <= i < n && Passes(rows[i], r, x) {
          assert Passes(front[i], r, x);
        }
      }
    }
  }

  // ---- the loops --------------------------------------------------------------------------

  ghost predicate IsLeast(m: real, cols: seq<seq<real>>) {
    && (exists i, j | 0 <= i < |cols| && 0 <= j < |cols[i]| :: cols[i][j] == m)
    && (forall i, j | 0 <= i < |cols| && 0 <= j < |cols[i]| :: m <= cols[i][j])
  }

  ghost predicate IsGreatest(m: real, cols: seq<seq<real>>) {
    && (exists i, j | 0 <= i < |cols| && 0 <= j < |cols[i]| :: cols[i][j] == m)
    && (forall i, j | 0 <= i < |cols| && 0 <= j < |cols[i]| :: cols[i][j] <= m)
  }

  /** The running minimum and maximum; the infinities they start from are "none yet". */
  method Extent(cols: seq<seq<real>>) returns (vmin: real, vmax: real)
    requires exists i | 0 <= i < |cols| :: cols[i] != []
    ensures IsLeast(vmin, cols) && IsGreatest(vmax, cols)
  {
    var none := true;
    vmin, vmax := 0.0, 0.0;
    for i := 0 to |cols|
      invariant none <==> forall a | 0 <= a < i :: cols[a] == []
      invariant !none ==> Within(vmin, vmax, cols, i, 0)
    {
      for j := 0 to |cols[i]|
        invariant none <==> (j == 0 && forall a | 0 <= a < i :: cols[a] == [])
        invariant !none ==> Within(vmin, vmax, cols, i, j)
      {
        var v := cols[i][j];
        if none {
          vmin, vmax, none := v, v, false;
        } else {
          vmin := if v < vmin then v else vmin;
          vmax := if v > vmax then v else vmax;
        }
      }
    }
  }

  /** The value is in the first i columns or among the first j of the next. */
  predicate Passed(cols: seq<seq<real>>, i: nat, j: nat, a: int, b: int) {
    0 <= a < |cols| && 0 <= b < |cols[a]| && (a < i || (a == i && b < j))
  }

  /** vmin and vmax are the extremes of the values passed. */
  ghost predicate Within(vmin: real, vmax: real, cols: seq<seq<real>>, i: nat, j: nat) {
    && (exists a, b | Passed(cols, i, j, a, b) :: cols[a][b] == vmin)
    && (exists a, b | Passed(cols, i, j, a, b) :: cols[a][b] == vmax)
    && (forall a, b | Passed(cols, i, j, a, b) :: vmin <= cols[a][b] <= vmax)
  }

  function RowsOf(c: seq<real>, vmin: real, vmax: real): (s: seq<nat>)
    requires vmin < vmax
    ensures |s| == |c| && forall x | 0 <= x < |s| :: s[x] < ROWS && s[x] == RowOf(c[x], vmin, vmax)
  {
    seq(|c|, x requires 0 <= x < |c| => RowOf(c[x], vmin, vmax))
  }

  function AllRows(cols: seq<seq<real>>, vmin: real, vmax: real): (rows: seq<seq<nat>>)
    requires vmin < vmax
    ensures |rows| == |cols| && forall i | 0 <= i < |rows| :: rows[i] == RowsOf(cols[i], vmin, vmax)
  {
    seq(|cols|, i requires 0 <= i < |cols| => RowsOf(cols[i], vmin, vmax))
  }

  /** Writes the marker of one value and the run that connects it to the value before. */
  method DrawPoint(grid: array2<char>, s: seq<nat>, x: nat, marker: char)
    requires grid.Length0 == ROWS && x < |s| <= grid.Length1
    requires forall k | 0 <= k < |s| :: s[k] < ROWS
    modifies grid
    ensures forall r, c | 0 <= r < ROWS && 0 <= c < grid.Length1 ::
              grid[r, c] == if c == x then Drawn(old(grid[r, c]), s, marker, r, x) else old(grid[r, c])
  {
    var r := s[x];
    grid[r, x] := marker;
    if x > 0 {
      var prev := s[x - 1];
      var top := if r < prev then r else prev;
      var bottom := if r < prev then prev else r;
      var rr := top + 1;
      while rr < bottom
        invariant top + 1 <= rr
        invariant forall k, c | 0 <= k < ROWS && 0 <= c < grid.Length1 ::
                    grid[k, c] ==
                    if c == x && (k == r || (k < rr && StrictlyBetween(k, prev, r)))
                    then Drawn(old(grid[k, c]), s, marker, k, x)
                    else old(grid[k, c])
      {
        if grid[rr, x] == ' ' {
          grid[rr, x] := '|';
        }
        rr := rr + 1;
      }
    }
  }

  method FillGrid(cols: seq<seq<real>>, width: nat, vmin: real, vmax: real) returns (grid: array2<char>)
    requires vmin < vmax && forall i | 0 <= i < |cols| :: |cols[i]| <= width
    ensures grid.Length0 == ROWS && grid.Length1 == width
    ensures forall r, x | 0 <= r < ROWS && 0 <= x < width :: Shows(grid[r, x], AllRows(cols, vmin, vmax), r, x)
  {
    grid := new char[ROWS, width]((r, c) => ' ');
    ghost var rows := AllRows(cols, vmin, vmax);
    for i := 0 to |cols|
      invariant grid.Length0 == ROWS && grid.Length1 == width
      invariant forall r, c | 0 <= r < ROWS && 0 <= c < width :: grid[r, c] == CellOf(rows[..i], r, c)
    {
      var s := RowsOf(cols[i], vmin, vmax);
      FillSeries(grid, s, MarkerOf(i));
      forall r, c | 0 <= r < ROWS && 0 <= c < width
        ensures grid[r, c] == CellOf(rows[..i + 1], r, c)
      {
        assert rows[..i + 1][..i] == rows[..i];
      }
    }
    assert rows[..|cols|] == rows;
    forall r, c | 0 <= r < ROWS && 0 <= c < width
      ensures Shows(grid[r, c], rows, r, c)
    {
      CellShows(rows, r, c);
    }
  }

  method FillSeries(grid: array2<char>, s: seq<nat>, marker: char)
    requires grid.Length0 == ROWS && |s| <= grid.Length1
    requires forall k | 0 <= k < |s| :: s[k] < ROWS
    modifies grid
    ensures forall r, c | 0 <= r < ROWS && 0 <= c < grid.Length1 ::
              grid[r, c] == Drawn(old(grid[r, c]), s, marker, r, c)
  {
    for x := 0 to |s|
      invariant forall r, c | 0 <= r < ROWS && 0 <= c < grid.Length1 ::
                  grid[r, c] == if c < x then Drawn(old(grid[r, c]), s, marker, r, c) else old(grid[r, c])
    {
      DrawPoint(grid, s, x, marker);
    }
  }

  /** The chart's grid, or nothing when no series has a sample. */
  method Plot(series: seq<seq<real>>)
    returns (haveData: bool, grid: array2<char>, ghost cols: seq<seq<real>>, ghost vmin: real, ghost vmax: real)
    ensures |cols| == |series| && forall i | 0 <= i < |cols| :: IsDownsampled(cols[i], series[i], 67)
    ensures haveData <==> exists i | 0 <= i < |series| :: series[i] != []
    ensures haveData ==>
              && vmin < vmax && IsLeast(vmin, cols)
              && (IsGreatest(vmax, cols) || (IsGreatest(vmin, cols) && vmax == vmin + 1.0))
              && grid.Length0 == 8 && grid.Length1 <= 67
              && (forall i | 0 <= i < |cols| :: |cols[i]| <= grid.Length1)
              && (exists i | 0 <= i < |cols| :: |cols[i]| == grid.Length1)
              && forall r, x | 0 <= r < ROWS && 0 <= x < grid.Length1 ::
                   Shows(grid[r, x], AllRows(cols, vmin, vmax), r, x)
  {
    var columns: seq<seq<real>> := [];
    var width := 0;
    haveData := false;
    for i := 0 to |series|
      invariant |columns| == i
      invariant forall k | 0 <= k < i :: IsDownsampled(columns[k], series[k], COLS) && |columns[k]| <= width
      invariant width <= COLS
      invariant haveData <==> exists k | 0 <= k < i :: series[k] != []
      invariant haveData ==> exists k | 0 <= k < i :: |columns[k]| == width && columns[k] != []
      invariant !haveData ==> width == 0
    {
      var c := Reduce(series[i], COLS);
      columns := columns + [c];
      if |c| > 0 {
        haveData := true;
      }
      if |c| > width {
        width := |c|;
      }
    }
    cols, vmin, vmax := columns, 0.0, 0.0;
    if !haveData {
      grid := new char[0, 0];
      return;
    }
    var low, high := Extent(columns);
    if low == high {
      high := low + 1.0;
    }
    vmin, vmax := low, high;
    grid := FillGrid(columns, width, low, high);
  }

  // ---- one series is one unbroken line ------------------------------------------------------

  /** In a chart of one series every row from one value to the next is marked in one of their two columns. */
  lemma LineIsUnbroken(s: seq<nat>, x: nat, r: nat, left: char, right: char)
    requires 1 <= x < |s|
    requires Shows(left, [s], r, x - 1) && Shows(right, [s], r, x)
    requires s[x - 1] <= r <= s[x] || s[x] <= r <= s[x - 1]
    ensures left != ' ' || right != ' '
  {
    assert MarkerOf(0) != ' ';
    var rows := [s];
    assert rows[0] == s;
    if r == s[x] {
      assert Plots(rows[0], r, x);
    } else if r == s[x - 1] {
      assert Plots(rows[0], r, x - 1);
    } else {
      assert Passes(rows[0], r, x);
    }
  }
}
