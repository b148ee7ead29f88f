/** Maze levels, grid cells and the row-major scan order the stair search follows. */
module MazeGrid {

  datatype Option<T> = None | Some(value: T)

  /** One maze level: `height` rows (indexed by y) of `width` cells (indexed by x);
      `true` marks a passage cell, `false` a wall cell. */
  type Maze = seq<seq<bool>>

  datatype Cell = Cell(x: int, y: int)

  /** A recorded staircase: `x` is the anchor column (the run's last cell minus 4),
      `level` the lower of the two levels it joins, `z` the grid row. */
  datatype Stair = Stair(x: int, level: int, z: int)

  /** Stairs listed by strictly increasing level. */
  predicate LevelsIncreasing(r: seq<Stair>)
  {
    forall j, k :: 0 <= j < k < |r| ==> r[j].level < r[k].level
  }

  predicate Grid(m: Maze, width: int, height: int)
  {
    |m| == height && forall r :: 0 <= r < |m| ==> |m[r]| == width
  }

  predicate InGrid(m: Maze, c: Cell)
  {
    0 <= c.y < |m| && 0 <= c.x < |m[c.y]|
  }

  /** A cell is a candidate for a stair when it is a wall in both levels. */
  predicate Eligible(lower: Maze, upper: Maze, c: Cell)
  {
    InGrid(lower, c) && InGrid(upper, c) && !lower[c.y][c.x] && !upper[c.y][c.x]
  }

  /** The cells (x0, y), (x0 + 1, y), ..., (width - 1, y). */
  function Row(x0: int, y: int, width: int): seq<Cell>
  {
    seq(if x0 < width then width - x0 else 0, i => Cell(x0 + i, y))
  }

  /** The cells visited by a scan that starts at column `x0` of row `y`,
      finishes that row, then visits every later row from column 0. */
  function ScanOrder(x0: int, y: int, width: int, height: int): seq<Cell>
    decreases height - y
  {
    if y >= height then [] else Row(x0, y, width) + ScanOrder(0, y + 1, width, height)
  }

  /** Every visited cell lies in the grid at or below the start row; on the start
      row the scan moves one column at a time from `x0`, and no cell is further
      right than its distance from the start allows. */
  lemma {:induction false} ScanOrderBounds(x0: int, y: int, width: int, height: int)
    requires 0 <= x0
    decreases height - y
    ensures forall i :: 0 <= i < |ScanOrder(x0, y, width, height)| ==>
              y <= ScanOrder(x0, y, width, height)[i].y < height && 0 <= ScanOrder(x0, y, width, height)[i].x < width
    ensures forall i :: 0 <= i < |ScanOrder(x0, y, width, height)| && ScanOrder(x0, y, width, height)[i].y == y ==>
              ScanOrder(x0, y, width, height)[i].x == x0 + i
    ensures forall i :: 0 <= i < |ScanOrder(x0, y, width, height)| ==> ScanOrder(x0, y, width, height)[i].x <= x0 + i
  {
    if y < height {
      ScanOrderBounds(0, y + 1, width, height);
      var row := Row(x0, y, width);
      var rest := ScanOrder(0, y + 1, width, height);
      var s := ScanOrder(x0, y, width, height);
      assert s == row + rest;
      forall i | 0 <= i < |s|
        ensures y <= s[i].y < height && 0 <= s[i].x < width
        ensures s[i].y == y ==> s[i].x == x0 + i
        ensures s[i].x <= x0 + i
      {
        if i >= |row| {
          assert s[i] == rest[i - |row|];
        } else {
          assert s[i] == row[i];
        }
      }
    }
  }

  /** `a` comes strictly before `b` in row-major order. */
  predicate RowMajorBefore(a: Cell, b: Cell)
  {
    a.y < b.y || (a.y == b.y && a.x < b.x)
  }

  /** The scan visits cells in strictly increasing row-major order. */
  lemma {:induction false} ScanOrderSorted(x0: int, y: int, width: int, height: int)
    requires 0 <= x0
    decreases height - y
    ensures forall i, j :: 0 <= i < j < |ScanOrder(x0, y, width, height)| ==>
              RowMajorBefore(ScanOrder(x0, y, width, height)[i], ScanOrder(x0, y, width, height)[j])
  {
    if y < height {
      ScanOrderSorted(0, y + 1, width, height);
      ScanOrderBounds(0, y + 1, width, height);
      var row := Row(x0, y, width);
      var rest := ScanOrder(0, y + 1, width, height);
      var s := ScanOrder(x0, y, width, height);
      assert s == row + rest;
      forall i, j | 0 <= i < j < |s|
        ensures RowMajorBefore(s[i], s[j])
      {
        if i >= |row| {
          assert s[i] == rest[i - |row|] && s[j] == rest[j - |row|];
        } else if j >= |row| {
          assert s[i] == row[i] && s[j] == rest[j - |row|];
        } else {
          assert s[i] == row[i] == Cell(x0 + i, y);
          assert s[j] == row[j] == Cell(x0 + j, y);
        }
      }
    }
  }

  /** Every cell at or after the start position, up to the last row, is visited. */
  lemma {:induction false} ScanOrderComplete(x0: int, y: int, width: int, height: int, c: Cell)
    requires 0 <= x0
    requires y <= c.y < height && 0 <= c.x < width && (c.y == y ==> x0 <= c.x)
    ensures c in ScanOrder(x0, y, width, height)
    decreases height - y
  {
    var row := Row(x0, y, width);
    assert ScanOrder(x0, y, width, height) == row + ScanOrder(0, y + 1, width, height);
    if c.y == y {
      assert row[c.x - x0] == c;
    } else {
      ScanOrderComplete(0, y + 1, width, height, c);
    }
  }

  /** Stepping back `d` places in the scan from a cell whose column is at least `d`
      stays on the same row: the `d` cells before it are its left neighbours. */
  lemma {:induction false} ScanBack(x0: int, y: int, width: int, height: int, i: int, d: int)
    requires 0 <= x0 && 0 <= d <= i < |ScanOrder(x0, y, width, height)|
    requires ScanOrder(x0, y, width, height)[i].x >= d
    ensures ScanOrder(x0, y, width, height)[i - d] ==
            Cell(ScanOrder(x0, y, width, height)[i].x - d, ScanOrder(x0, y, width, height)[i].y)
    decreases height - y
  {
    var s := ScanOrder(x0, y, width, height);
    var row := Row(x0, y, width);
    var rest := ScanOrder(0, y + 1, width, height);
    assert s == row + rest;
    if i >= |row| {
      assert i - d >= |row| by {
        ScanOrderBounds(0, y + 1, width, height);
        assert s[i] == rest[i - |row|];
      }
      ScanBack(0, y + 1, width, height, i - |row|, d);
    }
  }

  /** A scan that has reached a cell inside the grid visits that cell next, then
      continues from its right neighbour. */
  lemma ScanStep(cells: seq<Cell>, n: int, x: int, y: int, width: int, height: int)
    requires 0 <= n <= |cells| && 0 <= x < width && y < height
    requires cells[n..] == ScanOrder(x, y, width, height)
    ensures n < |cells| && cells[n] == Cell(x, y)
    ensures cells[n + 1..] == ScanOrder(x + 1, y, width, height)
  {
  }

  /** A scan that has run past the end of a row continues at the start of the next. */
  lemma ScanWrap(cells: seq<Cell>, n: int, x: int, y: int, width: int, height: int)
    requires 0 <= n <= |cells| && width <= x && y < height
    requires cells[n..] == ScanOrder(x, y, width, height)
    ensures cells[n..] == ScanOrder(0, y + 1, width, height)
  {
  }
}
