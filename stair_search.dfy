/** The stair-placement search as a specification: where a stair goes between two
    adjacent levels, and the list of stairs the constructor builds level by level. */
module StairSearch {
  import opened MazeGrid

  /** A run of five eligible cells ends just before index `k` of the scan. */
  predicate RunEndsAt(lower: Maze, upper: Maze, cells: seq<Cell>, k: int)
  {
    5 <= k <= |cells| && forall j :: k - 5 <= j < k ==> Eligible(lower, upper, cells[j])
  }

  /** `k` is the first place in the scan where such a run ends. */
  predicate FirstRunAt(lower: Maze, upper: Maze, cells: seq<Cell>, k: int)
  {
    RunEndsAt(lower, upper, cells, k) && forall j :: 5 <= j < k ==> !RunEndsAt(lower, upper, cells, j)
  }

  /** The search's run counter after scanning `s`: the number of eligible cells at
      the end of `s`, whatever rows they lie on. */
  function Trail(lower: Maze, upper: Maze, s: seq<Cell>): (n: nat)
    ensures n <= |s|
  {
    if s == [] then 0
    else if Eligible(lower, upper, s[|s| - 1]) then Trail(lower, upper, s[..|s| - 1]) + 1
    else 0
  }

  /** The counter is at least `n` exactly when the last `n` cells scanned are eligible. */
  lemma {:induction false} TrailIsRun(lower: Maze, upper: Maze, s: seq<Cell>, n: nat)
    requires n <= |s|
    ensures Trail(lower, upper, s) >= n <==> forall j :: |s| - n <= j < |s| ==> Eligible(lower, upper, s[j])
  {
    if n > 0 {
      var init := s[..|s| - 1];
      TrailIsRun(lower, upper, init, n - 1);
      assert forall j :: 0 <= j < |init| ==> init[j] == s[j];
    }
  }

  /** After the first `n` cells of a scan, a run of five ends there exactly when the
      counter has reached five. */
  lemma RunEndsAtCounter(lower: Maze, upper: Maze, cells: seq<Cell>, n: int)
    requires 0 <= n <= |cells|
    ensures RunEndsAt(lower, upper, cells, n) <==> Trail(lower, upper, cells[..n]) >= 5
  {
    if n >= 5 {
      TrailIsRun(lower, upper, cells[..n], 5);
    }
  }

  /** Visiting one more cell of the scan resets the counter on a blocked cell and
      bumps it on an eligible one. */
  lemma TrailStep(lower: Maze, upper: Maze, cells: seq<Cell>, n: int)
    requires 0 <= n < |cells|
    ensures Trail(lower, upper, cells[..n + 1]) ==
            if Eligible(lower, upper, cells[n]) then Trail(lower, upper, cells[..n]) + 1 else 0
  {
    assert cells[..n + 1][..n] == cells[..n];
  }

  /** The least `k >= from` at which a run of five eligible cells ends, if any. */
  function FirstRun(lower: Maze, upper: Maze, cells: seq<Cell>, from: nat): (r: Option<nat>)
    requires 5 <= from
    decreases |cells| + 1 - from
    ensures r.Some? ==> from <= r.value <= |cells|
  {
    if from > |cells| then None
    else if RunEndsAt(lower, upper, cells, from) then Some(from)
    else FirstRun(lower, upper, cells, from + 1)
  }

  /** FirstRun finds a run at or after `from`, and no run ends between `from` and
      the one it finds (or anywhere from `from` on, when it finds none). */
  lemma {:induction false} FirstRunSpec(lower: Maze, upper: Maze, cells: seq<Cell>, from: nat)
    requires 5 <= from
    decreases |cells| + 1 - from
    ensures FirstRun(lower, upper, cells, from).Some? ==>
              from <= FirstRun(lower, upper, cells, from).value &&
              RunEndsAt(lower, upper, cells, FirstRun(lower, upper, cells, from).value)
    ensures forall k :: from <= k && (FirstRun(lower, upper, cells, from).None? || k < FirstRun(lower, upper, cells, from).value) ==>
              !RunEndsAt(lower, upper, cells, k)
  {
    if from <= |cells| && !RunEndsAt(lower, upper, cells, from) {
      FirstRunSpec(lower, upper, cells, from + 1);
    }
  }

  /** The cell where the search stops: the last cell of the first run of five cells
      that are walls in both levels, scanning row-major from `cursor`; None if the
      scan reaches the end of the grid without such a run. */
  function FindStair(lower: Maze, upper: Maze, width: int, height: int, cursor: Cell): Option<Cell>
  {
    var cells := ScanOrder(cursor.x, cursor.y, width, height);
    match FirstRun(lower, upper, cells, 5)
    case None => None
    case Some(k) => Some(cells[k - 1])
  }

  /** A found cell lies in the grid, not above the cursor's row, is a wall in both
      levels, and on the cursor's row lies at least four columns past the cursor. */
  lemma FindStairFound(lower: Maze, upper: Maze, width: int, height: int, cursor: Cell)
    requires 0 <= cursor.x && 0 <= cursor.y
    requires FindStair(lower, upper, width, height, cursor).Some?
    ensures var c := FindStair(lower, upper, width, height, cursor).value;
            && cursor.y <= c.y < height && 0 <= c.x < width
            && Eligible(lower, upper, c)
            && (c.y == cursor.y ==> c.x >= cursor.x + 4)
  {
    var cells := ScanOrder(cursor.x, cursor.y, width, height);
    FirstRunSpec(lower, upper, cells, 5);
    ScanOrderBounds(cursor.x, cursor.y, width, height);
    var k := FirstRun(lower, upper, cells, 5).value;
    assert RunEndsAt(lower, upper, cells, k);
    assert FindStair(lower, upper, width, height, cursor) == Some(cells[k - 1]);
  }

  /** The search reports exactly the first run of five eligible cells in the scan,
      and reports none only when the scan holds no such run. */
  lemma FindStairIsFirstRun(lower: Maze, upper: Maze, width: int, height: int, cursor: Cell)
    ensures FindStair(lower, upper, width, height, cursor).None? ==>
            forall k :: !RunEndsAt(lower, upper, ScanOrder(cursor.x, cursor.y, width, height), k)
    ensures FindStair(lower, upper, width, height, cursor).Some? ==>
            exists k :: FirstRunAt(lower, upper, ScanOrder(cursor.x, cursor.y, width, height), k) &&
                        FindStair(lower, upper, width, height, cursor).value == ScanOrder(cursor.x, cursor.y, width, height)[k - 1]
  {
    var cells := ScanOrder(cursor.x, cursor.y, width, height);
    var first := FirstRun(lower, upper, cells, 5);
    FirstRunSpec(lower, upper, cells, 5);
    if first.Some? {
      assert FindStair(lower, upper, width, height, cursor) == Some(cells[first.value - 1]);
      assert RunEndsAt(lower, upper, cells, first.value);
      assert FirstRunAt(lower, upper, cells, first.value);
    } else {
      assert FindStair(lower, upper, width, height, cursor) == None;
      assert forall k :: !RunEndsAt(lower, upper, cells, k);
    }
  }

  /** A scan that holds no run reports nothing. */
  lemma FindStairNone(lower: Maze, upper: Maze, width: int, height: int, cursor: Cell)
    requires forall k :: 5 <= k <= |ScanOrder(cursor.x, cursor.y, width, height)| ==>
               !RunEndsAt(lower, upper, ScanOrder(cursor.x, cursor.y, width, height), k)
    ensures FindStair(lower, upper, width, height, cursor) == None
  {
    var cells := ScanOrder(cursor.x, cursor.y, width, height);
    FirstRunSpec(lower, upper, cells, 5);
  }

  /** Conversely, the first run in the scan is the one the search reports. */
  lemma FindStairAt(lower: Maze, upper: Maze, width: int, height: int, cursor: Cell, k: int)
    requires 0 <= cursor.x && 0 <= cursor.y
    requires FirstRunAt(lower, upper, ScanOrder(cursor.x, cursor.y, width, height), k)
    ensures var cells := ScanOrder(cursor.x, cursor.y, width, height);
            FindStair(lower, upper, width, height, cursor) == Some(cells[k - 1])
  {
    var cells := ScanOrder(cursor.x, cursor.y, width, height);
    var r := FindStair(lower, upper, width, height, cursor);
    FindStairIsFirstRun(lower, upper, width, height, cursor);
    assert r.Some?;
    var k' :| FirstRunAt(lower, upper, cells, k') && r.value == cells[k' - 1];
    assert !(k' < k) && !(k < k');
  }

  /** Every grid cell of the run that lies in the stair's row is a wall in both levels;
      when the found column is at least 4, these are all five cells ending at it. */
  lemma StairRunEligible(lower: Maze, upper: Maze, width: int, height: int, cursor: Cell, c: Cell)
    requires 0 <= cursor.x && 0 <= cursor.y
    requires FindStair(lower, upper, width, height, cursor) == Some(c)
    ensures forall x :: 0 <= x && c.x - 4 <= x <= c.x ==> Eligible(lower, upper, Cell(x, c.y))
  {
    var cells := ScanOrder(cursor.x, cursor.y, width, height);
    FindStairIsFirstRun(lower, upper, width, height, cursor);
    var k :| FirstRunAt(lower, upper, cells, k) && c == cells[k - 1];
    forall x | 0 <= x && c.x - 4 <= x <= c.x
      ensures Eligible(lower, upper, Cell(x, c.y))
    {
      RunCellInRow(lower, upper, cursor, width, height, k, x);
    }
  }

  /** A cell left of a run's last cell, at most four columns back and inside the
      grid, lies in the run and so is eligible. */
  lemma RunCellInRow(lower: Maze, upper: Maze, cursor: Cell, width: int, height: int, k: int, x: int)
    requires 0 <= cursor.x && 0 <= cursor.y
    requires var cells := ScanOrder(cursor.x, cursor.y, width, height);
             RunEndsAt(lower, upper, cells, k) && 0 <= x && cells[k - 1].x - 4 <= x <= cells[k - 1].x
    ensures var last := ScanOrder(cursor.x, cursor.y, width, height)[k - 1];
            Eligible(lower, upper, Cell(x, last.y))
  {
    var cells := ScanOrder(cursor.x, cursor.y, width, height);
    var d := cells[k - 1].x - x;
    ScanBack(cursor.x, cursor.y, width, height, k - 1, d);
    assert cells[k - 1 - d] == Cell(x, cells[k - 1].y);
    assert k - 5 <= k - 1 - d < k;
  }

  /** The search as a state machine: at column `x` of row `y` with `free` eligible
      cells just behind, visit the cell, update the counter, and stop once it reaches
      five; past the end of a row, go on at column 0 of the next row. */
  function Scan(lower: Maze, upper: Maze, width: int, height: int, x: int, y: int, free: int): Option<Cell>
    decreases height - y, width - x
  {
    if y >= height then None
    else if x >= width then Scan(lower, upper, width, height, 0, y + 1, free)
    else
      var f := if Eligible(lower, upper, Cell(x, y)) then free + 1 else 0;
      if f == 5 then Some(Cell(x, y)) else Scan(lower, upper, width, height, x + 1, y, f)
  }

  /** Midway through the scan from `cursor`, with the first `n` cells visited, no run
      found among them and `free` their counter, the state machine ends where the
      first-run search does. */
  lemma {:induction false} ScanFrom(lower: Maze, upper: Maze, width: int, height: int, cursor: Cell,
                                    n: int, x: int, y: int, free: int)
    requires 0 <= cursor.x && 0 <= cursor.y && 0 <= x
    requires 0 <= n <= |ScanOrder(cursor.x, cursor.y, width, height)|
    requires ScanOrder(cursor.x, cursor.y, width, height)[n..] == ScanOrder(x, y, width, height)
    requires free == Trail(lower, upper, ScanOrder(cursor.x, cursor.y, width, height)[..n]) && free < 5
    requires forall k :: 5 <= k <= n ==> !RunEndsAt(lower, upper, ScanOrder(cursor.x, cursor.y, width, height), k)
    ensures Scan(lower, upper, width, height, x, y, free) == FindStair(lower, upper, width, height, cursor)
    decreases height - y, width - x
  {
    if y >= height {
      assert ScanOrder(x, y, width, height) == [];
      FindStairNone(lower, upper, width, height, cursor);
    } else if x >= width {
      ScanWrap(ScanOrder(cursor.x, cursor.y, width, height), n, x, y, width, height);
      ScanFrom(lower, upper, width, height, cursor, n, 0, y + 1, free);
      assert Scan(lower, upper, width, height, x, y, free) == Scan(lower, upper, width, height, 0, y + 1, free);
    } else {
      ScanVisit(lower, upper, width, height, cursor, n, x, y, free);
      var f := if Eligible(lower, upper, Cell(x, y)) then free + 1 else 0;
      if f != 5 {
        ScanFrom(lower, upper, width, height, cursor, n + 1, x + 1, y, f);
        assert Scan(lower, upper, width, height, x, y, free) == Scan(lower, upper, width, height, x + 1, y, f);
      } else {
        assert Scan(lower, upper, width, height, x, y, free) == Some(Cell(x, y));
      }
    }
  }

  /** Visiting one cell of the scan: the counter is updated, a count of five means the
      search stops there, and otherwise the scanned prefix still holds no run. */
  lemma ScanVisit(lower: Maze, upper: Maze, width: int, height: int, cursor: Cell,
                  n: int, x: int, y: int, free: int)
    requires 0 <= cursor.x && 0 <= cursor.y && 0 <= x < width && y < height
    requires 0 <= n <= |ScanOrder(cursor.x, cursor.y, width, height)|
    requires ScanOrder(cursor.x, cursor.y, width, height)[n..] == ScanOrder(x, y, width, height)
    requires free == Trail(lower, upper, ScanOrder(cursor.x, cursor.y, width, height)[..n]) && free < 5
    requires forall k :: 5 <= k <= n ==> !RunEndsAt(lower, upper, ScanOrder(cursor.x, cursor.y, width, height), k)
    ensures var f := if Eligible(lower, upper, Cell(x, y)) then free + 1 else 0;
            && n + 1 <= |ScanOrder(cursor.x, cursor.y, width, height)|
            && ScanOrder(cursor.x, cursor.y, width, height)[n + 1..] == ScanOrder(x + 1, y, width, height)
            && f == Trail(lower, upper, ScanOrder(cursor.x, cursor.y, width, height)[..n + 1])
            && (f == 5 ==> FindStair(lower, upper, width, height, cursor) == Some(Cell(x, y)))
            && (f != 5 ==> forall k :: 5 <= k <= n + 1 ==> !RunEndsAt(lower, upper, ScanOrder(cursor.x, cursor.y, width, height), k))
  {
    var cells := ScanOrder(cursor.x, cursor.y, width, height);
    ScanStep(cells, n, x, y, width, height);
    TrailStep(lower, upper, cells, n);
    RunEndsAtCounter(lower, upper, cells, n + 1);
    if Trail(lower, upper, cells[..n + 1]) == 5 {
      FindStairAt(lower, upper, width, height, cursor, n + 1);
    }
  }

  /** The state machine started at the cursor with an empty counter finds exactly
      what the first-run search finds. */
  lemma ScanIsFindStair(lower: Maze, upper: Maze, width: int, height: int, cursor: Cell)
    requires 0 <= cursor.x && 0 <= cursor.y
    ensures Scan(lower, upper, width, height, cursor.x, cursor.y, 0) == FindStair(lower, upper, width, height, cursor)
  {
    var cells := ScanOrder(cursor.x, cursor.y, width, height);
    assert cells[0..] == cells;
    ScanFrom(lower, upper, width, height, cursor, 0, cursor.x, cursor.y, 0);
  }

  /** Where the search leaves the cursor: on the found cell, or at column 0 of the
      same row when a search that entered the row loop fails. */
  function NextCursor(height: int, cursor: Cell, found: Option<Cell>): Cell
  {
    match found
    case Some(c) => c
    case None => if cursor.y < height then Cell(0, cursor.y) else cursor
  }

  /** The entry appended for the level pair `level`, `level + 1`. */
  function Recorded(level: int, found: Option<Cell>): seq<Stair>
  {
    match found
    case Some(c) => [Stair(c.x - 4, level, c.y)]
    case None => []
  }

  /** The stairs recorded for level pairs `i`, `i + 1`, ... when the search cursor
      starts at `cursor`: the constructor's loop over adjacent levels as a fold. */
  function BuildStairs(mazes: seq<Maze>, width: int, height: int, i: nat, cursor: Cell): seq<Stair>
    decreases |mazes| - i
  {
    if i + 1 >= |mazes| then []
    else
      var found := FindStair(mazes[i], mazes[i + 1], width, height, cursor);
      Recorded(i, found) + BuildStairs(mazes, width, height, i + 1, NextCursor(height, cursor, found))
  }

  /** One step of the fold: after the stairs `done` and the search between levels `i`
      and `i + 1`, the rest of the list is the fold from level `i + 1`. */
  lemma BuildStairsStep(mazes: seq<Maze>, width: int, height: int, i: nat, cursor: Cell, done: seq<Stair>)
    requires i + 1 < |mazes|
    ensures var found := FindStair(mazes[i], mazes[i + 1], width, height, cursor);
            done + BuildStairs(mazes, width, height, i, cursor) ==
            (done + Recorded(i, found)) + BuildStairs(mazes, width, height, i + 1, NextCursor(height, cursor, found))
  {
  }

  /** At most one stair per adjacent level pair, each joining a pair from `i` on,
      each on a row at or below the cursor's, with its anchor column (the run's last
      cell minus 4) inside the grid shifted left by four. */
  lemma {:induction false} BuildStairsBounds(mazes: seq<Maze>, width: int, height: int, i: nat, cursor: Cell)
    requires 0 <= cursor.x && 0 <= cursor.y
    decreases |mazes| - i
    ensures var r := BuildStairs(mazes, width, height, i, cursor);
            && |r| <= (if i < |mazes| then |mazes| - 1 - i else 0)
            && (forall j :: 0 <= j < |r| ==> i <= r[j].level < |mazes| - 1)
            && (forall j :: 0 <= j < |r| ==> cursor.y <= r[j].z < height && -4 <= r[j].x < width - 4)
  {
    if i + 1 < |mazes| {
      var found := FindStair(mazes[i], mazes[i + 1], width, height, cursor);
      var next := NextCursor(height, cursor, found);
      if found.Some? {
        FindStairFound(mazes[i], mazes[i + 1], width, height, cursor);
      }
      BuildStairsBounds(mazes, width, height, i + 1, next);
      var rest := BuildStairs(mazes, width, height, i + 1, next);
      var r := BuildStairs(mazes, width, height, i, cursor);
      assert r == Recorded(i, found) + rest;
      forall j | 0 <= j < |r|
        ensures i <= r[j].level < |mazes| - 1
        ensures cursor.y <= r[j].z < height && -4 <= r[j].x < width - 4
      {
        var h := |Recorded(i, found)|;
        if j >= h {
          assert r[j] == rest[j - h];
        } else {
          assert r[j] == Stair(found.value.x - 4, i, found.value.y);
        }
      }
    }
  }

  /** A fold from level pair `i` whose first stair is for pair `i` itself starts with
      the stair the search between levels `i` and `i + 1` finds. */
  lemma LeadingStair(mazes: seq<Maze>, width: int, height: int, i: nat, cursor: Cell)
    requires 0 <= cursor.x && 0 <= cursor.y
    requires var r := BuildStairs(mazes, width, height, i, cursor);
             |r| > 0 && r[0].level == i
    ensures i + 1 < |mazes|
    ensures var found := FindStair(mazes[i], mazes[i + 1], width, height, cursor);
            && found.Some?
            && BuildStairs(mazes, width, height, i, cursor)[0] == Stair(found.value.x - 4, i, found.value.y)
  {
    var found := FindStair(mazes[i], mazes[i + 1], width, height, cursor);
    var next := NextCursor(height, cursor, found);
    if found.Some? {
      FindStairFound(mazes[i], mazes[i + 1], width, height, cursor);
    } else {
      BuildStairsBounds(mazes, width, height, i + 1, next);
    }
  }

  /** Stairs for two consecutive level pairs come from two consecutive successful
      searches; when they lie on the same row, the second one's anchor is at least
      four columns right of the first one's. */
  lemma {:induction false} ConsecutiveStairsApart(mazes: seq<Maze>, width: int, height: int, i: nat, cursor: Cell)
    requires 0 <= cursor.x && 0 <= cursor.y
    decreases |mazes| - i
    ensures var r := BuildStairs(mazes, width, height, i, cursor);
            forall j :: 0 <= j < |r| - 1 && r[j + 1].level == r[j].level + 1 && r[j + 1].z == r[j].z ==>
              r[j + 1].x >= r[j].x + 4
  {
    if i + 1 < |mazes| {
      var found := FindStair(mazes[i], mazes[i + 1], width, height, cursor);
      var next := NextCursor(height, cursor, found);
      if found.Some? {
        FindStairFound(mazes[i], mazes[i + 1], width, height, cursor);
      }
      var rest := BuildStairs(mazes, width, height, i + 1, next);
      var r := BuildStairs(mazes, width, height, i, cursor);
      assert r == Recorded(i, found) + rest;
      ConsecutiveStairsApart(mazes, width, height, i + 1, next);
      if found.Some? && |rest| > 0 && rest[0].level == i + 1 {
        LeadingStair(mazes, width, height, i + 1, next);
        FindStairFound(mazes[i + 1], mazes[i + 2], width, height, next);
      }
      forall j | 0 <= j < |r| - 1 && r[j + 1].level == r[j].level + 1 && r[j + 1].z == r[j].z
        ensures r[j + 1].x >= r[j].x + 4
      {
        var h := |Recorded(i, found)|;
        if j >= h {
          assert r[j] == rest[j - h] && r[j + 1] == rest[j + 1 - h];
        } else {
          assert r[j] == Stair(found.value.x - 4, i, found.value.y) && r[j + 1] == rest[0];
        }
      }
    }
  }

  /** Stairs listed by strictly increasing level, on rows that never go back. */
  predicate StairsSorted(r: seq<Stair>)
  {
    LevelsIncreasing(r) && forall j, k :: 0 <= j < k < |r| ==> r[j].z <= r[k].z
  }

  /** The in-grid cells of each stair's columns, and the cell after them where the
      run ended, are walls in both levels the stair joins. */
  predicate OnWalls(mazes: seq<Maze>, r: seq<Stair>)
  {
    forall j :: 0 <= j < |r| ==> StairOnWalls(mazes, r[j])
  }

  predicate StairOnWalls(mazes: seq<Maze>, s: Stair)
  {
    0 <= s.level < |mazes| - 1 &&
    forall x :: 0 <= x && s.x <= x <= s.x + 4 ==> Eligible(mazes[s.level], mazes[s.level + 1], Cell(x, s.z))
  }

  /** Stairs are listed by strictly increasing level, and their rows never go back:
      the cursor only moves forward between searches. */
  lemma {:induction false} StairsOrdered(mazes: seq<Maze>, width: int, height: int, i: nat, cursor: Cell)
    requires 0 <= cursor.x && 0 <= cursor.y
    decreases |mazes| - i
    ensures StairsSorted(BuildStairs(mazes, width, height, i, cursor))
  {
    if i + 1 < |mazes| {
      var found := FindStair(mazes[i], mazes[i + 1], width, height, cursor);
      var next := NextCursor(height, cursor, found);
      if found.Some? {
        FindStairFound(mazes[i], mazes[i + 1], width, height, cursor);
      }
      var rest := BuildStairs(mazes, width, height, i + 1, next);
      StairsOrdered(mazes, width, height, i + 1, next);
      BuildStairsBounds(mazes, width, height, i + 1, next);
      assert BuildStairs(mazes, width, height, i, cursor) == Recorded(i, found) + rest;
      SortedAppend(Recorded(i, found), rest);
    }
  }

  /** A sorted list stays sorted behind a sorted prefix whose stairs are all for lower
      levels and on no later rows than its own. */
  lemma SortedAppend(front: seq<Stair>, back: seq<Stair>)
    requires StairsSorted(front) && StairsSorted(back)
    requires forall a, b :: 0 <= a < |front| && 0 <= b < |back| ==>
               front[a].level < back[b].level && front[a].z <= back[b].z
    ensures StairsSorted(front + back)
  {
    var r := front + back;
    forall j, k | 0 <= j < k < |r|
      ensures r[j].level < r[k].level && r[j].z <= r[k].z
    {
      if k < |front| {
        assert r[j] == front[j] && r[k] == front[k];
      } else if j < |front| {
        assert r[j] == front[j] && r[k] == back[k - |front|];
      } else {
        assert r[j] == back[j - |front|] && r[k] == back[k - |front|];
      }
    }
  }

  /** Every in-grid cell of a recorded stair's four columns, and the run's last cell
      after them, is a wall in both levels the stair joins. */
  lemma {:induction false} StairsOnWalls(mazes: seq<Maze>, width: int, height: int, i: nat, cursor: Cell)
    requires 0 <= cursor.x && 0 <= cursor.y
    decreases |mazes| - i
    ensures OnWalls(mazes, BuildStairs(mazes, width, height, i, cursor))
  {
    if i + 1 < |mazes| {
      var found := FindStair(mazes[i], mazes[i + 1], width, height, cursor);
      var next := NextCursor(height, cursor, found);
      var rest := BuildStairs(mazes, width, height, i + 1, next);
      var r := BuildStairs(mazes, width, height, i, cursor);
      var h := |Recorded(i, found)|;
      assert r == Recorded(i, found) + rest;
      if found.Some? {
        FindStairFound(mazes[i], mazes[i + 1], width, height, cursor);
        StairRunEligible(mazes[i], mazes[i + 1], width, height, cursor, found.value);
      }
      StairsOnWalls(mazes, width, height, i + 1, next);
      forall j | 0 <= j < |r|
        ensures StairOnWalls(mazes, r[j])
      {
        if j >= h {
          assert r[j] == rest[j - h];
        } else {
          assert r[j] == Stair(found.value.x - 4, i, found.value.y);
        }
      }
    }
  }
}
