/** A concrete construction showing how the search cursor behaves after a failed search. */
module CursorExample {
  import opened MazeGrid
  import opened StairSearch

  /** Five levels of one row of six cells. */
  const Walls: Maze := [[false, false, false, false, false, false]]
  const Solid: Maze := [[true, true, true, true, true, true]]
  const OpenFirst: Maze := [[true, false, false, false, false, false]]
  const Levels: seq<Maze> := [OpenFirst, Walls, Solid, Walls, Walls]

  lemma SearchPair0()
    ensures FindStair(OpenFirst, Walls, 6, 1, Cell(0, 0)) == Some(Cell(5, 0))
  {
    ScanIsFindStair(OpenFirst, Walls, 6, 1, Cell(0, 0));
  }

  lemma SearchPair1()
    ensures FindStair(Walls, Solid, 6, 1, Cell(5, 0)) == None
  {
  }

  lemma SearchPair2()
    ensures FindStair(Solid, Walls, 6, 1, Cell(0, 0)) == None
  {
  }

  lemma SearchPair3()
    ensures FindStair(Walls, Walls, 6, 1, Cell(0, 0)) == Some(Cell(4, 0))
  {
  }

  /** After a failed search the cursor goes back to column 0 of its row, so a later
      stair on the same row can be anchored further left than an earlier one. */
  lemma RowCanMoveLeft()
    ensures BuildStairs(Levels, 6, 1, 0, Cell(0, 0)) == [Stair(1, 0, 0), Stair(0, 3, 0)]
  {
    assert |Levels| == 5;
    assert BuildStairs(Levels, 6, 1, 4, Cell(4, 0)) == [];
    assert BuildStairs(Levels, 6, 1, 3, Cell(0, 0)) == [Stair(0, 3, 0)] by {
      assert Levels[3] == Walls && Levels[4] == Walls;
      SearchPair3();
    }
    assert BuildStairs(Levels, 6, 1, 2, Cell(0, 0)) == [Stair(0, 3, 0)] by {
      assert Levels[2] == Solid && Levels[3] == Walls;
      SearchPair2();
    }
    assert BuildStairs(Levels, 6, 1, 1, Cell(5, 0)) == [Stair(0, 3, 0)] by {
      assert Levels[1] == Walls && Levels[2] == Solid;
      SearchPair1();
    }
    assert Levels[0] == OpenFirst && Levels[1] == Walls;
    SearchPair0();
  }
}
