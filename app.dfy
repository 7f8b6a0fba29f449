/** The playing session: the board, the selected cell, the locked cells
    and the incorrect cells, with the operations that change them. */
module Session {
  import opened Grid
  import opened Validator
  import opened Input

  class App {
    /** grid[y][x]; 0 is an empty cell. */
    var grid: Board
    var selected: Option<Coord>
    /** The cells that held a digit at loading, in row-major order. */
    var lockedCells: seq<Coord>
    /** The cells the checker flags; a cell may be listed more than once. */
    var incorrectCells: seq<Coord>
    /** A digit was written since the last frame was drawn. */
    var cellChanged: bool

    ghost predicate Valid()
      reads this
    {
      && IsBoard(grid)
      && (selected.Some? ==> InRange(selected.value))
      && (forall c <- lockedCells :: InRange(c) && Get(grid, c) != 0)
    }

    /** A session on the starting board: nothing selected, nothing flagged,
        and the nonzero cells locked. */
    constructor (finishedBoard: Board)
      requires IsBoard(finishedBoard)
      ensures Valid()
      ensures grid == finishedBoard && selected == None && incorrectCells == [] && !cellChanged
      ensures lockedCells == Givens(finishedBoard, 9)
      ensures forall c :: c in lockedCells <==> InRange(c) && Get(finishedBoard, c) != 0
      ensures RowMajorSorted(lockedCells)
    {
      grid := finishedBoard;
      selected := None;
      incorrectCells := [];
      cellChanged := false;
      lockedCells := [];
      new;
      Load();
      GivensSpec(finishedBoard, 9);
    }

    /** Appends the nonzero cells of the board, row by row, left to right. */
    method Load()
      requires IsBoard(grid)
      modifies this`lockedCells
      ensures lockedCells == old(lockedCells) + Givens(grid, 9)
    {
      var y := 0;
      while y < 9
        invariant 0 <= y <= 9
        invariant lockedCells == old(lockedCells) + Givens(grid, y)
      {
        var x := 0;
        while x < 9
          invariant 0 <= x <= 9
          invariant lockedCells == old(lockedCells) + Givens(grid, y) + RowGivens(grid, y, x)
        {
          if grid[y][x] != 0 {
            lockedCells := lockedCells + [Coord(x, y)];
          }
          x := x + 1;
        }
        y := y + 1;
      }
    }

    /** A mouse click selects the cell under the pointer, or nothing when
        the pointer is off the grid. The grid is nine cells wide. */
    method Click(mx: int, my: int, gx: int, gy: int, gridSize: int, cellSize: int)
      requires Valid() && cellSize > 0 && gridSize == 9 * cellSize
      modifies this`selected
      ensures Valid()
      ensures selected == MouseOnGridStrict(mx, my, gx, gy, gridSize, cellSize)
    {
      StrictClickOnBoard(mx, my, gx, gy, gridSize, cellSize);
      selected := MouseOnGridStrict(mx, my, gx, gy, gridSize, cellSize);
    }

    /** A key press; key is the digit typed, or None for a key that is not
        a digit. The digit goes into the selected cell when that cell is
        not locked, and marks the board as changed; otherwise nothing
        changes. */
    method KeyPress(key: Option<int>)
      requires Valid() && (key.Some? ==> 0 <= key.value <= 9)
      modifies this`grid, this`cellChanged
      ensures Valid()
      ensures if WriteAllowed(selected, lockedCells) && key.Some?
              then grid == Write(old(grid), selected.value, key.value) && cellChanged
              else grid == old(grid) && cellChanged == old(cellChanged)
      ensures forall c | InRange(c) && Some(c) != selected :: Get(grid, c) == Get(old(grid), c)
      ensures forall c <- lockedCells :: Get(grid, c) == Get(old(grid), c)
    {
      if selected != None && selected.value !in lockedCells {
        if key.Some? {
          grid := Write(grid, selected.value, key.value);
          cellChanged := true;
        }
      }
    }

    /** Whether every cell holds a digit. */
    method AllCellsDone() returns (done: bool)
      requires IsBoard(grid)
      ensures done == Complete(grid)
    {
      for y := 0 to 9
        invariant forall y', x | 0 <= y' < y && 0 <= x < 9 :: grid[y'][x] != 0
      {
        for x := 0 to 9
          invariant forall x' | 0 <= x' < x :: grid[y][x'] != 0
        {
          if grid[y][x] == 0 {
            return false;
          }
        }
      }
      return true;
    }

    /** The rescan after a locked cell with digit v could not be consumed:
        appends, in line order, every cell of the line holding v that is
        not locked. */
    method BlameLine(line: seq<Coord>, v: int)
      requires IsBoard(grid) && IsLine(line)
      modifies this`incorrectCells
      ensures incorrectCells == old(incorrectCells) + Blame(grid, lockedCells, line, v)
    {
      for k := 0 to 9
        invariant incorrectCells == old(incorrectCells) + Blame(grid, lockedCells, line[..k], v)
      {
        assert line[..k + 1][..k] == line[..k];
        if Get(grid, line[k]) == v && line[k] !in lockedCells {
          incorrectCells := incorrectCells + [line[k]];
        }
      }
      assert line[..9] == line;
    }

    /** One cell of a scan: its digit is consumed from the possibles, or the
        cell is flagged (a non-locked cell, once) or blamed on the line (a
        locked cell). */
    method CheckCell(line: seq<Coord>, k: int, possibles: set<int>) returns (rest: set<int>)
      requires IsBoard(grid) && IsLine(line) && 0 <= k < 9
      modifies this`incorrectCells
      ensures ScanState(rest, incorrectCells)
           == Step(grid, lockedCells, line, k, ScanState(possibles, old(incorrectCells)))
    {
      var c := line[k];
      var v := grid[c.y][c.x];
      if v in possibles {
        rest := possibles - {v};
      } else {
        rest := possibles;
        if c !in lockedCells && c !in incorrectCells {
          incorrectCells := incorrectCells + [c];
        }
        if c in lockedCells {
          BlameLine(line, v);
        }
      }
    }

    /** Visit k of line i of a pass over lines: from the pass's state at
        point (i, k) to its state at (i, k + 1). */
    method Visit(ghost lines: seq<seq<Coord>>, i: int, k: int, line: seq<Coord>, possibles: set<int>, ghost start: seq<Coord>)
      returns (rest: set<int>)
      requires IsBoard(grid) && IsLines(lines) && 0 <= i < |lines| && 0 <= k < 9 && line == lines[i]
      requires ScanState(possibles, incorrectCells) == Run(grid, lockedCells, lines, i, k, start)
      modifies this`incorrectCells
      ensures ScanState(rest, incorrectCells) == Run(grid, lockedCells, lines, i, k + 1, start)
    {
      rest := CheckCell(line, k, possibles);
    }

    /** Row y of the row pass, scanned by increasing x. */
    method CheckRow(ghost lines: seq<seq<Coord>>, y: int, ghost start: seq<Coord>)
      requires IsBoard(grid) && IsLines(lines) && |lines| == 9 && 0 <= y < 9 && lines[y] == RowLine(y)
      requires incorrectCells == Run(grid, lockedCells, lines, y, 0, start).flagged
      modifies this`incorrectCells
      ensures incorrectCells == Run(grid, lockedCells, lines, y, 9, start).flagged
    {
      var possibles := Digits;
      for x := 0 to 9
        invariant ScanState(possibles, incorrectCells) == Run(grid, lockedCells, lines, y, x, start)
      {
        possibles := Visit(lines, y, x, RowLine(y), possibles, start);
      }
    }

    /** The row pass: row by row. */
    method CheckRows()
      requires IsBoard(grid)
      modifies this`incorrectCells
      ensures incorrectCells == PassFlags(grid, lockedCells, RowLines(), old(incorrectCells))
    {
      ghost var lines := RowLines();
      ghost var start := incorrectCells;
      for y := 0 to 9
        invariant incorrectCells == Run(grid, lockedCells, lines, y, 0, start).flagged
      {
        CheckRow(lines, y, start);
      }
    }

    /** Column x of the column pass, scanned by increasing y. */
    method CheckCol(ghost lines: seq<seq<Coord>>, x: int, ghost start: seq<Coord>)
      requires IsBoard(grid) && IsLines(lines) && |lines| == 9 && 0 <= x < 9 && lines[x] == ColLine(x)
      requires incorrectCells == Run(grid, lockedCells, lines, x, 0, start).flagged
      modifies this`incorrectCells
      ensures incorrectCells == Run(grid, lockedCells, lines, x, 9, start).flagged
    {
      var possibles := Digits;
      for y := 0 to 9
        invariant ScanState(possibles, incorrectCells) == Run(grid, lockedCells, lines, x, y, start)
      {
        possibles := Visit(lines, x, y, ColLine(x), possibles, start);
      }
    }

    /** The column pass: column by column. */
    method CheckCols()
      requires IsBoard(grid)
      modifies this`incorrectCells
      ensures incorrectCells == PassFlags(grid, lockedCells, ColLines(), old(incorrectCells))
    {
      ghost var lines := ColLines();
      ghost var start := incorrectCells;
      for x := 0 to 9
        invariant incorrectCells == Run(grid, lockedCells, lines, x, 0, start).flagged
      {
        CheckCol(lines, x, start);
      }
    }

    /** The box in box column x and box row y: the inner column i outer,
        the inner row j inner, so position 3 * i + j of the box's scan. */
    method CheckBox(ghost lines: seq<seq<Coord>>, x: int, y: int, ghost start: seq<Coord>)
      requires IsBoard(grid) && IsLines(lines) && |lines| == 9 && 0 <= x < 3 && 0 <= y < 3
      requires lines[3 * x + y] == BoxLine(x, y)
      requires incorrectCells == Run(grid, lockedCells, lines, 3 * x + y, 0, start).flagged
      modifies this`incorrectCells
      ensures incorrectCells == Run(grid, lockedCells, lines, 3 * x + y, 9, start).flagged
    {
      var possibles := Digits;
      for i := 0 to 3
        invariant ScanState(possibles, incorrectCells) == Run(grid, lockedCells, lines, 3 * x + y, 3 * i, start)
      {
        for j := 0 to 3
          invariant ScanState(possibles, incorrectCells) == Run(grid, lockedCells, lines, 3 * x + y, 3 * i + j, start)
        {
          possibles := Visit(lines, 3 * x + y, 3 * i + j, BoxLine(x, y), possibles, start);
        }
      }
    }

    /** The box pass: box columns x outer, box rows y inner. */
    method CheckSmallGrid()
      requires IsBoard(grid)
      modifies this`incorrectCells
      ensures incorrectCells == PassFlags(grid, lockedCells, BoxLines(), old(incorrectCells))
    {
      ghost var lines := BoxLines();
      forall x, y | 0 <= x < 3 && 0 <= y < 3
        ensures lines[3 * x + y] == BoxLine(x, y)
      {
        BoxLinesAt(x, y);
      }
      ghost var start := incorrectCells;
      for x := 0 to 3
        invariant incorrectCells == Run(grid, lockedCells, lines, 3 * x, 0, start).flagged
      {
        for y := 0 to 3
          invariant incorrectCells == Run(grid, lockedCells, lines, 3 * x + y, 0, start).flagged
        {
          CheckBox(lines, x, y, start);
        }
      }
    }

    /** Rows, then columns, then boxes. */
    method CheckAllCells()
      requires IsBoard(grid)
      modifies this`incorrectCells
      ensures incorrectCells == CheckAll(grid, lockedCells, old(incorrectCells))
    {
      ghost var g, l, s := grid, lockedCells, incorrectCells;
      CheckRows();
      ghost var afterRows := incorrectCells;
      assert afterRows == PassFlags(g, l, RowLines(), s);
      CheckCols();
      ghost var afterCols := incorrectCells;
      assert afterCols == PassFlags(g, l, ColLines(), afterRows);
      CheckSmallGrid();
      assert incorrectCells == PassFlags(g, l, BoxLines(), afterCols);
    }

    /** The per-frame update: after a change the incorrect cells are cleared
        and, on a complete board only, recomputed; congratulations when the
        recomputed list is empty. */
    method PlayingUpdate() returns (congratulations: bool)
      requires Valid()
      modifies this`incorrectCells
      ensures Valid()
      ensures !cellChanged ==> incorrectCells == old(incorrectCells) && !congratulations
      ensures cellChanged && !Complete(grid) ==> incorrectCells == [] && !congratulations
      ensures cellChanged && Complete(grid) ==> incorrectCells == CheckAll(grid, lockedCells, [])
      ensures congratulations <==> cellChanged && Complete(grid) && incorrectCells == []
    {
      congratulations := false;
      if cellChanged {
        incorrectCells := [];
        var done := AllCellsDone();
        if done {
          CheckAllCells();
          if |incorrectCells| == 0 {
            congratulations := true;
          }
        }
      }
    }

    /** The end of a frame: the change mark is cleared once drawn. */
    method EndFrame()
      modifies this`cellChanged
      ensures !cellChanged
    {
      cellChanged := false;
    }
  }
}
