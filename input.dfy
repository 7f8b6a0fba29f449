/** Mouse and keyboard input of the playing screen: which cell a click
    selects, and whether a key press may write into the selected cell. */
module Input {
  import opened Grid

  /** For a positive divisor, n / d is the d-wide slot holding n (the
      floor division of the source, since d > 0). */
  lemma SlotBounds(n: int, d: int)
    requires d > 0
    ensures d * (n / d) <= n < d * (n / d) + d
  {
  }

  lemma SlotOf(q: int, r: int, d: int)
    requires d > 0 && 0 <= r < d
    ensures (d * q + r) / d == q
  {
    SlotBounds(d * q + r, d);
    var p := (d * q + r) / d;
    if p < q {
      assert d * p <= d * (q - 1) by { MulMono(d, p, q - 1); }
    } else if p > q {
      assert d * (q + 1) <= d * p by { MulMono(d, q + 1, p); }
    }
  }

  lemma MulMono(d: int, a: int, b: int)
    requires d > 0 && a <= b
    ensures d * a <= d * b
  {
  }

  /** The cell under the pointer as the source computes it: off the grid
      when left of or above its corner, or strictly beyond its far edges;
      otherwise the pointer's offset divided by the cell size. */
  function MouseOnGrid(mx: int, my: int, gx: int, gy: int, gridSize: int, cellSize: int): (r: Option<Coord>)
    requires cellSize > 0
    ensures r.None? <==> mx < gx || my < gy || mx > gx + gridSize || my > gy + gridSize
    ensures r.Some? ==>
              && 0 <= r.value.x && 0 <= r.value.y
              && gx + cellSize * r.value.x <= mx < gx + cellSize * r.value.x + cellSize
              && gy + cellSize * r.value.y <= my < gy + cellSize * r.value.y + cellSize
  {
    if mx < gx || my < gy then None
    else if mx > gx + gridSize || my > gy + gridSize then None
    else
      SlotBounds(mx - gx, cellSize);
      SlotBounds(my - gy, cellSize);
      Some(Coord((mx - gx) / cellSize, (my - gy) / cellSize))
  }

  /** The far edge is accepted: on a grid nine cells wide, a click on the
      right-hand border selects column 9, which is off the board, and the
      next digit key then indexes past the end of the row. */
  lemma BoundaryClickLeavesBoard(gx: int, gy: int, cellSize: int)
    requires cellSize > 0
    ensures MouseOnGrid(gx + 9 * cellSize, gy, gx, gy, 9 * cellSize, cellSize) == Some(Coord(9, 0))
    ensures !InRange(MouseOnGrid(gx + 9 * cellSize, gy, gx, gy, 9 * cellSize, cellSize).value)
  {
    SlotOf(9, 0, cellSize);
    SlotOf(0, 0, cellSize);
  }

  /** The same computation with the far edges excluded: a click selects
      a cell only when it lies strictly inside the grid. */
  function MouseOnGridStrict(mx: int, my: int, gx: int, gy: int, gridSize: int, cellSize: int): (r: Option<Coord>)
    requires cellSize > 0
    ensures r.None? <==> mx < gx || my < gy || mx >= gx + gridSize || my >= gy + gridSize
    ensures r.Some? ==>
              && 0 <= r.value.x && 0 <= r.value.y
              && gx + cellSize * r.value.x <= mx < gx + cellSize * r.value.x + cellSize
              && gy + cellSize * r.value.y <= my < gy + cellSize * r.value.y + cellSize
  {
    if mx < gx || my < gy then None
    else if mx >= gx + gridSize || my >= gy + gridSize then None
    else
      SlotBounds(mx - gx, cellSize);
      SlotBounds(my - gy, cellSize);
      Some(Coord((mx - gx) / cellSize, (my - gy) / cellSize))
  }

  lemma MulCancel(d: int, a: int, b: int)
    requires d > 0 && d * a < d * b
    ensures a < b
  {
    if a >= b {
      MulMono(d, b, a);
    }
  }

  /** On a grid at most nine cells wide, every cell a click selects is on
      the board. */
  lemma StrictClickOnBoard(mx: int, my: int, gx: int, gy: int, gridSize: int, cellSize: int)
    requires cellSize > 0 && gridSize <= 9 * cellSize
    ensures var r := MouseOnGridStrict(mx, my, gx, gy, gridSize, cellSize);
            r.Some? ==> InRange(r.value)
  {
    var r := MouseOnGridStrict(mx, my, gx, gy, gridSize, cellSize);
    if r.Some? {
      MulCancel(cellSize, r.value.x, 9);
      MulCancel(cellSize, r.value.y, 9);
    }
  }

  /** Along one axis: a pixel dv into cell v lies on a grid nine cells
      wide, and its offset divided by the cell size is v. */
  lemma AxisSlot(g: int, v: int, cellSize: int, dv: int)
    requires cellSize > 0 && 0 <= v < 9 && 0 <= dv < cellSize
    ensures g <= g + cellSize * v + dv < g + 9 * cellSize
    ensures (g + cellSize * v + dv - g) / cellSize == v
  {
    SlotOf(v, dv, cellSize);
    assert g + cellSize * v + dv - g == cellSize * v + dv;
    MulMono(cellSize, v + 1, 9);
  }

  /** Every pixel of the square the selection is drawn in selects that
      very cell: the click and the drawing agree, for every cell. */
  lemma ClickSelectsDrawnCell(c: Coord, gx: int, gy: int, cellSize: int, dx: int, dy: int)
    requires InRange(c) && cellSize > 0 && 0 <= dx < cellSize && 0 <= dy < cellSize
    ensures MouseOnGridStrict(gx + cellSize * c.x + dx, gy + cellSize * c.y + dy, gx, gy, 9 * cellSize, cellSize) == Some(c)
    ensures MouseOnGrid(gx + cellSize * c.x + dx, gy + cellSize * c.y + dy, gx, gy, 9 * cellSize, cellSize) == Some(c)
  {
    AxisSlot(gx, c.x, cellSize, dx);
    AxisSlot(gy, c.y, cellSize, dy);
  }

  // ---------------------------------------------------------------------
  // The lock guard of a key press

  /** A Python value as the lock guard compares it: the selection is a
      tuple, each locked cell a two-element list. Values of different
      constructors are never equal, as a tuple never equals a list. */
  datatype PyPair = PyTuple(tx: int, ty: int) | PyList(lx: int, ly: int)

  /** The locked cells as the list of lists loading builds. */
  function LockedAsLists(locked: seq<Coord>): seq<PyPair>
  {
    seq(|locked|, i requires 0 <= i < |locked| => PyList(locked[i].x, locked[i].y))
  }

  /** The guard as written: the selected tuple is not among the locked lists. */
  predicate SourceGuard(sel: Coord, locked: seq<Coord>)
  {
    PyTuple(sel.x, sel.y) !in LockedAsLists(locked)
  }

  /** The guard as written lets every selected cell through, locked or not. */
  lemma SourceGuardIgnoresLocks(sel: Coord, locked: seq<Coord>)
    ensures SourceGuard(sel, locked)
    ensures sel in locked ==> SourceGuard(sel, locked) != (sel !in locked)
  {
    var lists := LockedAsLists(locked);
    forall i | 0 <= i < |lists| ensures lists[i] != PyTuple(sel.x, sel.y) {
      assert lists[i].PyList?;
    }
  }

  /** The key press as written: digit d goes into the selected cell when a
      cell is selected and the guard holds. Since the guard always holds,
      every selected cell receives the digit, locked or not. */
  function KeyPressAsWritten(b: Board, locked: seq<Coord>, sel: Option<Coord>, d: int): (r: Board)
    requires IsBoard(b) && (sel.Some? ==> InRange(sel.value)) && 0 <= d <= 9
    ensures IsBoard(r)
    ensures sel.Some? ==> r == Write(b, sel.value, d)
    ensures sel.None? ==> r == b
  {
    if sel.Some? then
      SourceGuardIgnoresLocks(sel.value, locked);
      if SourceGuard(sel.value, locked) then Write(b, sel.value, d) else b
    else b
  }

  /** As written, a digit key overwrites a locked (given) cell. */
  lemma AsWrittenOverwritesLocked(b: Board, locked: seq<Coord>, sel: Coord, d: int)
    requires IsBoard(b) && InRange(sel) && sel in locked && 0 <= d <= 9
    ensures Get(KeyPressAsWritten(b, locked, Some(sel), d), sel) == d
    ensures d != Get(b, sel) ==> KeyPressAsWritten(b, locked, Some(sel), d) != b
  {
    SourceGuardIgnoresLocks(sel, locked);
  }

  /** The intended guard: a digit is written only into a selected cell that
      is not locked. */
  predicate WriteAllowed(sel: Option<Coord>, locked: seq<Coord>)
  {
    sel.Some? && sel.value !in locked
  }
}
