/** The 9×9 Sudoku board: coordinates, cell values, the completion check's
    specification, a single-cell write and the derivation of the locked
    (given) cells from the starting board. */
module Grid {

  datatype Option<T> = None | Some(value: T)

  /** A cell position, used for the selection, the locked cells and the
      incorrect cells alike: x is the column, y the row. */
  datatype Coord = Coord(x: int, y: int)

  /** The digits a "possibles" list starts with. */
  const Digits: set<int> := {1, 2, 3, 4, 5, 6, 7, 8, 9}

  predicate InRange(c: Coord)
  {
    0 <= c.x < 9 && 0 <= c.y < 9
  }

  /** A board is indexed b[y][x]; 0 marks an empty cell. */
  type Board = seq<seq<int>>

  predicate IsBoard(b: Board)
  {
    |b| == 9 && forall y | 0 <= y < 9 :: |b[y]| == 9 && forall x | 0 <= x < 9 :: 0 <= b[y][x] <= 9
  }

  function Get(b: Board, c: Coord): int
    requires IsBoard(b) && InRange(c)
  {
    b[c.y][c.x]
  }

  /** Every cell holds a nonzero digit. */
  predicate Complete(b: Board)
    requires IsBoard(b)
  {
    forall y, x | 0 <= y < 9 && 0 <= x < 9 :: b[y][x] != 0
  }

  /** The board with digit d written into cell c and every other cell kept. */
  function Write(b: Board, c: Coord, d: int): (r: Board)
    requires IsBoard(b) && InRange(c) && 0 <= d <= 9
    ensures IsBoard(r)
    ensures Get(r, c) == d
    ensures forall e | InRange(e) && e != c :: Get(r, e) == Get(b, e)
  {
    b[c.y := b[c.y][c.x := d]]
  }

  /** Row-major order: row first, then column. */
  predicate Before(c: Coord, d: Coord)
  {
    c.y < d.y || (c.y == d.y && c.x < d.x)
  }

  predicate RowMajorSorted(s: seq<Coord>)
  {
    forall i, j | 0 <= i < j < |s| :: Before(s[i], s[j])
  }

  /** The nonzero cells of row y among columns 0 .. n-1, left to right. */
  function RowGivens(b: Board, y: int, n: int): seq<Coord>
    requires IsBoard(b) && 0 <= y < 9 && 0 <= n <= 9
  {
    if n == 0 then []
    else RowGivens(b, y, n - 1) + (if b[y][n - 1] != 0 then [Coord(n - 1, y)] else [])
  }

  /** The nonzero cells of rows 0 .. rows-1, in row-major order: the cells
      that loading locks. */
  function Givens(b: Board, rows: int): seq<Coord>
    requires IsBoard(b) && 0 <= rows <= 9
  {
    if rows == 0 then [] else Givens(b, rows - 1) + RowGivens(b, rows - 1, 9)
  }

  lemma {:induction false} RowGivensSpec(b: Board, y: int, n: int)
    requires IsBoard(b) && 0 <= y < 9 && 0 <= n <= 9
    ensures forall c :: c in RowGivens(b, y, n) <==> c.y == y && 0 <= c.x < n && b[y][c.x] != 0
    ensures RowMajorSorted(RowGivens(b, y, n))
  {
    if n > 0 {
      RowGivensSpec(b, y, n - 1);
    }
  }

  /** The locked cells are exactly the nonzero cells of the starting board,
      each once, in row-major order. */
  lemma {:induction false} GivensSpec(b: Board, rows: int)
    requires IsBoard(b) && 0 <= rows <= 9
    ensures forall c :: c in Givens(b, rows) <==> InRange(c) && c.y < rows && Get(b, c) != 0
    ensures RowMajorSorted(Givens(b, rows))
  {
    if rows > 0 {
      GivensSpec(b, rows - 1);
      RowGivensSpec(b, rows - 1, 9);
      var s, t := Givens(b, rows - 1), RowGivens(b, rows - 1, 9);
      forall i, j | 0 <= i < j < |s + t| ensures Before((s + t)[i], (s + t)[j]) {
        if j < |s| {
          assert (s + t)[i] == s[i] && (s + t)[j] == s[j];
        } else if i < |s| {
          assert s[i] in s && t[j - |s|] in t;
        } else {
          assert (s + t)[i] == t[i - |s|] && (s + t)[j] == t[j - |s|];
        }
      }
    }
  }
}
