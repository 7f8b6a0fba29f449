/** The board checker as a specification on values: a row pass, a column
    pass and a box pass, each scanning nine cells against a "possibles" set
    that starts as 1..9, flagging the cells it cannot consume, and blaming
    the non-locked cells of the same digit when the cell it cannot consume
    is locked. The imperative passes of Session.App are proved equal to
    these functions; the lemmas below state what the result means. */
module Validator {
  import opened Grid

  /** A scan line: nine distinct on-board cells, in the order a pass visits
      them (and the order its rescan revisits them). */
  predicate IsLine(line: seq<Coord>)
  {
    && |line| == 9
    && (forall k | 0 <= k < 9 :: InRange(line[k]))
    && (forall j, k | 0 <= j < k < 9 :: line[j] != line[k])
  }

  /** Row y, by increasing x. */
  function RowLine(y: int): (line: seq<Coord>)
    requires 0 <= y < 9
    ensures IsLine(line)
    ensures forall k | 0 <= k < 9 :: line[k].y == y
  {
    seq(9, x => Coord(x, y))
  }

  /** Column x, by increasing y. */
  function ColLine(x: int): (line: seq<Coord>)
    requires 0 <= x < 9
    ensures IsLine(line)
    ensures forall k | 0 <= k < 9 :: line[k].x == x
  {
    seq(9, y => Coord(x, y))
  }

  /** The box in box column bcol and box row brow, column-major: the inner
      column i is the outer loop and the inner row j the inner loop, so
      position 3 * i + j holds (3 * bcol + i, 3 * brow + j). */
  function BoxLine(bcol: int, brow: int): (line: seq<Coord>)
    requires 0 <= bcol < 3 && 0 <= brow < 3
    ensures IsLine(line)
    ensures forall k | 0 <= k < 9 :: line[k].x / 3 == bcol && line[k].y / 3 == brow
  {
    seq(9, k => Coord(3 * bcol + k / 3, 3 * brow + k % 3))
  }

  function RowLines(): (lines: seq<seq<Coord>>)
    ensures |lines| == 9 && forall n | 0 <= n < 9 :: IsLine(lines[n])
  {
    seq(9, y requires 0 <= y < 9 => RowLine(y))
  }

  function ColLines(): (lines: seq<seq<Coord>>)
    ensures |lines| == 9 && forall n | 0 <= n < 9 :: IsLine(lines[n])
  {
    seq(9, x requires 0 <= x < 9 => ColLine(x))
  }

  /** Boxes with the box column outer and the box row inner. */
  function BoxLines(): (lines: seq<seq<Coord>>)
    ensures |lines| == 9 && forall n | 0 <= n < 9 :: IsLine(lines[n])
  {
    seq(9, n requires 0 <= n < 9 => BoxLine(n / 3, n % 3))
  }

  /** The rescan after a locked cell with digit v could not be consumed:
      the cells of the line, in order, that hold v and are not locked. */
  function Blame(b: Board, locked: seq<Coord>, cells: seq<Coord>, v: int): (r: seq<Coord>)
    requires IsBoard(b) && forall c <- cells :: InRange(c)
    ensures forall c <- r :: c in cells && Get(b, c) == v && c !in locked
    ensures forall c <- cells :: Get(b, c) == v && c !in locked ==> c in r
    decreases |cells|
  {
    if cells == [] then []
    else
      var last := cells[|cells| - 1];
      Blame(b, locked, cells[..|cells| - 1], v) + (if Get(b, last) == v && last !in locked then [last] else [])
  }


  predicate IsLines(lines: seq<seq<Coord>>)
  {
    forall i | 0 <= i < |lines| :: IsLine(lines[i])
  }

  /** The state of a scan: the digits of the current line not yet consumed
      and the incorrect cells so far (shared by all lines and passes). */
  datatype ScanState = ScanState(possibles: set<int>, flagged: seq<Coord>)

  /** Visiting position k of a line. */
  function Step(b: Board, locked: seq<Coord>, line: seq<Coord>, k: int, st: ScanState): ScanState
    requires IsBoard(b) && IsLine(line) && 0 <= k < 9
  {
    var c := line[k];
    var v := Get(b, c);
    if v in st.possibles then ScanState(st.possibles - {v}, st.flagged)
    else
      var flagged := if c !in locked && c !in st.flagged then st.flagged + [c] else st.flagged;
      ScanState(st.possibles, if c in locked then flagged + Blame(b, locked, line, v) else flagged)
  }

  /** A point of a pass over `lines`: line i after its first k cells;
      (|lines|, 0) is the end of the pass. */
  predicate ScanPoint(lines: seq<seq<Coord>>, i: int, k: int)
  {
    0 <= i <= |lines| && 0 <= k <= 9 && (i == |lines| ==> k == 0)
  }

  /** (i, k) comes no later than (i', k') in a pass. */
  predicate NotAfter(i: int, k: int, i': int, k': int)
  {
    i < i' || (i == i' && k <= k')
  }

  /** The scan state at point (i, k) of a pass over `lines` that starts
      from the incorrect cells `start` (the pass's outer loop over lines and
      inner loop over positions): the possibles are fresh when a line is
      entered, the incorrect cells carry over from line to line. */
  function Run(b: Board, locked: seq<Coord>, lines: seq<seq<Coord>>, i: int, k: int, start: seq<Coord>): ScanState
    requires IsBoard(b) && IsLines(lines) && ScanPoint(lines, i, k)
    decreases i, k
  {
    if k > 0 then Step(b, locked, lines[i], k - 1, Run(b, locked, lines, i, k - 1, start))
    else if i == 0 then ScanState(Digits, start)
    else ScanState(Digits, Run(b, locked, lines, i - 1, 9, start).flagged)
  }

  /** The incorrect cells after a whole pass. */
  function PassFlags(b: Board, locked: seq<Coord>, lines: seq<seq<Coord>>, start: seq<Coord>): seq<Coord>
    requires IsBoard(b) && IsLines(lines)
  {
    Run(b, locked, lines, |lines|, 0, start).flagged
  }

  /** Rows, then columns, then boxes, all appending to one list. */
  function CheckAll(b: Board, locked: seq<Coord>, start: seq<Coord>): seq<Coord>
    requires IsBoard(b)
  {
    var afterRows := PassFlags(b, locked, RowLines(), start);
    var afterCols := PassFlags(b, locked, ColLines(), afterRows);
    PassFlags(b, locked, BoxLines(), afterCols)
  }

  // ---------------------------------------------------------------------
  // Scan order

  /** The digits held by the first k cells of a line. */
  function Seen(b: Board, line: seq<Coord>, k: int): set<int>
    requires IsBoard(b) && IsLine(line) && 0 <= k <= 9
  {
    set j | 0 <= j < k :: Get(b, line[j])
  }

  /** Position k cannot be consumed: its digit is not in 1..9 (an empty
      cell) or an earlier cell of the line holds the same digit. */
  predicate Repeats(b: Board, line: seq<Coord>, k: int)
    requires IsBoard(b) && IsLine(line) && 0 <= k < 9
  {
    Get(b, line[k]) !in Digits || exists j | 0 <= j < k :: Get(b, line[j]) == Get(b, line[k])
  }

  /** When position k of line i is visited, the possibles are the digits
      not yet seen in that line. */
  lemma {:induction false} PossiblesAreUnseen(b: Board, locked: seq<Coord>, lines: seq<seq<Coord>>, i: int, k: int, start: seq<Coord>)
    requires IsBoard(b) && IsLines(lines) && 0 <= i < |lines| && 0 <= k <= 9
    ensures Run(b, locked, lines, i, k, start).possibles == Digits - Seen(b, lines[i], k)
  {
    if k > 0 {
      PossiblesAreUnseen(b, locked, lines, i, k - 1, start);
      assert Seen(b, lines[i], k) == Seen(b, lines[i], k - 1) + {Get(b, lines[i][k - 1])};
    }
  }

  /** What visiting position k of line i does to the incorrect cells:
      nothing for a digit seen there for the first time; otherwise a
      non-locked cell is appended unless already present, and a locked cell
      appends, instead of itself, every non-locked cell of the line holding
      its digit. */
  lemma ScanRule(b: Board, locked: seq<Coord>, lines: seq<seq<Coord>>, i: int, k: int, start: seq<Coord>)
    requires IsBoard(b) && IsLines(lines) && 0 <= i < |lines| && 0 <= k < 9
    ensures var before := Run(b, locked, lines, i, k, start).flagged;
            var after := Run(b, locked, lines, i, k + 1, start).flagged;
            var line := lines[i];
            var c := line[k];
            && (!Repeats(b, line, k) ==> after == before)
            && (Repeats(b, line, k) && c !in locked ==>
                  after == if c in before then before else before + [c])
            && (Repeats(b, line, k) && c in locked ==>
                  after == before + Blame(b, locked, line, Get(b, c)))
  {
    PossiblesAreUnseen(b, locked, lines, i, k, start);
    var v := Get(b, lines[i][k]);
    if v in Seen(b, lines[i], k) {
      var j :| 0 <= j < k && Get(b, lines[i][j]) == v;
    }
  }

  // ---------------------------------------------------------------------
  // The incorrect cells only grow

  predicate Extends(r: seq<Coord>, start: seq<Coord>)
  {
    |start| <= |r| && r[..|start|] == start
  }

  lemma ExtendsTrans(r: seq<Coord>, s: seq<Coord>, t: seq<Coord>)
    requires Extends(r, s) && Extends(s, t)
    ensures Extends(r, t)
  {
    assert r[..|t|] == r[..|s|][..|t|];
  }

  /** Between two points of a pass the incorrect cells only grow. */
  lemma {:induction false} RunGrows(b: Board, locked: seq<Coord>, lines: seq<seq<Coord>>, i: int, k: int, i': int, k': int, start: seq<Coord>)
    requires IsBoard(b) && IsLines(lines) && ScanPoint(lines, i, k) && ScanPoint(lines, i', k') && NotAfter(i, k, i', k')
    ensures Extends(Run(b, locked, lines, i', k', start).flagged, Run(b, locked, lines, i, k, start).flagged)
    decreases i', k'
  {
    var earlier := Run(b, locked, lines, i, k, start).flagged;
    if i == i' && k == k' {
    } else if k' > 0 {
      RunGrows(b, locked, lines, i, k, i', k' - 1, start);
      var before := Run(b, locked, lines, i', k' - 1, start).flagged;
      var after := Run(b, locked, lines, i', k', start).flagged;
      assert Extends(after, before);
      ExtendsTrans(after, before, earlier);
    } else {
      RunGrows(b, locked, lines, i, k, i' - 1, 9, start);
    }
  }

  lemma PassExtends(b: Board, locked: seq<Coord>, lines: seq<seq<Coord>>, start: seq<Coord>)
    requires IsBoard(b) && IsLines(lines)
    ensures Extends(PassFlags(b, locked, lines, start), start)
  {
    RunGrows(b, locked, lines, 0, 0, |lines|, 0, start);
  }

  // ---------------------------------------------------------------------
  // Soundness: what is appended is a non-locked cell with a duplicate

  /** c is a cell of the line and another cell of the line holds its digit. */
  predicate DuplicatedIn(b: Board, line: seq<Coord>, c: Coord)
    requires IsBoard(b) && IsLine(line)
  {
    exists j, k | 0 <= j < 9 && 0 <= k < 9 :: line[j] == c && line[k] != c && Get(b, line[k]) == Get(b, line[j])
  }

  /** On a complete board a cell that cannot be consumed shares its digit
      with an earlier, different cell of the line. */
  lemma RepeatsDuplicated(b: Board, line: seq<Coord>, k: int)
    requires IsBoard(b) && Complete(b) && IsLine(line) && 0 <= k < 9
    ensures Repeats(b, line, k) ==> DuplicatedIn(b, line, line[k])
  {
    var c := line[k];
    assert b[c.y][c.x] != 0;
    if Repeats(b, line, k) {
      var j :| 0 <= j < k && Get(b, line[j]) == Get(b, c);
      assert line[j] != c;
    }
  }

  /** The cells appended by one visit are non-locked duplicates in its line. */
  lemma StepSound(b: Board, locked: seq<Coord>, lines: seq<seq<Coord>>, i: int, k: int, start: seq<Coord>)
    requires IsBoard(b) && Complete(b) && IsLines(lines) && 0 <= i < |lines| && 0 <= k < 9
    ensures var before := Run(b, locked, lines, i, k, start).flagged;
            var after := Run(b, locked, lines, i, k + 1, start).flagged;
            Extends(after, before) &&
            forall q | |before| <= q < |after| :: after[q] !in locked && DuplicatedIn(b, lines[i], after[q])
  {
    ScanRule(b, locked, lines, i, k, start);
    RepeatsDuplicated(b, lines[i], k);
    var line := lines[i];
    var before := Run(b, locked, lines, i, k, start).flagged;
    var after := Run(b, locked, lines, i, k + 1, start).flagged;
    var c := line[k];
    if Repeats(b, line, k) {
      if c in locked {
        var blamed := Blame(b, locked, line, Get(b, c));
        assert after == before + blamed;
        forall q | |before| <= q < |after| ensures after[q] !in locked && DuplicatedIn(b, line, after[q]) {
          assert after[q] == blamed[q - |before|];
          assert after[q] in blamed;
          var p :| 0 <= p < 9 && line[p] == after[q];
          assert line[k] != after[q];
        }
      }
    }
  }

  /** Every cell a pass has appended up to point (i, k) is a non-locked
      cell with a duplicate in one of the lines. */
  lemma {:induction false} RunSound(b: Board, locked: seq<Coord>, lines: seq<seq<Coord>>, i: int, k: int, start: seq<Coord>)
    requires IsBoard(b) && Complete(b) && IsLines(lines) && ScanPoint(lines, i, k)
    ensures var r := Run(b, locked, lines, i, k, start).flagged;
            Extends(r, start) &&
            forall q | |start| <= q < |r| ::
              r[q] !in locked && exists l | 0 <= l < |lines| :: DuplicatedIn(b, lines[l], r[q])
    decreases i, k
  {
    if k > 0 {
      RunSound(b, locked, lines, i, k - 1, start);
      StepSound(b, locked, lines, i, k - 1, start);
      var before := Run(b, locked, lines, i, k - 1, start).flagged;
      var r := Run(b, locked, lines, i, k, start).flagged;
      ExtendsTrans(r, before, start);
      forall q | |start| <= q < |r|
        ensures r[q] !in locked && exists l | 0 <= l < |lines| :: DuplicatedIn(b, lines[l], r[q])
      {
        if q < |before| {
          assert r[q] == before[q] by { assert r[..|before|] == before; }
        } else {
          assert DuplicatedIn(b, lines[i], r[q]);
        }
      }
    } else if i > 0 {
      RunSound(b, locked, lines, i - 1, 9, start);
    }
  }

  lemma PassSound(b: Board, locked: seq<Coord>, lines: seq<seq<Coord>>, start: seq<Coord>)
    requires IsBoard(b) && Complete(b) && IsLines(lines)
    ensures var r := PassFlags(b, locked, lines, start);
            Extends(r, start) &&
            forall q | |start| <= q < |r| ::
              r[q] !in locked && exists l | 0 <= l < |lines| :: DuplicatedIn(b, lines[l], r[q])
  {
    RunSound(b, locked, lines, |lines|, 0, start);
  }

  /** Another cell of c's row holds c's digit. */
  predicate RowDup(b: Board, c: Coord)
    requires IsBoard(b) && InRange(c)
  {
    exists x | 0 <= x < 9 :: x != c.x && b[c.y][x] == b[c.y][c.x]
  }

  /** Another cell of c's column holds c's digit. */
  predicate ColDup(b: Board, c: Coord)
    requires IsBoard(b) && InRange(c)
  {
    exists y | 0 <= y < 9 :: y != c.y && b[y][c.x] == b[c.y][c.x]
  }

  /** Another cell of c's 3×3 box holds c's digit. */
  predicate BoxDup(b: Board, c: Coord)
    requires IsBoard(b) && InRange(c)
  {
    exists x, y | 0 <= x < 9 && 0 <= y < 9 ::
      x / 3 == c.x / 3 && y / 3 == c.y / 3 && (x != c.x || y != c.y) && b[y][x] == b[c.y][c.x]
  }

  /** A complete board none of whose rows, columns or boxes repeats a digit:
      each of them holds nine distinct digits of 1..9, a permutation. */
  predicate IsSolution(b: Board)
    requires IsBoard(b)
  {
    Complete(b) &&
    forall y, x | 0 <= y < 9 && 0 <= x < 9 ::
      !RowDup(b, Coord(x, y)) && !ColDup(b, Coord(x, y)) && !BoxDup(b, Coord(x, y))
  }

  lemma RowDupOf(b: Board, n: int, c: Coord)
    requires IsBoard(b) && 0 <= n < 9
    ensures DuplicatedIn(b, RowLines()[n], c) ==> InRange(c) && RowDup(b, c)
  {
    var line := RowLines()[n];
    if DuplicatedIn(b, line, c) {
      var j, k :| 0 <= j < 9 && 0 <= k < 9 && line[j] == c && line[k] != c && Get(b, line[k]) == Get(b, line[j]);
      assert line[k] == Coord(k, n);
    }
  }

  lemma ColDupOf(b: Board, n: int, c: Coord)
    requires IsBoard(b) && 0 <= n < 9
    ensures DuplicatedIn(b, ColLines()[n], c) ==> InRange(c) && ColDup(b, c)
  {
    var line := ColLines()[n];
    if DuplicatedIn(b, line, c) {
      var j, k :| 0 <= j < 9 && 0 <= k < 9 && line[j] == c && line[k] != c && Get(b, line[k]) == Get(b, line[j]);
      assert line[k] == Coord(n, k);
    }
  }

  lemma BoxDupOf(b: Board, n: int, c: Coord)
    requires IsBoard(b) && 0 <= n < 9
    ensures DuplicatedIn(b, BoxLines()[n], c) ==> InRange(c) && BoxDup(b, c)
  {
    var line := BoxLines()[n];
    if DuplicatedIn(b, line, c) {
      var j, k :| 0 <= j < 9 && 0 <= k < 9 && line[j] == c && line[k] != c && Get(b, line[k]) == Get(b, line[j]);
      var d := line[k];
      assert d.x / 3 == c.x / 3 && d.y / 3 == c.y / 3;
      assert b[d.y][d.x] == b[c.y][c.x];
    }
  }

  /** Every cell the checker appends is on the board, not locked, and shares
      its digit with another cell of its row, its column or its box. */
  lemma CheckAllSound(b: Board, locked: seq<Coord>, start: seq<Coord>)
    requires IsBoard(b) && Complete(b)
    ensures var r := CheckAll(b, locked, start);
            Extends(r, start) &&
            forall q | |start| <= q < |r| ::
              r[q] !in locked && InRange(r[q]) && (RowDup(b, r[q]) || ColDup(b, r[q]) || BoxDup(b, r[q]))
  {
    var afterRows := PassFlags(b, locked, RowLines(), start);
    var afterCols := PassFlags(b, locked, ColLines(), afterRows);
    var r := PassFlags(b, locked, BoxLines(), afterCols);
    PassSound(b, locked, RowLines(), start);
    PassSound(b, locked, ColLines(), afterRows);
    PassSound(b, locked, BoxLines(), afterCols);
    ExtendsTrans(afterCols, afterRows, start);
    ExtendsTrans(r, afterCols, afterRows);
    ExtendsTrans(r, afterCols, start);
    forall q | |start| <= q < |r|
      ensures r[q] !in locked && InRange(r[q]) && (RowDup(b, r[q]) || ColDup(b, r[q]) || BoxDup(b, r[q]))
    {
      if q < |afterRows| {
        assert r[q] == afterRows[q] by { assert r[..|afterRows|] == afterRows; }
        var l :| 0 <= l < 9 && DuplicatedIn(b, RowLines()[l], r[q]);
        RowDupOf(b, l, r[q]);
      } else if q < |afterCols| {
        assert r[q] == afterCols[q] by { assert r[..|afterCols|] == afterCols; }
        var l :| 0 <= l < 9 && DuplicatedIn(b, ColLines()[l], r[q]);
        ColDupOf(b, l, r[q]);
      } else {
        var l :| 0 <= l < 9 && DuplicatedIn(b, BoxLines()[l], r[q]);
        BoxDupOf(b, l, r[q]);
      }
    }
  }

  /** Where no line holds a duplicate, a pass appends nothing. */
  lemma {:induction false} RunQuiet(b: Board, locked: seq<Coord>, lines: seq<seq<Coord>>, i: int, k: int, start: seq<Coord>)
    requires IsBoard(b) && Complete(b) && IsLines(lines) && ScanPoint(lines, i, k)
    requires forall l, c | 0 <= l < |lines| :: !DuplicatedIn(b, lines[l], c)
    ensures Run(b, locked, lines, i, k, start).flagged == start
    decreases i, k
  {
    if k > 0 {
      RunQuiet(b, locked, lines, i, k - 1, start);
      ScanRule(b, locked, lines, i, k - 1, start);
      RepeatsDuplicated(b, lines[i], k - 1);
    } else if i > 0 {
      RunQuiet(b, locked, lines, i - 1, 9, start);
    }
  }

  lemma SolutionHasNoDuplicates(b: Board)
    requires IsBoard(b) && IsSolution(b)
    ensures forall l, c | 0 <= l < 9 ::
      !DuplicatedIn(b, RowLines()[l], c) && !DuplicatedIn(b, ColLines()[l], c) && !DuplicatedIn(b, BoxLines()[l], c)
  {
    forall l, c | 0 <= l < 9
      ensures !DuplicatedIn(b, RowLines()[l], c) && !DuplicatedIn(b, ColLines()[l], c) && !DuplicatedIn(b, BoxLines()[l], c)
    {
      RowDupOf(b, l, c);
      ColDupOf(b, l, c);
      BoxDupOf(b, l, c);
      if InRange(c) {
        assert c == Coord(c.x, c.y);
      }
    }
  }

  /** A solved board gets no incorrect cells. */
  lemma SolvedNoFlags(b: Board, locked: seq<Coord>, start: seq<Coord>)
    requires IsBoard(b) && IsSolution(b)
    ensures CheckAll(b, locked, start) == start
  {
    SolutionHasNoDuplicates(b);
    RunQuiet(b, locked, RowLines(), 9, 0, start);
    RunQuiet(b, locked, ColLines(), 9, 0, start);
    RunQuiet(b, locked, BoxLines(), 9, 0, start);
  }

  // ---------------------------------------------------------------------
  // Completeness: a repeated digit gets one of its non-locked cells flagged

  lemma ExtendsHas(r: seq<Coord>, s: seq<Coord>, c: Coord)
    requires Extends(r, s) && c in s
    ensures c in r
  {
    assert c in r[..|s|];
  }

  /** Two cells of line i at positions p < q hold the same digit and are not
      both locked: after the pass one of them that is not locked is among
      the incorrect cells (the later one if it is not locked, else the
      earlier one, by the rescan). */
  lemma LinePairReported(b: Board, locked: seq<Coord>, lines: seq<seq<Coord>>, i: int, p: int, q: int, start: seq<Coord>)
    requires IsBoard(b) && IsLines(lines) && 0 <= i < |lines| && 0 <= p < q < 9
    requires Get(b, lines[i][p]) == Get(b, lines[i][q])
    requires lines[i][p] !in locked || lines[i][q] !in locked
    ensures var r := PassFlags(b, locked, lines, start);
            (lines[i][p] !in locked && lines[i][p] in r) || (lines[i][q] !in locked && lines[i][q] in r)
  {
    var line := lines[i];
    ScanRule(b, locked, lines, i, q, start);
    assert Repeats(b, line, q);
    var after := Run(b, locked, lines, i, q + 1, start).flagged;
    RunGrows(b, locked, lines, i, q + 1, |lines|, 0, start);
    if line[q] !in locked {
      assert line[q] in after;
      ExtendsHas(PassFlags(b, locked, lines, start), after, line[q]);
    } else {
      assert line[p] in line;
      assert line[p] in after;
      ExtendsHas(PassFlags(b, locked, lines, start), after, line[p]);
    }
  }

  /** The same for two cells of line i named by their positions, in
      either order. */
  lemma CellsReported(b: Board, locked: seq<Coord>, lines: seq<seq<Coord>>, i: int, p: int, q: int, c: Coord, d: Coord, start: seq<Coord>)
    requires IsBoard(b) && IsLines(lines) && 0 <= i < |lines| && 0 <= p < 9 && 0 <= q < 9 && p != q
    requires lines[i][p] == c && lines[i][q] == d && Get(b, c) == Get(b, d)
    requires c !in locked || d !in locked
    ensures var r := PassFlags(b, locked, lines, start);
            (c !in locked && c in r) || (d !in locked && d in r)
  {
    if p < q {
      LinePairReported(b, locked, lines, i, p, q, start);
    } else {
      LinePairReported(b, locked, lines, i, q, p, start);
    }
  }

  /** Membership survives the column and box passes. */
  lemma RowsKept(b: Board, locked: seq<Coord>, start: seq<Coord>, c: Coord)
    requires IsBoard(b) && c in PassFlags(b, locked, RowLines(), start)
    ensures c in CheckAll(b, locked, start)
  {
    var afterRows := PassFlags(b, locked, RowLines(), start);
    var afterCols := PassFlags(b, locked, ColLines(), afterRows);
    PassExtends(b, locked, ColLines(), afterRows);
    PassExtends(b, locked, BoxLines(), afterCols);
    ExtendsHas(afterCols, afterRows, c);
    ExtendsHas(CheckAll(b, locked, start), afterCols, c);
  }

  lemma ColsKept(b: Board, locked: seq<Coord>, start: seq<Coord>, c: Coord)
    requires IsBoard(b) && c in PassFlags(b, locked, ColLines(), PassFlags(b, locked, RowLines(), start))
    ensures c in CheckAll(b, locked, start)
  {
    var afterCols := PassFlags(b, locked, ColLines(), PassFlags(b, locked, RowLines(), start));
    PassExtends(b, locked, BoxLines(), afterCols);
    ExtendsHas(CheckAll(b, locked, start), afterCols, c);
  }

  /** Two cells of a row with the same digit, not both locked: one of them
      that is not locked is flagged. */
  lemma RowPairReported(b: Board, locked: seq<Coord>, start: seq<Coord>, c: Coord, d: Coord)
    requires IsBoard(b) && InRange(c) && InRange(d) && c.y == d.y && c.x != d.x && Get(b, c) == Get(b, d)
    requires c !in locked || d !in locked
    ensures var r := CheckAll(b, locked, start);
            (c !in locked && c in r) || (d !in locked && d in r)
  {
    assert RowLines()[c.y] == RowLine(c.y);
    CellsReported(b, locked, RowLines(), c.y, c.x, d.x, c, d, start);
    var afterRows := PassFlags(b, locked, RowLines(), start);
    if c !in locked && c in afterRows {
      RowsKept(b, locked, start, c);
    } else {
      RowsKept(b, locked, start, d);
    }
  }

  /** Two cells of a column with the same digit, not both locked: one of
      them that is not locked is flagged. */
  lemma ColPairReported(b: Board, locked: seq<Coord>, start: seq<Coord>, c: Coord, d: Coord)
    requires IsBoard(b) && InRange(c) && InRange(d) && c.x == d.x && c.y != d.y && Get(b, c) == Get(b, d)
    requires c !in locked || d !in locked
    ensures var r := CheckAll(b, locked, start);
            (c !in locked && c in r) || (d !in locked && d in r)
  {
    assert ColLines()[c.x] == ColLine(c.x);
    var afterRows := PassFlags(b, locked, RowLines(), start);
    CellsReported(b, locked, ColLines(), c.x, c.y, d.y, c, d, afterRows);
    var afterCols := PassFlags(b, locked, ColLines(), afterRows);
    if c !in locked && c in afterCols {
      ColsKept(b, locked, start, c);
    } else {
      ColsKept(b, locked, start, d);
    }
  }

  lemma BoxIndex(x: int, y: int)
    requires 0 <= x < 3 && 0 <= y < 3
    ensures (3 * x + y) / 3 == x && (3 * x + y) % 3 == y
  {
  }

  /** Box n = 3 * bcol + brow of the box pass is the box in box column
      bcol and box row brow. */
  lemma BoxLinesAt(bcol: int, brow: int)
    requires 0 <= bcol < 3 && 0 <= brow < 3
    ensures BoxLines()[3 * bcol + brow] == BoxLine(bcol, brow)
  {
    BoxIndex(bcol, brow);
  }

  /** Position of an on-board cell in its box's scan order (column-major). */
  function BoxPos(c: Coord): (p: int)
    requires InRange(c)
    ensures 0 <= p < 9
    ensures BoxLine(c.x / 3, c.y / 3)[p] == c
  {
    BoxIndex(c.x % 3, c.y % 3);
    3 * (c.x % 3) + c.y % 3
  }

  /** An on-board cell sits at position p of box n = 3 * (c.x / 3) + c.y / 3
      of the box pass. */
  lemma BoxCell(c: Coord) returns (n: int, p: int)
    requires InRange(c)
    ensures n == 3 * (c.x / 3) + c.y / 3 && 0 <= n < 9 && 0 <= p < 9
    ensures BoxLines()[n][p] == c
  {
    BoxLinesAt(c.x / 3, c.y / 3);
    n, p := 3 * (c.x / 3) + c.y / 3, BoxPos(c);
  }

  /** Two different cells of a box with the same digit, not both locked:
      one of them that is not locked is flagged. */
  lemma BoxPairReported(b: Board, locked: seq<Coord>, start: seq<Coord>, c: Coord, d: Coord)
    requires IsBoard(b) && InRange(c) && InRange(d) && c != d && Get(b, c) == Get(b, d)
    requires c.x / 3 == d.x / 3 && c.y / 3 == d.y / 3
    requires c !in locked || d !in locked
    ensures var r := CheckAll(b, locked, start);
            (c !in locked && c in r) || (d !in locked && d in r)
  {
    var n, p := BoxCell(c);
    var n', q := BoxCell(d);
    var afterCols := PassFlags(b, locked, ColLines(), PassFlags(b, locked, RowLines(), start));
    CellsReported(b, locked, BoxLines(), n, p, q, c, d, afterCols);
  }

  // ---------------------------------------------------------------------
  // The verdict: no flags exactly on a solved board

  /** Two different cells that share a row, a column or a box. */
  predicate Peers(c: Coord, d: Coord)
  {
    c != d && (c.y == d.y || c.x == d.x || (c.x / 3 == d.x / 3 && c.y / 3 == d.y / 3))
  }

  /** No two locked cells that are peers hold the same digit. */
  predicate GivensConsistent(b: Board, locked: seq<Coord>)
    requires IsBoard(b)
  {
    forall c, d | c in locked && d in locked && InRange(c) && InRange(d) && Peers(c, d) :: Get(b, c) != Get(b, d)
  }

  /** Two peers with the same digit, not both locked: one of them that is
      not locked is flagged. */
  lemma PeersReported(b: Board, locked: seq<Coord>, start: seq<Coord>, c: Coord, d: Coord)
    requires IsBoard(b) && InRange(c) && InRange(d) && Peers(c, d) && Get(b, c) == Get(b, d)
    requires c !in locked || d !in locked
    ensures var r := CheckAll(b, locked, start);
            (c !in locked && c in r) || (d !in locked && d in r)
  {
    if c.y == d.y {
      RowPairReported(b, locked, start, c, d);
    } else if c.x == d.x {
      ColPairReported(b, locked, start, c, d);
    } else {
      BoxPairReported(b, locked, start, c, d);
    }
  }

  /** A cell with a duplicate has a peer holding its digit. */
  lemma PeerOfDup(b: Board, c: Coord) returns (d: Coord)
    requires IsBoard(b) && InRange(c) && (RowDup(b, c) || ColDup(b, c) || BoxDup(b, c))
    ensures InRange(d) && Peers(c, d) && Get(b, d) == Get(b, c)
  {
    if RowDup(b, c) {
      var x :| 0 <= x < 9 && x != c.x && b[c.y][x] == b[c.y][c.x];
      d := Coord(x, c.y);
    } else if ColDup(b, c) {
      var y :| 0 <= y < 9 && y != c.y && b[y][c.x] == b[c.y][c.x];
      d := Coord(c.x, y);
    } else {
      var x, y :| 0 <= x < 9 && 0 <= y < 9 && x / 3 == c.x / 3 && y / 3 == c.y / 3 && (x != c.x || y != c.y) && b[y][x] == b[c.y][c.x];
      d := Coord(x, y);
    }
  }

  /** A complete board that is not a solution has two peers with the same digit. */
  lemma FindClash(b: Board) returns (c: Coord, d: Coord)
    requires IsBoard(b) && Complete(b) && !IsSolution(b)
    ensures InRange(c) && InRange(d) && Peers(c, d) && Get(b, c) == Get(b, d)
  {
    var y, x :| 0 <= y < 9 && 0 <= x < 9 &&
      (RowDup(b, Coord(x, y)) || ColDup(b, Coord(x, y)) || BoxDup(b, Coord(x, y)));
    c := Coord(x, y);
    d := PeerOfDup(b, c);
  }

  /** On a complete board whose locked cells agree with each other, the
      checker, started from no incorrect cells, finds none exactly when the
      board is a solution. */
  lemma NoFlagsIffSolved(b: Board, locked: seq<Coord>)
    requires IsBoard(b) && Complete(b) && GivensConsistent(b, locked)
    ensures CheckAll(b, locked, []) == [] <==> IsSolution(b)
  {
    if IsSolution(b) {
      SolvedNoFlags(b, locked, []);
    } else {
      var c, d := FindClash(b);
      PeersReported(b, locked, [], c, d);
    }
  }
}
