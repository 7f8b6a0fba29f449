# Sudoku board session: a Dafny model

This project models the playing session of a small Sudoku game, the `App`
class of `app_class.py`. The session holds four pieces of state:

- a 9×9 board, indexed `grid[y][x]`, where 0 is an empty cell;
- the selected cell;
- the locked cells: the givens of the starting board;
- the incorrect cells that the checker flags.

Loading locks every nonzero cell of the starting board, in row-major order.
A mouse click selects the cell under the pointer. A digit key writes into
the selected cell. After a change, the per-frame update clears the incorrect
cells. If the board is then complete, it runs the checker and congratulates
the player when nothing is flagged.

The checker (`checkAllCells`) makes three passes, in this order:

1. a row pass, row by row, left to right;
2. a column pass, column by column, top to bottom;
3. a box pass: box column outer, box row inner, and column-major inside a box.

Every line (a row, a column or a box) is scanned against a "possibles" set
that restarts at 1..9.
- A cell whose digit is still possible consumes that digit.
- Any other cell is a repeat, or an empty cell.
  - If it is not locked, it is appended unless it is already listed.
  - If it is locked, the line is rescanned in the same order. Every
    non-locked cell holding that digit is appended, with no check for
    whether it is already listed.

The model has four modules.

- `Grid` (`board.dfy`) holds the board, coordinates, a single-cell write and
  the list of givens, as values.
- `Validator` (`validator.dfy`) specifies the checker as functions over
  "lines": nine cells in scan order.
  - `Run(lines, i, k)` is the scan state after cell k of line i of a pass.
  - Lemmas state what the flags mean:
    - which cells a single visit appends (the scan-order and blame rules);
    - soundness: every flag is a non-locked cell that really has a duplicate;
    - completeness: every clash involving a non-locked cell is flagged;
    - the verdict: a complete board with consistent givens gets no flags
      exactly when it is solved.
- `Input` (`input.dfy`) models the pixel-to-cell mapping of a click, and the
  lock guard of a key press as the source writes it.
- `Session` (`app.dfy`) is the `App` class itself.
  - Its fields are `grid`, `selected`, `lockedCells`, `incorrectCells` and
    `cellChanged`.
  - `Load`, the three check passes and `AllCellsDone` are loops, as in the
    source.
  - Each loop is proved equal to its specification function.

Things outside the class become parameters:
- the starting board (`finishedBoard`, a module-level global in the source);
- the pointer position;
- the grid origin and size and the cell size, which come from `settings`;
- the key typed, already reduced to "a digit 0..9, or not a digit".

Two behaviours of the checker are easy to misread:
- `incorrectCells` is a list, not a set: it may hold a cell more than once,
  because the rescan after a locked clash appends without checking
  membership.
- The later cell in scan order is the one flagged: writing (1,0)'s digit
  into (0,0) of a solved board flags (1,0) in the row pass, not (0,0).
  `Validator.ScanRule` states the rule.

## Model

| member | source | states |
|---|---|---|
| Grid.Write | app_class.py:52 | writing digit d into cell c yields a board on which c holds d and every other cell is unchanged |
| Grid.RowGivensSpec | app_class.py:127-129 | the cells one row contributes to the locked list are exactly its nonzero cells, left to right |
| Grid.GivensSpec | app_class.py:126-129 | the locked list built from the first rows is exactly the nonzero cells of those rows, each once and strictly in row-major order |
| Session.App.Load | app_class.py:123-129 | the loop appends to the locked cells exactly the board's nonzero cells in row-major order (`Givens`) |
| Session.App.constructor | app_class.py:8-23 | a new session has the starting board, no selection, no incorrect cells and no pending change; a cell is locked iff it is nonzero on the starting board, and the locked list is sorted row-major |
| Input.MouseOnGrid | app_class.py:94-99 | the source's mapping: no cell iff the pointer is left of or above the grid or strictly beyond its far edge; otherwise a cell with non-negative coordinates whose pixel square contains the pointer |
| Input.BoundaryClickLeavesBoard | app_class.py:97 | on a grid nine cells wide, a click on the far right border yields column 9, which is off the board |
| Input.MouseOnGridStrict | app_class.py:94-99 | the corrected mapping with the far edges excluded: no cell iff the pointer is outside the half-open grid square; otherwise the cell whose pixel square contains the pointer |
| Input.StrictClickOnBoard | app_class.py:41-47 | with the corrected mapping, on a grid at most nine cells wide, every selected cell is on the board |
| Input.ClickSelectsDrawnCell | app_class.py:101-102 | every pixel of the square that the selection of cell c is drawn in maps back to c, under both mappings |
| Session.App.Click | app_class.py:41-47 | a click sets the selection to the cell under the pointer, or to none when the pointer is off the grid, keeping the session valid |
| Input.SourceGuardIgnoresLocks | app_class.py:50 | the guard as written holds for every selected cell, so for a locked cell it disagrees with "not locked": the selection is a tuple, while loading (line 129) stores each locked cell as a two-element list, and a tuple never equals a list |
| Input.KeyPressAsWritten | app_class.py:49-53 | the key press as written writes the digit into every selected cell, locked or not, and leaves the board unchanged when nothing is selected |
| Input.AsWrittenOverwritesLocked | app_class.py:49-53 | as written, a digit typed into a selected locked cell replaces the given, and the board changes whenever the digit differs |
| Session.App.KeyPress | app_class.py:49-53 | a digit key writes only into a selected, non-locked cell and sets the change mark; otherwise nothing changes; every other cell and every locked cell keeps its digit |
| Session.App.AllCellsDone | app_class.py:147-152 | the scan answers true iff no cell of the board is 0 |
| Validator.RowLine | app_class.py:160-163 | row y, in visiting order, is nine distinct on-board cells all in row y |
| Validator.ColLine | app_class.py:174-177 | column x, in visiting order, is nine distinct on-board cells all in column x |
| Validator.BoxLine | app_class.py:192-196 | box (bcol, brow), in visiting order, is nine distinct on-board cells all in that 3×3 box |
| Validator.RowLines | app_class.py:159-162 | the row pass visits nine lines, each nine distinct on-board cells |
| Validator.ColLines | app_class.py:173-176 | the column pass visits nine lines, each nine distinct on-board cells |
| Validator.BoxLines | app_class.py:187-190 | the box pass visits nine lines, each nine distinct on-board cells |
| Validator.BoxLinesAt | app_class.py:188-189 | the box pass's line number 3 * bcol + brow is the box in box column bcol and box row brow (box column outer) |
| Validator.BoxPos | app_class.py:192-195 | every on-board cell occurs in its own box's visiting order, at a position 0..8 |
| Validator.BoxCell | app_class.py:188-195 | every on-board cell is visited by the box pass as cell p of line 3 * (x / 3) + y / 3 |
| Validator.Blame | app_class.py:168-171 | the rescan appends exactly the cells of the line that hold the digit and are not locked |
| Session.App.BlameLine | app_class.py:169-171 | the rescan loop appends, in line order, the line's non-locked cells holding the digit (`Blame`) |
| Validator.PossiblesAreUnseen | app_class.py:161-164 | when cell k of a line is visited, the possibles are 1..9 minus the digits of the line's earlier cells |
| Validator.ScanRule | app_class.py:163-171 | the scan-order and blame rule: a first occurrence of a digit changes nothing; a repeat or empty non-locked cell is appended unless already listed; a repeat or empty locked cell appends the rescan's cells instead of itself |
| Session.App.CheckCell | app_class.py:163-171 | one visit consumes the digit, or flags or blames exactly as the specification's step does |
| Session.App.Visit | app_class.py:162-171 | one visit moves the pass's state from point (i, k) to point (i, k + 1) |
| Session.App.CheckRow | app_class.py:161-171 | scanning row y moves the row pass from the start of line y to its end |
| Session.App.CheckRows | app_class.py:159-171 | the row pass leaves exactly the incorrect cells that the specification's row pass produces |
| Session.App.CheckCol | app_class.py:175-185 | scanning column x moves the column pass from the start of line x to its end |
| Session.App.CheckCols | app_class.py:173-185 | the column pass leaves exactly the incorrect cells that the specification's column pass produces |
| Session.App.CheckBox | app_class.py:190-208 | scanning box (x, y) column-major moves the box pass from the start of line 3x + y to its end |
| Session.App.CheckSmallGrid | app_class.py:187-208 | the box pass leaves exactly the incorrect cells that the specification's box pass produces |
| Session.App.CheckAllCells | app_class.py:154-157 | rows, then columns, then boxes, together computing `CheckAll` from the incorrect cells before the call |
| Validator.RunGrows | app_class.py:159-171 | between two points of a pass the incorrect cells only grow: the earlier list is a prefix of the later one |
| Validator.PassExtends | app_class.py:159-185 | a whole pass only appends to the incorrect cells it starts from |
| Validator.RepeatsDuplicated | app_class.py:163-165 | on a complete board, a cell the scan cannot consume shares its digit with a different cell of its line |
| Validator.StepSound | app_class.py:165-171 | on a complete board, every cell one visit appends is not locked and has a duplicate in that line |
| Validator.RunSound | app_class.py:159-171 | on a complete board, every cell a pass has appended so far is not locked and has a duplicate in one of its lines |
| Validator.PassSound | app_class.py:159-185 | after a whole pass on a complete board, every appended cell is not locked and has a duplicate in some line of the pass |
| Validator.RowDupOf | app_class.py:159-171 | a cell duplicated within a row line is on the board and shares its digit with another cell of its row |
| Validator.ColDupOf | app_class.py:173-185 | a cell duplicated within a column line is on the board and shares its digit with another cell of its column |
| Validator.BoxDupOf | app_class.py:187-208 | a cell duplicated within a box line is on the board and shares its digit with another cell of its box |
| Validator.CheckAllSound | app_class.py:154-157 | soundness: on a complete board, every cell the checker appends is on the board, not locked, and clashes with a peer in its row, column or box |
| Validator.RunQuiet | app_class.py:159-171 | when no line holds a duplicate, a pass appends nothing |
| Validator.SolutionHasNoDuplicates | app_class.py:154-208 | on a solved board no row, column or box line holds a duplicate |
| Validator.SolvedNoFlags | app_class.py:154-157 | a solved board gets no incorrect cells: the checker returns its starting list unchanged |
| Validator.LinePairReported | app_class.py:163-171 | two cells of a line with the same digit, not both locked: the later one is flagged if not locked, else the earlier one is, by the rescan |
| Validator.CellsReported | app_class.py:163-171 | two distinct positions of a line with the same digit, not both locked: a non-locked one of them is flagged by the pass |
| Validator.RowsKept | app_class.py:154-157 | a cell flagged by the row pass is still flagged after the column and box passes |
| Validator.ColsKept | app_class.py:154-157 | a cell flagged by the column pass is still flagged after the box pass |
| Validator.RowPairReported | app_class.py:159-171 | completeness for rows: two cells of a row with the same digit, not both locked, leave a non-locked one of them flagged |
| Validator.ColPairReported | app_class.py:173-185 | completeness for columns: the same for two cells of a column |
| Validator.BoxPairReported | app_class.py:187-208 | completeness for boxes: the same for two cells of a 3×3 box |
| Validator.PeersReported | app_class.py:154-157 | completeness: any two peers with the same digit, not both locked, leave a non-locked one of them flagged |
| Validator.NoFlagsIffSolved | app_class.py:63-66 | on a complete board whose givens do not clash, the checker started from no incorrect cells finds none iff the board is a solution, so congratulations come exactly on a solved board |
| Session.App.PlayingUpdate | app_class.py:61-66 | without a change nothing happens; after a change the incorrect cells are cleared and stay empty on an incomplete board, and become `CheckAll` of the board on a complete one; congratulations iff a change led to a complete board with nothing flagged |
| Session.App.EndFrame | app_class.py:85 | drawing a frame clears the change mark |

## Left out

- Rendering is not modelled: the window, buttons, grid lines, numbers, shading and fonts. These are image output only. `button_class.py` is not part of this model.
- The event loop and the game states are not modelled: `run`, `pygame.QUIT`, `running`, `state` and `finished`. Each event is modelled as a direct call to `Click` or `KeyPress`.
- `mousePos` and the button hover update are not modelled, because they are read from the pointer device. The pointer position is a parameter of `Click`.
- `isInt` is not modelled. It parses text; the key is given as `Option<int>`, a digit 0..9 or none. A typed "0" writes an empty cell, as in the source.
- The `print` calls ("Not on the board", "Error found by small grid check", "Congratulations") have no output in the model. Congratulations is the boolean that `PlayingUpdate` returns.
- `settings.py` is not part of this model. The grid origin, grid size and cell size are parameters.
- Session.App.Click: requires a grid exactly nine cells wide (`gridSize == 9 * cellSize`), which the source takes from `settings`. It uses the corrected mapping `MouseOnGridStrict` (Findings).
- Session.App.KeyPress: uses the intended lock guard, not the vacuous one as written (Findings).
- Aliasing is not modelled: `self.grid` is the module-level starting board itself in the source, so a write changes that global too. In the model `grid` is a value held by the session.
- The unused imports (`requests`, `bs4`) are not modelled.

## Findings

| source | as written | input that shows it | evidently intended | confidence | as-written member | corrected member |
|---|---|---|---|---|---|---|
| app_class.py:50 | `self.selected not in self.lockedCells` tests a tuple against a list of two-element lists, so it is always true | a board whose cell (0,0) is a given; click on (0,0); press 5 | a locked (given) cell cannot be overwritten | not executed; follows from Python's tuple/list equality | Input.AsWrittenOverwritesLocked | Session.App.KeyPress |
| app_class.py:97 | `>` lets a pointer exactly on the far edge through, and floor division then gives column (or row) 9 | gridSize = 9 * cellSize, pointer at (gx + 9 * cellSize, gy): the selection becomes (9, 0); the next digit key then runs `self.grid[0][9] = ...`, which raises an `IndexError` that nothing catches, so the game ends | `>=`: the far border selects nothing | not executed; assumes settings make the grid nine cells wide | Input.BoundaryClickLeavesBoard | Input.StrictClickOnBoard |
