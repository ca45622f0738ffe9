# Tic-tac-toe game logic

A Dafny model of the game logic of a small Swing tic-tac-toe game: the
3x3 board of tiles (`TicTacMap`), the state of a single tile
(`TicTacTile` and its `TileState` enum), and the rule the mouse handler
applies to a click. The repository has two copies of this logic: a legacy
tree under `src/org/...` and a newer tree under `src/main/java/...`. Both
copies play, reset and scan the board the same way. They differ only in how
`checkForWin` reports its result:

- the legacy copy returns `null`, an empty set, or the set of three winning tiles;
- the newer copy returns `Optional.empty()`, `Optional.of(Set.of())`, or `Optional.of` of the triple.

The model is split into one module per file:

- `tiles.dfy` (module `Tiles`): `TileState = BLANK | X | O`, tile coordinates, and
  class `Tile` with a constant coordinate and a mutable `state`.
- `rules.dfy` (module `Rules`): the specification side, as pure definitions.
  - A grid holds the nine states, indexed `[x][y]` as `createBoard` lays out the tiles.
  - `Update` sets one tile and `Other` flips the turn.
  - `LineAt` gives the eight lines in the order `checkForWin` scans them: columns
    x = 0..2, rows y = 0..2, the anti-diagonal (1,1),(2,0),(0,2), then the
    diagonal (1,1),(0,0),(2,2). Each line lists its tiles in the order the
    scan names them `first`, `second` and `third`.
  - `Classify` gives the first winning line, else `Stalemate` when no tile is
    BLANK, else `Undecided`.
  - There are lemmas that pin `Classify` down, and the mark counts that alternating play keeps.
- `encodings.dfy` (module `Encodings`): one mapping per encoding, from
  `Outcome = Undecided | Stalemate | Win(first, second, third)` to what each
  copy returns. A tile of a returned set is its coordinate.
- `board.dfy` (module `TicTac`): class `Board`.
  - It holds a 3x3 `array2` of `Tile` objects, as `new TicTacTile[3][3]` does, plus the mutable `turn`.
  - `Play`, `Reset` and the nested loops of `createBoard` are imperative.
  - `CheckForWin` is the source's scan: column and row loops with the running
    `win` and `playable` flags and the `first`/`second`/`third` tiles. It is
    proved equal to `Classify` of the board's grid.
- `controller.dfy` (module `Controller`): the click step of the newer
  `Main`. A click on a decided game resets it. Otherwise it plays the
  clicked tile and checks the board again.

One fact the proofs bring out about the `playable` flag: it is exact, not an
approximation of "no move is left". The column pass alone settles the flag for every tile.
For each column, the first tile is either BLANK (which sets the flag), or the
column wins (so none of its tiles is BLANK), or the other two tiles are tested
for BLANK. So when no line wins, `playable` is true exactly when some tile is
BLANK (`BlankBeforeNext` and the column-loop invariant of `CheckForWin`). The
later passes set the flag only on a tile that really is BLANK.

## Model

| member | source | states |
|---|---|---|
| `Tiles.Tile.constructor` | src/org/bondolo/tictactoe/TicTacTile.java:55-81 | a new tile holds the given coordinate and its state is BLANK |
| `Tiles.Tile.SetState` | src/main/java/org/bondolo/tictactoe/TicTacTile.java:124-135 | after `SetState(s)`, `GetState()` returns `s`; only this tile's state may change, and the coordinate is a constant |
| `Rules.Update` | src/org/bondolo/tictactoe/TicTacMap.java:73 | setting tile (x, y) to m gives m at (x, y) and leaves every other tile of the grid as it was |
| `Rules.Other` | src/main/java/org/bondolo/tictactoe/TicTacMap.java:84 | the next turn is never BLANK and never the current turn, so X and O alternate |
| `Rules.EmptyGrid` | src/main/java/org/bondolo/tictactoe/TicTacMap.java:184-189 | every tile of a new or reset board is BLANK |
| `Rules.LineAt` | src/org/bondolo/tictactoe/TicTacMap.java:94-156 | each of the eight scanned lines is three distinct in-range tiles |
| `Rules.FirstWin` | src/org/bondolo/tictactoe/TicTacMap.java:94-160 | a line index the scan stops at is one of the eight lines, and that line holds three equal non-BLANK states |
| `Rules.FirstWinFrom` | src/org/bondolo/tictactoe/TicTacMap.java:94-160 | from line k on, the scan finds nothing iff no later line wins; otherwise it finds the first winning line |
| `Rules.ScanStep` | src/main/java/org/bondolo/tictactoe/TicTacMap.java:103-169 | one line of the scan: a non-BLANK first tile equal to the other two makes it the first winning line; anything else moves on with no win so far; a BLANK among the three means the board has a BLANK tile |
| `Rules.BlankBeforeNext` | src/org/bondolo/tictactoe/TicTacMap.java:94-111 | the column pass accumulates the BLANK tiles column by column, so after column 2 it has seen all of them |
| `Rules.BlankTile` | src/org/bondolo/tictactoe/TicTacMap.java:116-118 | a BLANK tile anywhere means the board has a BLANK tile |
| `Rules.HasBlankExactly` | src/org/bondolo/tictactoe/TicTacMap.java:170-176 | the "not full" condition holds iff some tile (i, j) is BLANK |
| `Rules.ClassifyExact` | src/org/bondolo/tictactoe/TicTacMap.java:162-176 | a win iff some line holds three equal non-BLANK states, and then a win on the first such line of the scan; a stalemate iff no line wins and no tile is BLANK; undecided iff no line wins and some tile is BLANK |
| `Rules.ClassifyFirstWinning` | src/main/java/org/bondolo/tictactoe/TicTacMap.java:172-173 | when line k is the first winning line, the outcome is a win on line k's tiles |
| `Rules.ClassifyNoWin` | src/main/java/org/bondolo/tictactoe/TicTacMap.java:174-176 | with no winning line, the outcome is undecided when a tile is BLANK and a stalemate otherwise |
| `Rules.WinTriple` | src/org/bondolo/tictactoe/TicTacMap.java:164-169 | a winning triple is three distinct in-range tiles holding the same non-BLANK state |
| `Rules.CountInUpdate` | src/org/bondolo/tictactoe/TicTacMap.java:73 | overwriting one entry changes the count of a state only by that entry's old and new value |
| `Rules.CountUpdate` | src/org/bondolo/tictactoe/TicTacMap.java:73 | setting one tile changes each state's tile count only by that tile's old and new value |
| `Rules.EmptyBalanced` | src/org/bondolo/tictactoe/TicTacMap.java:40 | the empty board with X to play has no marks and is balanced |
| `Rules.PlayKeepsBalanced` | src/org/bondolo/tictactoe/TicTacMap.java:73-76 | a play on a BLANK tile adds one mark of the player whose turn it was and keeps the counts balanced: X to play iff the counts are equal, otherwise X is one ahead and O is to play |
| `Encodings.EncodingsAgree` | src/main/java/org/bondolo/tictactoe/TicTacMap.java:172-176 | the newer copy's Optional result is the legacy copy's nullable set with null read as empty |
| `Encodings.LineTilesDistinct` | src/org/bondolo/tictactoe/TicTacMap.java:166-169 | two different lines of the scan never have the same set of tiles |
| `Encodings.LegacyEncoding` | src/org/bondolo/tictactoe/TicTacMap.java:163-176 | `ToLegacy`, the legacy result-building code (a `HashSet` of the triple, `Collections.emptySet()` or `null`), applied to the board's outcome: null iff no line wins and a tile is BLANK; the empty set iff no line wins and the board is full; a 3-tile set iff some line wins, and then the first winning line's tiles |
| `Encodings.OptionalEncoding` | src/main/java/org/bondolo/tictactoe/TicTacMap.java:172-176 | `ToOptional`, the newer result-building code (`Optional.of(Set.of(...))`, `Optional.empty()` or `Optional.of(Set.of())`), applied to the board's outcome: empty iff no line wins and a tile is BLANK; `Optional.of` an empty set iff no line wins and the board is full; `Optional.of` a 3-tile set iff some line wins, and then the first winning line's tiles |
| `Encodings.LegacyDeterminesOutcome` | src/org/bondolo/tictactoe/TicTacMap.java:162-178 | grids with the same legacy result have the same outcome, so the set encoding loses nothing |
| `TicTac.Board.CreateBoard` | src/org/bondolo/tictactoe/TicTacMap.java:46-56 | a fresh 3x3 array whose tile at [x, y] is a fresh BLANK tile with coordinate (x, y) |
| `TicTac.Board.constructor` | src/main/java/org/bondolo/tictactoe/TicTacMap.java:42-58 | a new board has all nine tiles BLANK, X to play, and balanced counts |
| `TicTac.Board.Play` | src/org/bondolo/tictactoe/TicTacMap.java:68-79 | returns true iff tile (x, y) was BLANK. On false, no tile and not the turn change. On true, only that tile changes, to the old turn, and the turn flips. Balanced counts stay balanced |
| `TicTac.Board.CheckForWin` | src/main/java/org/bondolo/tictactoe/TicTacMap.java:95-179 | the column, row and diagonal scan with its `win` and `playable` flags returns exactly `Classify` of the board. It changes nothing, so repeated calls agree |
| `TicTac.Board.Reset` | src/org/bondolo/tictactoe/TicTacMap.java:184-192 | whatever the prior state, every tile is BLANK and X is to play, so a second reset changes nothing |
| `Controller.Click` | src/main/java/org/bondolo/tictactoe/Main.java:87-111 | a click on a won or stalemated board resets it. Otherwise it is rejected iff the tile is not BLANK, with nothing changed. Or it plays the tile and reports the new board's outcome. Balanced counts stay balanced |
| `Controller.ColumnWinScenario` | src/main/java/org/bondolo/tictactoe/TicTacMap.java:76-179 | X plays (0,0), (0,1), (0,2) and O plays (1,0), (1,1) in between; then the board is a win on column 0 |

## Left out

- The GUI: frame creation, `invokeLater`, the mouse listener's pixel-to-coordinate mapping, selection and highlighting, repainting, and tile-scale printing in both `Main` files. Only the click rule is modelled, as `Controller.Click`.
- `TicTacView` and `TicTacTile.draw` in both copies: these do AWT drawing with floating-point geometry.
- The tile-map base classes (`RectTileMap`, `RectTile`, `RectTileCoord`, `RectMapView`) are not part of this model. `getTile(x, y)` is `tiles[x, y]`, the x and y sizes are 3, and a coordinate is a pair of integers.
- `TicTac.Board.Play`: takes the tile's coordinate rather than a tile object. It therefore requires 0 <= x, y < 3. The source hands `play` a tile that `getTile` found on the map; a play on a tile from outside the board is not modelled.
- Java object identity and hash-set semantics of the returned `Set<TicTacTile>`: a tile in a result set is its coordinate. `Win` keeps the tiles in the scan's first/second/third order, and the encodings turn them into a set.
- `TicTac.Board.Play`, `TicTac.Board.Reset`, `Controller.Click`: "balanced counts" is a separate predicate (`Alternating`) that these methods preserve and the constructor and `Reset` establish. It is not part of the board invariant. As in the source, a tile's `SetState` can be called directly and can break it.
