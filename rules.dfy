/**
 * The rules of the game as pure definitions over a 3x3 grid of tile states:
 * the grid indexed [x][y] as TicTacMap builds it, the turn flip, the eight
 * winning lines in the order TicTacMap.checkForWin scans them, the
 * classification of a grid, and the mark counts that alternating play keeps.
 */
module Rules {
  import opened Tiles

  datatype Option<T> = None | Some(value: T)

  /** The side of the board (BOARD_SIZE). */
  const Size := 3

  /** A 3x3 grid of tile states, indexed g[x][y]. */
  type Grid = g: seq<seq<TileState>> | |g| == Size && forall i :: 0 <= i < Size ==> |g[i]| == Size
    witness [[BLANK, BLANK, BLANK], [BLANK, BLANK, BLANK], [BLANK, BLANK, BLANK]]

  predicate InBounds(c: Coord) {
    0 <= c.x < Size && 0 <= c.y < Size
  }

  function Cell(g: Grid, c: Coord): TileState
    requires InBounds(c)
  {
    g[c.x][c.y]
  }

  /** Grids are equal when all their tiles are. */
  lemma GridsEqual(a: Grid, b: Grid)
    requires forall i, j :: 0 <= i < Size && 0 <= j < Size ==> a[i][j] == b[i][j]
    ensures a == b
  {
    assert a[0] == b[0] && a[1] == b[1] && a[2] == b[2];
  }

  /** The grid of a new or reset board. */
  function EmptyGrid(): (g: Grid)
    ensures forall i, j :: 0 <= i < Size && 0 <= j < Size ==> g[i][j] == BLANK
  {
    [[BLANK, BLANK, BLANK], [BLANK, BLANK, BLANK], [BLANK, BLANK, BLANK]]
  }

  /** The grid after tile (x, y) is set to m. */
  function Update(g: Grid, x: int, y: int, m: TileState): (r: Grid)
    requires 0 <= x < Size && 0 <= y < Size
    ensures forall i, j :: 0 <= i < Size && 0 <= j < Size ==>
      r[i][j] == if i == x && j == y then m else g[i][j]
  {
    g[x := g[x][y := m]]
  }

  /** Whose turn follows turn t: never BLANK and never t again. */
  function Other(t: TileState): (r: TileState)
    ensures r != BLANK && r != t
  {
    if t == X then O else X
  }

  /** Some tile of column x is BLANK. */
  predicate ColumnHasBlank(g: Grid, x: int)
    requires 0 <= x < Size
  {
    g[x][0] == BLANK || g[x][1] == BLANK || g[x][2] == BLANK
  }

  /** Some tile in a column before column x is BLANK. */
  predicate BlankBefore(g: Grid, x: int) {
    (x > 0 && ColumnHasBlank(g, 0)) || (x > 1 && ColumnHasBlank(g, 1)) ||
    (x > 2 && ColumnHasBlank(g, 2))
  }

  lemma BlankBeforeNext(g: Grid, x: int)
    requires 0 <= x < Size
    ensures BlankBefore(g, x + 1) == (BlankBefore(g, x) || ColumnHasBlank(g, x))
  {
  }

  /** Some tile of the grid is still BLANK. */
  predicate HasBlank(g: Grid) {
    ColumnHasBlank(g, 0) || ColumnHasBlank(g, 1) || ColumnHasBlank(g, 2)
  }

  /** A BLANK tile anywhere makes the grid have one. */
  lemma BlankTile(g: Grid, i: int, j: int)
    requires 0 <= i < Size && 0 <= j < Size && g[i][j] == BLANK
    ensures HasBlank(g)
  {
    if i == 0 {
      assert ColumnHasBlank(g, 0);
    } else if i == 1 {
      assert ColumnHasBlank(g, 1);
    } else {
      assert ColumnHasBlank(g, 2);
    }
  }

  /** HasBlank means what it says: some tile is BLANK. */
  lemma HasBlankExactly(g: Grid)
    ensures HasBlank(g) <==> exists i, j :: 0 <= i < Size && 0 <= j < Size && g[i][j] == BLANK
  {
    if HasBlank(g) {
      var i := if ColumnHasBlank(g, 0) then 0 else if ColumnHasBlank(g, 1) then 1 else 2;
      var j := if g[i][0] == BLANK then 0 else if g[i][1] == BLANK then 1 else 2;
      assert g[i][j] == BLANK;
    }
    if exists i, j :: 0 <= i < Size && 0 <= j < Size && g[i][j] == BLANK {
      var i, j :| 0 <= i < Size && 0 <= j < Size && g[i][j] == BLANK;
      assert ColumnHasBlank(g, i);
    }
  }

  /** A line of three tiles, in the order the scan names them first, second, third. */
  datatype Line = Line(first: Coord, second: Coord, third: Coord)

  /**
   * Line k of the scan: columns x = 0..2, rows y = 0..2, the anti-diagonal,
   * then the main diagonal; both diagonals start at the centre tile.
   */
  function LineAt(k: int): (l: Line)
    requires 0 <= k < 8
    ensures InBounds(l.first) && InBounds(l.second) && InBounds(l.third)
    ensures l.first != l.second && l.first != l.third && l.second != l.third
  {
    if k < 3 then Line(Coord(k, 0), Coord(k, 1), Coord(k, 2))
    else if k < 6 then Line(Coord(0, k - 3), Coord(1, k - 3), Coord(2, k - 3))
    else if k == 6 then Line(Coord(1, 1), Coord(2, 0), Coord(0, 2))
    else Line(Coord(1, 1), Coord(0, 0), Coord(2, 2))
  }

  /** Line l holds three equal non-BLANK states. */
  predicate LineWins(g: Grid, l: Line)
    requires InBounds(l.first) && InBounds(l.second) && InBounds(l.third)
  {
    Cell(g, l.first) != BLANK &&
    Cell(g, l.first) == Cell(g, l.second) &&
    Cell(g, l.first) == Cell(g, l.third)
  }

  predicate SomeLineWins(g: Grid) {
    exists k :: 0 <= k < 8 && LineWins(g, LineAt(k))
  }

  /** Line k wins and no line before it in the scan does. */
  predicate IsFirstWinning(g: Grid, k: int) {
    0 <= k < 8 && LineWins(g, LineAt(k)) && NoWinBefore(g, k)
  }

  /** The index of the first winning line at or after k. */
  function FirstWin(g: Grid, k: nat): (r: Option<nat>)
    ensures r.Some? ==> k <= r.value < 8 && LineWins(g, LineAt(r.value))
    decreases 8 - k
  {
    if k >= 8 then None
    else if LineWins(g, LineAt(k)) then Some(k)
    else FirstWin(g, k + 1)
  }

  /** No line before line k of the scan wins. */
  predicate NoWinBefore(g: Grid, k: int) {
    forall j :: 0 <= j < k && j < 8 ==> !LineWins(g, LineAt(j))
  }

  /**
   * One step of the scan, over line k read as tiles a, b, c: three equal
   * non-BLANK tiles make k the first winning line, anything else moves the
   * scan on; a BLANK among them means the grid has a BLANK tile.
   */
  lemma ScanStep(g: Grid, k: int, a: TileState, b: TileState, c: TileState)
    requires 0 <= k < 8 && NoWinBefore(g, k)
    requires a == Cell(g, LineAt(k).first) && b == Cell(g, LineAt(k).second) &&
             c == Cell(g, LineAt(k).third)
    ensures a != BLANK && a == b && a == c ==> IsFirstWinning(g, k)
    ensures !(a != BLANK && a == b && a == c) ==> NoWinBefore(g, k + 1)
    ensures a == BLANK || b == BLANK || c == BLANK ==> HasBlank(g)
  {
    var l := LineAt(k);
    if a == BLANK {
      BlankTile(g, l.first.x, l.first.y);
    } else if b == BLANK {
      BlankTile(g, l.second.x, l.second.y);
    } else if c == BLANK {
      BlankTile(g, l.third.x, l.third.y);
    }
  }

  lemma {:induction false} FirstWinFrom(g: Grid, k: nat)
    ensures FirstWin(g, k).None? <==> forall j :: k <= j < 8 ==> !LineWins(g, LineAt(j))
    ensures FirstWin(g, k).Some? ==>
      var i := FirstWin(g, k).value;
      k <= i < 8 && LineWins(g, LineAt(i)) &&
      forall j :: k <= j < i ==> !LineWins(g, LineAt(j))
    decreases 8 - k
  {
    if k < 8 && !LineWins(g, LineAt(k)) {
      FirstWinFrom(g, k + 1);
    }
  }

  /** The classification of a grid, the result of checkForWin. */
  datatype Outcome = Undecided | Stalemate | Win(first: Coord, second: Coord, third: Coord)

  function WinOf(l: Line): Outcome {
    Win(l.first, l.second, l.third)
  }

  /**
   * The first winning line of the scan if there is one; otherwise a
   * stalemate when no tile is BLANK, and undecided when one is.
   */
  function Classify(g: Grid): Outcome {
    match FirstWin(g, 0)
    case Some(k) => WinOf(LineAt(k))
    case None => if HasBlank(g) then Undecided else Stalemate
  }

  /** Classify is exact: a win iff some line wins (and then the first one), else full or not. */
  lemma ClassifyExact(g: Grid)
    ensures Classify(g).Win? <==> SomeLineWins(g)
    ensures Classify(g).Win? ==>
      exists k :: IsFirstWinning(g, k) && Classify(g) == WinOf(LineAt(k))
    ensures Classify(g) == Stalemate <==> !SomeLineWins(g) && !HasBlank(g)
    ensures Classify(g) == Undecided <==> !SomeLineWins(g) && HasBlank(g)
  {
    FirstWinFrom(g, 0);
    if FirstWin(g, 0).Some? {
      var k := FirstWin(g, 0).value;
      assert IsFirstWinning(g, k);
    }
  }

  /** When line k is the first winning line, the outcome is a win on it. */
  lemma ClassifyFirstWinning(g: Grid, k: int)
    requires IsFirstWinning(g, k)
    ensures Classify(g) == WinOf(LineAt(k))
  {
    ClassifyExact(g);
    var i :| IsFirstWinning(g, i) && Classify(g) == WinOf(LineAt(i));
    assert !(i < k) && !(k < i);
  }

  /** When no line wins, the outcome is undecided or a stalemate, by BLANK tiles. */
  lemma ClassifyNoWin(g: Grid)
    requires NoWinBefore(g, 8)
    ensures Classify(g) == if HasBlank(g) then Undecided else Stalemate
  {
    FirstWinFrom(g, 0);
  }

  /** A winning triple is three distinct tiles on one line holding the same mark. */
  lemma WinTriple(g: Grid)
    requires Classify(g).Win?
    ensures var o := Classify(g);
      InBounds(o.first) && InBounds(o.second) && InBounds(o.third) &&
      o.first != o.second && o.first != o.third && o.second != o.third &&
      Cell(g, o.first) != BLANK &&
      Cell(g, o.first) == Cell(g, o.second) == Cell(g, o.third)
  {
    ClassifyExact(g);
  }

  /** Number of entries of r equal to m. */
  function CountIn(r: seq<TileState>, m: TileState): nat {
    if r == [] then 0 else (if r[0] == m then 1 else 0) + CountIn(r[1..], m)
  }

  /** Number of tiles of g in state m. */
  function Count(g: Grid, m: TileState): nat {
    CountIn(g[0], m) + CountIn(g[1], m) + CountIn(g[2], m)
  }

  lemma {:induction false} CountInUpdate(r: seq<TileState>, y: nat, v: TileState, m: TileState)
    requires y < |r|
    ensures CountIn(r[y := v], m) ==
      CountIn(r, m) - (if r[y] == m then 1 else 0) + (if v == m then 1 else 0)
  {
    if y > 0 {
      assert r[y := v][1..] == r[1..][y - 1 := v];
      CountInUpdate(r[1..], y - 1, v, m);
    } else {
      assert r[y := v][1..] == r[1..];
    }
  }

  /** Setting one tile to v changes each count only for that tile. */
  lemma CountUpdate(g: Grid, x: int, y: int, v: TileState, m: TileState)
    requires 0 <= x < Size && 0 <= y < Size
    ensures Count(Update(g, x, y, v), m) ==
      Count(g, m) - (if g[x][y] == m then 1 else 0) + (if v == m then 1 else 0)
  {
    CountInUpdate(g[x], y, v, m);
  }

  /**
   * The mark counts of a game played alternately from the empty grid with X
   * first: X is to play exactly when the counts are equal, and otherwise X
   * is one ahead and O is to play.
   */
  predicate Balanced(g: Grid, turn: TileState) {
    (turn == X && Count(g, X) == Count(g, O)) ||
    (turn == O && Count(g, X) == Count(g, O) + 1)
  }

  lemma EmptyBalanced()
    ensures Balanced(EmptyGrid(), X)
    ensures Count(EmptyGrid(), X) == 0 && Count(EmptyGrid(), O) == 0
  {
  }

  /** A successful play keeps the counts balanced. */
  lemma PlayKeepsBalanced(g: Grid, x: int, y: int, turn: TileState)
    requires 0 <= x < Size && 0 <= y < Size && g[x][y] == BLANK
    requires Balanced(g, turn)
    ensures Balanced(Update(g, x, y, turn), Other(turn))
    ensures Count(Update(g, x, y, turn), turn) == Count(g, turn) + 1
  {
    CountUpdate(g, x, y, turn, X);
    CountUpdate(g, x, y, turn, O);
  }
}
