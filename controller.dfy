/**
 * The game step of a click on a board tile (the mouse handler of Main):
 * a click on a decided game restarts it, otherwise the clicked tile is
 * played and the board is checked again. Selection, highlighting and
 * repainting are not part of this model.
 */
module Controller {
  import opened Tiles
  import opened Rules
  import opened TicTac

  /** What a click did. */
  datatype ClickResult =
    | Restarted              // the game was already won or stalemated; the board is reset
    | Rejected               // the clicked tile was not BLANK; nothing changed
    | Played(after: Outcome) // the tile was played; the outcome of the new board

  method Click(b: Board, x: int, y: int) returns (r: ClickResult)
    requires b.Valid() && 0 <= x < Size && 0 <= y < Size
    modifies b, b.TileObjs
    ensures b.Valid()
    ensures r == Restarted <==> old(Classify(b.Grid())) != Undecided
    ensures r == Restarted ==> b.Grid() == EmptyGrid() && b.turn == X
    ensures r == Rejected <==>
      old(Classify(b.Grid())) == Undecided && old(b.Grid())[x][y] != BLANK
    ensures r == Rejected ==> b.Grid() == old(b.Grid()) && b.turn == old(b.turn)
    ensures r.Played? ==>
      b.Grid() == Update(old(b.Grid()), x, y, old(b.turn)) &&
      b.turn == Other(old(b.turn)) && r.after == Classify(b.Grid())
    ensures old(b.Alternating()) ==> b.Alternating()
  {
    var theWin := b.CheckForWin();
    if theWin != Undecided {
      // a decided game: start a new one
      b.Reset();
      return Restarted;
    }
    var ok := b.Play(x, y);
    if ok {
      theWin := b.CheckForWin();
      r := Played(theWin);
    } else {
      r := Rejected;
    }
  }

  /**
   * X plays (0,0), (0,1) and (0,2) with O's moves (1,0) and (1,1) in
   * between: X wins on column 0.
   */
  method ColumnWinScenario() returns (o: Outcome)
    ensures o == Win(Coord(0, 0), Coord(0, 1), Coord(0, 2))
  {
    var b := new Board();
    var ok := b.Play(0, 0);
    ok := b.Play(1, 0);
    ok := b.Play(0, 1);
    ok := b.Play(1, 1);
    ok := b.Play(0, 2);
    // column 0 is the first line of the scan, and it is all X
    ghost var g := b.Grid();
    assert g[0][0] == X && g[0][1] == X && g[0][2] == X;
    ClassifyFirstWinning(g, 0);
    o := b.CheckForWin();
  }
}
