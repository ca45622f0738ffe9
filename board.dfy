/**
 * The game logic of TicTacMap: a 3x3 board of tiles, whose turn it is,
 * playing a tile, checking for a win or stalemate, and resetting.
 * The tile map base class is reduced to the tile array: getTile(x, y) is
 * tiles[x, y], and the x and y sizes are both 3.
 */
module TicTac {
  import opened Tiles
  import opened Rules

  class Board {
    /** The tiles, tiles[x, y] at coordinate (x, y). */
    const tiles: array2<Tile?>
    /** The tile objects of the board. */
    ghost const TileObjs: set<Tile?>
    /** The mark the next play puts down; a new game opens with X. */
    var turn: TileState

    /**
     * A 3x3 array whose entry [i, j] is the tile of coordinate (i, j),
     * TileObjs is exactly those nine tiles, and the turn is a mark.
     */
    ghost predicate Valid()
      reads this, tiles
    {
      tiles.Length0 == Size && tiles.Length1 == Size &&
      (forall i, j :: 0 <= i < Size && 0 <= j < Size ==>
        tiles[i, j] != null && tiles[i, j] in TileObjs && tiles[i, j].coord == Coord(i, j)) &&
      TileObjs == {tiles[0, 0], tiles[0, 1], tiles[0, 2],
                   tiles[1, 0], tiles[1, 1], tiles[1, 2],
                   tiles[2, 0], tiles[2, 1], tiles[2, 2]} &&
      turn != BLANK
    }

    /** The states of the tiles, as a grid indexed [x][y]. */
    ghost function Grid(): (g: Grid)
      reads this, tiles, TileObjs
      requires Valid()
      ensures forall i, j :: 0 <= i < Size && 0 <= j < Size ==> g[i][j] == tiles[i, j].state
    {
      var g := [[tiles[0, 0].state, tiles[0, 1].state, tiles[0, 2].state],
                [tiles[1, 0].state, tiles[1, 1].state, tiles[1, 2].state],
                [tiles[2, 0].state, tiles[2, 1].state, tiles[2, 2].state]];
      assert |g[0]| == 3 && |g[1]| == 3 && |g[2]| == 3;
      g
    }

    /** The tile counts agree with alternating play from an empty board, X first. */
    ghost predicate Alternating()
      reads this, tiles, TileObjs
      requires Valid()
    {
      Balanced(Grid(), turn)
    }

    /** A fresh 3x3 array of fresh BLANK tiles, each holding its own coordinate. */
    static method CreateBoard() returns (board: array2<Tile?>)
      ensures fresh(board) && board.Length0 == Size && board.Length1 == Size
      ensures forall i, j :: 0 <= i < Size && 0 <= j < Size ==>
        board[i, j] != null && fresh(board[i, j]) &&
        board[i, j].coord == Coord(i, j) && board[i, j].state == BLANK
    {
      board := new Tile?[Size, Size];
      var x := 0;
      while x < board.Length0
        invariant 0 <= x <= Size
        invariant forall i, j :: 0 <= i < x && 0 <= j < Size ==>
          board[i, j] != null && fresh(board[i, j]) &&
          board[i, j].coord == Coord(i, j) && board[i, j].state == BLANK
      {
        var y := 0;
        while y < board.Length1
          invariant 0 <= y <= Size
          invariant forall i, j :: (0 <= i < x && 0 <= j < Size) || (i == x && 0 <= j < y) ==>
            board[i, j] != null && fresh(board[i, j]) &&
            board[i, j].coord == Coord(i, j) && board[i, j].state == BLANK
        {
          board[x, y] := new Tile(Coord(x, y));
          y := y + 1;
        }
        x := x + 1;
      }
    }

    /** A new board: every tile BLANK and X to play. */
    constructor ()
      ensures Valid() && fresh(tiles) && fresh(TileObjs - {null})
      ensures Grid() == EmptyGrid() && turn == X
      ensures Alternating()
    {
      var board := CreateBoard();
      tiles := board;
      TileObjs := set i, j | 0 <= i < Size && 0 <= j < Size :: board[i, j];
      turn := X;
      new;
      EmptyBalanced();
    }

    /**
     * Plays tile (x, y): false, and nothing changes, if it is not BLANK;
     * otherwise it gets the current turn, the turn passes, and true.
     */
    method Play(x: int, y: int) returns (ok: bool)
      requires Valid() && 0 <= x < Size && 0 <= y < Size
      modifies this, TileObjs
      ensures Valid()
      ensures ok == (old(Grid())[x][y] == BLANK)
      ensures ok ==> Grid() == Update(old(Grid()), x, y, old(turn))
      ensures ok ==> turn == Other(old(turn))
      ensures !ok ==> Grid() == old(Grid()) && turn == old(turn)
      ensures old(Alternating()) ==> Alternating()
    {
      ghost var g0 := Grid();
      var tile := tiles[x, y];
      var s := tile.GetState();
      if BLANK != s {
        return false;
      }
      tile.SetState(turn);
      turn := Other(turn);
      forall i, j | 0 <= i < Size && 0 <= j < Size
        ensures Grid()[i][j] == Update(g0, x, y, old(turn))[i][j]
      {
        if i != x || j != y {
          assert tiles[i, j].coord != tile.coord;
        }
      }
      GridsEqual(Grid(), Update(g0, x, y, old(turn)));
      if Balanced(g0, old(turn)) {
        PlayKeepsBalanced(g0, x, y, old(turn));
      }
      return true;
    }

    /**
     * Scans columns, rows, then (when the centre is not BLANK) the two
     * diagonals for three equal non-BLANK tiles, noting on the way whether a
     * BLANK tile was seen.
     */
    method CheckForWin() returns (o: Outcome)
      requires Valid()
      ensures o == Classify(Grid())
    {
      ghost var g := Grid();
      ghost var w: nat := 0;
      var first: Tile? := null;
      var second: Tile? := null;
      var third: Tile? := null;
      var win := false;
      var playable := false;

      // columns
      var x := 0;
      while !win && x < Size
        invariant 0 <= x <= Size
        invariant !win ==> NoWinBefore(g, x) && (playable <==> BlankBefore(g, x))
        invariant win ==> IsFirstWinning(g, w)
        invariant win ==> first != null && second != null && third != null
        invariant win ==> WinOf(LineAt(w)) == Win(first.coord, second.coord, third.coord)
      {
        ScanStep(g, x, g[x][0], g[x][1], g[x][2]);
        BlankBeforeNext(g, x);
        first := tiles[x, 0];
        var s1 := first.GetState();
        if BLANK == s1 {
          playable := true;
        } else {
          second := tiles[x, 1];
          third := tiles[x, 2];
          var s2 := second.GetState();
          var s3 := third.GetState();
          if s1 == s2 && s1 == s3 {
            win, w := true, x;
          } else {
            playable := playable || BLANK == s2;
            playable := playable || BLANK == s3;
          }
        }
        x := x + 1;
      }

      // rows
      var y := 0;
      while !win && y < Size
        invariant 0 <= y <= Size
        invariant !win ==> NoWinBefore(g, 3 + y) && (playable <==> HasBlank(g))
        invariant win ==> IsFirstWinning(g, w)
        invariant win ==> first != null && second != null && third != null
        invariant win ==> WinOf(LineAt(w)) == Win(first.coord, second.coord, third.coord)
      {
        ScanStep(g, 3 + y, g[0][y], g[1][y], g[2][y]);
        first := tiles[0, y];
        var s1 := first.GetState();
        if BLANK == s1 {
          playable := true;
        } else {
          second := tiles[1, y];
          third := tiles[2, y];
          var s2 := second.GetState();
          var s3 := third.GetState();
          if s1 == s2 && s1 == s3 {
            win, w := true, 3 + y;
          } else {
            playable := playable || BLANK == s2;
            playable := playable || BLANK == s3;
          }
        }
        y := y + 1;
      }

      // diagonals, both through the centre
      if !win {
        ScanStep(g, 6, g[1][1], g[2][0], g[0][2]);
        first := tiles[1, 1];
        var s1 := first.GetState();
        if BLANK != s1 {
          second := tiles[2, 0];
          third := tiles[0, 2];
          var s2 := second.GetState();
          var s3 := third.GetState();
          if s1 == s2 && s1 == s3 {
            win, w := true, 6;
          } else {
            ScanStep(g, 7, g[1][1], g[0][0], g[2][2]);
            playable := playable || BLANK == s2;
            playable := playable || BLANK == s3;
            second := tiles[0, 0];
            third := tiles[2, 2];
            s2 := second.GetState();
            s3 := third.GetState();
            if s1 == s2 && s1 == s3 {
              win, w := true, 7;
            } else {
              playable := playable || BLANK == s2;
              playable := playable || BLANK == s3;
            }
          }
        } else {
          // neither diagonal can win without the centre
          ScanStep(g, 7, g[1][1], g[0][0], g[2][2]);
          playable := true;
        }
      }

      if win {
        ClassifyFirstWinning(g, w);
      } else {
        ClassifyNoWin(g);
      }
      if win {
        o := Win(first.coord, second.coord, third.coord);
      } else if !playable {
        o := Stalemate;
      } else {
        o := Undecided;
      }
    }

    /** Clears the board for another game: every tile BLANK and X to play. */
    method Reset()
      requires Valid()
      modifies this, TileObjs
      ensures Valid()
      ensures Grid() == EmptyGrid() && turn == X
      ensures Alternating()
    {
      var x := 0;
      while x < Size
        invariant 0 <= x <= Size
        invariant Valid()
        invariant forall i, j :: 0 <= i < x && 0 <= j < Size ==> tiles[i, j].state == BLANK
      {
        var y := 0;
        while y < Size
          invariant 0 <= y <= Size
          invariant Valid()
          invariant forall i, j :: (0 <= i < x && 0 <= j < Size) || (i == x && 0 <= j < y) ==>
            tiles[i, j].state == BLANK
        {
          tiles[x, y].SetState(BLANK);
          y := y + 1;
        }
        x := x + 1;
      }
      turn := X;
      EmptyBalanced();
    }
  }
}
