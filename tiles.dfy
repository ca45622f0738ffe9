/**
 * The state of a single tile of the tic-tac-toe board (TicTacTile).
 * Drawing of the marks is not part of this model.
 */
module Tiles {

  /** What a tile holds: nothing yet, or the mark of one of the two players. */
  datatype TileState = BLANK | X | O

  /** A tile coordinate on the board, x is the column and y the row. */
  datatype Coord = Coord(x: int, y: int)

  /** A tile: a fixed coordinate and a mutable state. */
  class Tile {
    const coord: Coord
    var state: TileState

    /** A new tile has the given coordinate and is BLANK. */
    constructor (coord: Coord)
      ensures this.coord == coord
      ensures state == BLANK
    {
      this.coord := coord;
      state := BLANK;
    }

    /** The mark on this tile, BLANK while unplayed. */
    function GetState(): TileState
      reads this
    {
      state
    }

    /** Puts mark s on this tile; the coordinate is a constant and stays as it is. */
    method SetState(s: TileState)
      modifies this
      ensures GetState() == s
    {
      state := s;
    }
  }
}
