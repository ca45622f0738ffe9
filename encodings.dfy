/**
 * The two ways the two copies of TicTacMap.checkForWin report an outcome:
 * the legacy copy returns null, an empty set or the set of the three
 * winning tiles; the newer copy returns Optional.empty(), Optional.of of an
 * empty set, or Optional.of of the three winning tiles. A tile of a
 * returned set is represented by its coordinate.
 */
module Encodings {
  import opened Tiles
  import opened Rules

  /** The tiles of the outcome's winning line, none when there is no win. */
  function TilesOf(o: Outcome): set<Coord> {
    if o.Win? then {o.first, o.second, o.third} else {}
  }

  function LineTiles(l: Line): set<Coord> {
    {l.first, l.second, l.third}
  }

  /** The legacy result: a possibly null set of tiles. */
  datatype LegacyResult = Null | TileSet(tiles: set<Coord>)

  function ToLegacy(o: Outcome): LegacyResult {
    match o
    case Undecided => Null
    case Stalemate => TileSet({})
    case Win(_, _, _) => TileSet(TilesOf(o))
  }

  /** The newer result: an optional set of tiles. */
  function ToOptional(o: Outcome): Option<set<Coord>> {
    match o
    case Undecided => None
    case Stalemate => Some({})
    case Win(_, _, _) => Some(TilesOf(o))
  }

  /** Reads a legacy result as the newer copy would report it. */
  function LegacyToOptional(r: LegacyResult): Option<set<Coord>> {
    match r
    case Null => None
    case TileSet(s) => Some(s)
  }

  /** Both copies report the same thing for every outcome. */
  lemma EncodingsAgree(o: Outcome)
    ensures ToOptional(o) == LegacyToOptional(ToLegacy(o))
  {
  }

  /** Two lines of the scan with the same tiles are the same line. */
  lemma LineTilesDistinct(j: int, k: int)
    requires 0 <= j < 8 && 0 <= k < 8
    requires LineTiles(LineAt(j)) == LineTiles(LineAt(k))
    ensures j == k
  {
    var lj, lk := LineAt(j), LineAt(k);
    assert lj.first in LineTiles(lk) && lj.second in LineTiles(lk) && lj.third in LineTiles(lk);
    assert lk.first in LineTiles(lj) && lk.second in LineTiles(lj) && lk.third in LineTiles(lj);
  }

  /**
   * The legacy result of a grid: null iff no line wins and a tile is BLANK,
   * the empty set iff no line wins and the board is full, and a set of
   * three tiles iff some line wins, namely the first winning line's tiles.
   */
  lemma LegacyEncoding(g: Grid)
    ensures ToLegacy(Classify(g)) == Null <==> !SomeLineWins(g) && HasBlank(g)
    ensures ToLegacy(Classify(g)) == TileSet({}) <==> !SomeLineWins(g) && !HasBlank(g)
    ensures ToLegacy(Classify(g)).TileSet? && |ToLegacy(Classify(g)).tiles| == 3 <==> SomeLineWins(g)
    ensures SomeLineWins(g) ==>
      exists k :: IsFirstWinning(g, k) && ToLegacy(Classify(g)) == TileSet(LineTiles(LineAt(k)))
  {
    ClassifyExact(g);
    if SomeLineWins(g) {
      var k :| IsFirstWinning(g, k) && Classify(g) == WinOf(LineAt(k));
      assert TilesOf(Classify(g)) == LineTiles(LineAt(k));
    }
  }

  /**
   * The newer result of a grid: empty iff no line wins and a tile is
   * BLANK, the empty set iff no line wins and the board is full, and a set
   * of three tiles iff some line wins, namely the first winning line's.
   */
  lemma OptionalEncoding(g: Grid)
    ensures ToOptional(Classify(g)) == None <==> !SomeLineWins(g) && HasBlank(g)
    ensures ToOptional(Classify(g)) == Some({}) <==> !SomeLineWins(g) && !HasBlank(g)
    ensures ToOptional(Classify(g)).Some? && |ToOptional(Classify(g)).value| == 3 <==> SomeLineWins(g)
    ensures SomeLineWins(g) ==>
      exists k :: IsFirstWinning(g, k) && ToOptional(Classify(g)) == Some(LineTiles(LineAt(k)))
  {
    LegacyEncoding(g);
    EncodingsAgree(Classify(g));
  }

  /** No information is lost: the legacy result of a grid determines its outcome. */
  lemma LegacyDeterminesOutcome(g1: Grid, g2: Grid)
    requires ToLegacy(Classify(g1)) == ToLegacy(Classify(g2))
    ensures Classify(g1) == Classify(g2)
  {
    ClassifyExact(g1);
    ClassifyExact(g2);
    if Classify(g1).Win? {
      var j :| IsFirstWinning(g1, j) && Classify(g1) == WinOf(LineAt(j));
      var k :| IsFirstWinning(g2, k) && Classify(g2) == WinOf(LineAt(k));
      assert TilesOf(Classify(g1)) == LineTiles(LineAt(j));
      assert TilesOf(Classify(g2)) == LineTiles(LineAt(k));
      LineTilesDistinct(j, k);
    }
  }
}
