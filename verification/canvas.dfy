/**
 * The shared grid of tiles. The Java classes PlaceTile, PlaceBoard and PlaceColor
 * are not part of this model; they are kept abstract here: a tile is a position,
 * an owner and a palette index, and a board is its dimension plus the tiles
 * written into it.
 */
module Canvas {
  import opened Common

  type PositiveInt = n: int | n > 0 witness 1

  /** Number of entries of the PlaceColor palette. Only its positivity is known. */
  const TOTAL_COLORS: PositiveInt

  /** A placement: cell (row, col), owner's username, palette index. */
  datatype Tile = Tile(row: int, col: int, owner: string, color: int)

  /** `cells` holds the tiles written since the board was built. */
  datatype Board = Board(dim: int, cells: map<(int, int), Tile>)

  /** A board of dimension `dim` to which nothing has been written yet. */
  function NewBoard(dim: int): Board {
    Board(dim, map[])
  }

  /** The tile written at (row, col), if any. */
  function TileAt(b: Board, row: int, col: int): Option<Tile> {
    if (row, col) in b.cells then Some(b.cells[(row, col)]) else None
  }

  /** Writing a tile shows it at its own cell and changes no other cell. */
  function SetTile(b: Board, t: Tile): (b': Board)
    ensures b'.dim == b.dim
    ensures TileAt(b', t.row, t.col) == Some(t)
    ensures forall r, c :: (r, c) != (t.row, t.col) ==> TileAt(b', r, c) == TileAt(b, r, c)
  {
    b.(cells := b.cells[(t.row, t.col) := t])
  }
}
