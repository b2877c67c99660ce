/**
 * The client-side board model (place.PlaceBoardObservable): the board received
 * from the server, its dimension, and the notifications sent to observers.
 */
module BoardObservable {
  import opened Common
  import opened Canvas

  /** One call to the observers: the tile passed along, and the board they can read at that moment. */
  datatype Notification = Notification(tile: Tile, seen: Board)

  /** `board` is None until the server's board has been received. */
  datatype Model = Model(board: Option<Board>, dim: int, notified: seq<Notification>)

  /** The `DIM` field agrees with the board: 0 before one is stored, the board's own dimension after. */
  predicate Consistent(m: Model) {
    m.dim == (if m.board.Some? then m.board.value.dim else 0)
  }

  /** The constructor: no board, dimension 0, nobody notified. */
  function Empty(): (m: Model)
    ensures GetDim(m) == 0 && m.board.None? && m.notified == []
    ensures Consistent(m)
  {
    Model(None, 0, [])
  }

  /** `initializeBoard(board)`: keeps the board and takes its dimension. */
  function InitializeBoard(m: Model, b: Board): (m': Model)
    ensures m'.board == Some(b)
    ensures GetDim(m') == b.dim
    ensures m'.notified == m.notified
    ensures forall r, c :: GetTile(m', r, c) == TileAt(b, r, c)
    ensures Consistent(m')
  {
    m.(board := Some(b), dim := b.dim)
  }

  /** `getDIM()`: the stored dimension, which is the board's once one is stored and 0 before. */
  function GetDim(m: Model): (d: int)
    ensures Consistent(m) ==> d == (if m.board.Some? then m.board.value.dim else 0)
  {
    m.dim
  }

  /** `getTile(row, col)`: the board's tile there. Before initialisation the source dereferences null. */
  function GetTile(m: Model, row: int, col: int): (r: Option<Tile>)
    requires m.board.Some?
    ensures r.Some? <==> (row, col) in m.board.value.cells
    ensures r.Some? ==> r.value == m.board.value.cells[(row, col)]
  {
    TileAt(m.board.value, row, col)
  }

  /** `tileChanged(tile)`: the tile is written into the board, then observers are notified with it. */
  function TileChanged(m: Model, t: Tile): (m': Model)
    requires m.board.Some?
    ensures m'.board.Some? && GetDim(m') == GetDim(m)
    ensures GetTile(m', t.row, t.col) == Some(t)
    ensures forall r, c :: (r, c) != (t.row, t.col) ==> GetTile(m', r, c) == GetTile(m, r, c)
    ensures m'.notified == m.notified + [Notification(t, m'.board.value)]
    ensures Consistent(m) ==> Consistent(m')
  {
    var b := SetTile(m.board.value, t);
    m.(board := Some(b), notified := m.notified + [Notification(t, b)])
  }

  /** Observers are told about exactly the changed tile, and by then the board already shows it. */
  lemma NotifiedAfterWrite(m: Model, t: Tile)
    requires m.board.Some?
    ensures var m' := TileChanged(m, t);
      var last := m'.notified[|m'.notified| - 1];
      && last.tile == t
      && TileAt(last.seen, t.row, t.col) == Some(t)
      && |m'.notified| == |m.notified| + 1
  {
  }

  /** The model after the board `b` is received and then each of `ts` is reported, in order. */
  function Replay(m: Model, b: Board, ts: seq<Tile>): (m': Model)
    ensures m'.board.Some? && Consistent(m')
    decreases |ts|
  {
    if ts == [] then InitializeBoard(m, b)
    else TileChanged(Replay(m, b, ts[..|ts| - 1]), ts[|ts| - 1])
  }

  /** The last of `ts` placed at (row, col), or what `b` held there when none was. */
  function LastAt(b: Board, ts: seq<Tile>, row: int, col: int): Option<Tile>
    decreases |ts|
  {
    if ts == [] then TileAt(b, row, col)
    else if ts[|ts| - 1].row == row && ts[|ts| - 1].col == col then Some(ts[|ts| - 1])
    else LastAt(b, ts[..|ts| - 1], row, col)
  }

  /** `getTile` reads the latest write to the cell: the last tile reported there, else the received board's. */
  lemma {:induction false} GetTileIsLastWrite(m: Model, b: Board, ts: seq<Tile>, row: int, col: int)
    ensures GetTile(Replay(m, b, ts), row, col) == LastAt(b, ts, row, col)
    ensures GetDim(Replay(m, b, ts)) == b.dim
    decreases |ts|
  {
    if ts != [] {
      GetTileIsLastWrite(m, b, ts[..|ts| - 1], row, col);
    }
  }
}
