/**
 * The messages (PlaceRequest) exchanged between clients and the server. Each kind
 * of the RequestType enum carries its own payload.
 */
module Protocol {
  import opened Common
  import Canvas

  datatype Request =
    | Login(name: Option<string>)         // LOGIN, client to server; None is a null name
    | LoginSuccess(username: string)      // LOGIN_SUCCESS, server to client
    | Error(message: string)              // ERROR, either way
    | Snapshot(board: Canvas.Board)       // BOARD, server to client
    | ChangeTile(tile: Canvas.Tile)       // CHANGE_TILE, client to server
    | TileChanged(tile: Canvas.Tile)      // TILE_CHANGED, server to client
    | Other                               // any other kind of the enum

  /**
   * The label the server session puts in its bad-request ERROR: the kind's enum
   * name, or "UNKNOWN" for a kind it does not handle.
   */
  function KindName(r: Request): string {
    match r
    case Login(_) => "LOGIN"
    case LoginSuccess(_) => "LOGIN_SUCCESS"
    case Error(_) => "ERROR"
    case Snapshot(_) => "BOARD"
    case ChangeTile(_) => "CHANGE_TILE"
    case TileChanged(_) => "TILE_CHANGED"
    case Other => "UNKNOWN"
  }
}
