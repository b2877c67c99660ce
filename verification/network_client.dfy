/**
 * The client's connection to the server (place.network.NetworkClient): the
 * login handshake done by the constructor, the receive loop of `run`, and
 * `sendTile`. Reads are inputs: a request, or None when the read throws.
 */
module NetworkClient {
  import opened Common
  import opened Canvas
  import opened Protocol
  import opened BoardObservable

  /** `go` keeps the receive loop running; `sent` is what was written to the server. */
  datatype Client = Client(go: bool, closed: bool, model: Model, sent: seq<Request>)

  /** The constructor either returns a client or throws; a failed one has still sent its LOGIN. */
  datatype Connection = Connected(client: Client) | Failed(sent: seq<Request>, closed: bool)

  /** While the loop runs, the model holds a board, so tile changes can be applied. */
  predicate Ready(c: Client) {
    c.go ==> c.model.board.Some?
  }

  /**
   * The constructor: LOGIN with the username, then one reply, then (after a
   * LOGIN_SUCCESS) the board. A read that throws ends in an exception without
   * closing the connection.
   */
  function Connect(username: string, model: Model, first: Option<Request>, second: Option<Request>)
    : (r: Connection)
    // the first message on the wire is LOGIN carrying the username
    ensures r.Connected? ==> r.client.sent == [Login(Some(username))]
    ensures r.Failed? ==> r.sent == [Login(Some(username))]
    // only a LOGIN_SUCCESS reply gets past the handshake
    ensures r.Connected? <==> first.Some? && first.value.LoginSuccess? && second.Some?
    ensures first.Some? && !first.value.LoginSuccess? ==> r == Failed([Login(Some(username))], true)
    // the board is read only after a LOGIN_SUCCESS, and must be a BOARD
    ensures r.Connected? ==> (r.client.go <==> second.value.Snapshot?)
    ensures r.Connected? && r.client.go ==>
      r.client.model == InitializeBoard(model, second.value.board) && !r.client.closed
    ensures r.Connected? && !r.client.go ==> r.client.closed && r.client.model == model
    ensures r.Connected? ==> Ready(r.client)
  {
    var sent := [Login(Some(username))];
    match first
    case None => Failed(sent, false)
    case Some(reply) =>
      if !reply.LoginSuccess? then Failed(sent, true)
      else
        match second
        case None => Failed(sent, false)
        case Some(b) =>
          if b.Snapshot? then Connected(Client(true, false, InitializeBoard(model, b.board), sent))
          else Connected(Client(false, true, model, sent))
  }

  /** `stop()`: only clears `go`. */
  function Stop(c: Client): (c': Client)
    ensures !c'.go && c' == c.(go := false)
  {
    c.(go := false)
  }

  /** `close()`: the connection is closed; the model and what was sent stay. */
  function Close(c: Client): (c': Client)
    ensures c'.closed && c' == c.(closed := true)
  {
    c.(closed := true)
  }

  /** `sendTile(tile)`: a CHANGE_TILE carrying the tile; a write that throws is swallowed. */
  function SendTile(c: Client, t: Tile, writeFails: bool): (c': Client)
    ensures c'.sent == c.sent + (if writeFails then [] else [ChangeTile(t)])
    ensures c'.go == c.go && c'.closed == c.closed && c'.model == c.model
  {
    if writeFails then c else c.(sent := c.sent + [ChangeTile(t)])
  }

  /** Each tile of `ts` as the CHANGE_TILE that carries it. */
  function ChangeTiles(ts: seq<Tile>): (rs: seq<Request>)
    ensures |rs| == |ts|
    ensures forall i :: 0 <= i < |ts| ==> rs[i] == ChangeTile(ts[i])
  {
    if ts == [] then [] else [ChangeTile(ts[0])] + ChangeTiles(ts[1..])
  }

  /** `sendTile` for each tile of `ts` in turn, every write going through. */
  function SendTiles(c: Client, ts: seq<Tile>): (c': Client)
    decreases |ts|
    ensures c'.sent == c.sent + ChangeTiles(ts)
    ensures c'.go == c.go && c'.closed == c.closed && c'.model == c.model
  {
    if ts == [] then c
    else
      var c1 := SendTile(c, ts[0], false);
      var rest := ChangeTiles(ts[1..]);
      assert c1.sent == c.sent + [ChangeTile(ts[0])];
      assert ChangeTiles(ts) == [ChangeTile(ts[0])] + rest;
      assert c1.sent + rest == c.sent + ([ChangeTile(ts[0])] + rest);
      SendTiles(c1, ts[1..])
  }

  /**
   * One pass of the loop in `run`: TILE_CHANGED goes to the model, ERROR stops,
   * anything else is a bad response and stops. A failed read leaves the state as
   * it is (the toolkit shutdown it requests is not part of this model).
   */
  function Receive(c: Client, input: Option<Request>): (c': Client)
    requires c.go && c.model.board.Some?
    ensures input.None? ==> c' == c
    ensures input.Some? && input.value.TileChanged? ==>
      c' == c.(model := BoardObservable.TileChanged(c.model, input.value.tile))
    ensures input.Some? && !input.value.TileChanged? ==> c' == Stop(c)
    ensures Ready(c') && c'.sent == c.sent
    ensures Tiles(c'.model.notified) == Tiles(c.model.notified) + ChangedTiles([input])
  {
    match input
    case None => c
    case Some(TileChanged(t)) =>
      var m := BoardObservable.TileChanged(c.model, t);
      TilesSnoc(c.model.notified, m.notified[|m.notified| - 1]);
      c.(model := m)
    case Some(Error(_)) => Stop(c)
    case Some(_) => Stop(c)
  }

  /** The tiles the observers were notified with, in order. */
  function Tiles(ns: seq<Notification>): seq<Tile> {
    if ns == [] then [] else Tiles(ns[..|ns| - 1]) + [ns[|ns| - 1].tile]
  }

  /** The tiles carried by the TILE_CHANGED messages among `inputs`, in order. */
  function ChangedTiles(inputs: seq<Option<Request>>): seq<Tile> {
    if inputs == [] then []
    else
      (if inputs[0].Some? && inputs[0].value.TileChanged? then [inputs[0].value.tile] else [])
      + ChangedTiles(inputs[1..])
  }

  lemma TilesSnoc(ns: seq<Notification>, n: Notification)
    ensures Tiles(ns + [n]) == Tiles(ns) + [n.tile]
  {
    assert (ns + [n])[..|ns + [n]| - 1] == ns;
  }

  /** The receive loop of `run`: it reads while `go` holds, and closes once it ends. */
  function Run(c: Client, inputs: seq<Option<Request>>): (c': Client)
    requires Ready(c)
    decreases |inputs|
    ensures Ready(c')
    ensures !c'.go ==> c'.closed
    ensures c'.sent == c.sent
    // while it keeps running, only TILE_CHANGED messages (or failed reads) arrived,
    // and each of them was applied to the model, in order
    ensures c'.go ==> c.go && forall i :: 0 <= i < |inputs| ==> inputs[i].None? || inputs[i].value.TileChanged?
    ensures c'.go ==> Tiles(c'.model.notified) == Tiles(c.model.notified) + ChangedTiles(inputs)
  {
    if !c.go then Close(c)
    else if inputs == [] then c
    else
      assert ChangedTiles(inputs) == ChangedTiles([inputs[0]]) + ChangedTiles(inputs[1..]);
      Run(Receive(c, inputs[0]), inputs[1..])
  }

  /** An ERROR from the server ends the loop: the client stops and closes, and later messages are not read. */
  lemma ErrorEndsRun(c: Client, message: string, rest: seq<Option<Request>>)
    requires c.go && c.model.board.Some?
    ensures Run(c, [Some(Error(message))] + rest) == Close(Stop(c))
  {
    var inputs := [Some(Error(message))] + rest;
    assert inputs[0] == Some(Error(message)) && inputs[1..] == rest;
  }

  /** `stop` is idempotent. */
  lemma StopIdempotent(c: Client)
    ensures Stop(Stop(c)) == Stop(c)
  {
  }
}
