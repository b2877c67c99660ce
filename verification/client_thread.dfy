/**
 * The server side of one connection (place.server.PlaceClientThread). Its calls
 * into the hub do not match the hub's own signatures, so the session is modelled
 * against an abstract hub: each step returns the effects it has, namely messages
 * written to the client and calls made into the hub, in order.
 */
module ClientThread {
  import opened Common
  import opened Canvas
  import opened Protocol
  import NetworkClient

  /** `username` is None (Java null) until a LOGIN arrives. */
  datatype Session = Session(username: Option<string>, alive: bool)

  /** One read of the input stream: a request (and whether writing the reply would throw), or a failed read. */
  datatype Input = Received(request: Request, replyFails: bool) | ReadFailed

  datatype Effect =
    | Send(request: Request)
    | HubLogin(username: Option<string>)
    | HubTileChange(tile: Tile)
    | HubLogout(user: Option<string>)

  const BAD_REQUEST_PREFIX := "Bad request received: "

  /** The constructor: alive once both streams are open; an IO failure means no session at all. */
  function Open(streamsOpened: bool): (r: Option<Session>)
    ensures r.Some? <==> streamsOpened
    ensures r.Some? ==> r.value.alive && r.value.username.None?
  {
    if streamsOpened then Some(Session(None, true)) else None
  }

  /** The kinds only the server may send, and kinds the session does not know. */
  predicate IllegalFromClient(req: Request) {
    !req.Login? && !req.ChangeTile?
  }

  /**
   * `badRequest(type)`: an ERROR to the client, the user logged out, the loop
   * ended. When the write throws, the exception skips the rest and is swallowed
   * by the read loop, which goes on.
   */
  function BadRequest(s: Session, kind: string, replyFails: bool): (r: (Session, seq<Effect>))
    ensures replyFails ==> r == (s, [])
    ensures !replyFails ==> r.0 == Session(s.username, false)
    ensures !replyFails ==> r.1 == [Send(Error(BAD_REQUEST_PREFIX + kind)), HubLogout(s.username)]
  {
    if replyFails then (s, [])
    else (s.(alive := false), [Send(Error(BAD_REQUEST_PREFIX + kind)), HubLogout(s.username)])
  }

  /** One pass of the read loop of `run`. */
  function Step(s: Session, input: Input): (r: (Session, seq<Effect>))
    ensures input.ReadFailed? ==> r == (s, [])
    ensures input.Received? && input.request.Login? ==>
      if s.username.None? then r == (Session(input.request.name, s.alive), [HubLogin(input.request.name)])
      else r == (s, [])
    ensures input.Received? && input.request.ChangeTile? ==> r == (s, [HubTileChange(input.request.tile)])
    ensures input.Received? && IllegalFromClient(input.request) ==>
      r == BadRequest(s, KindName(input.request), input.replyFails)
  {
    match input
    case ReadFailed => (s, [])
    case Received(req, replyFails) =>
      match req
      case Login(name) =>
        if s.username.None? then (s.(username := name), [HubLogin(name)]) else (s, [])
      case ChangeTile(tile) => (s, [HubTileChange(tile)])
      case _ => BadRequest(s, KindName(req), replyFails)
  }

  /** How many of `es` are calls to the hub's login with a non-null name. */
  function Logins(es: seq<Effect>): nat {
    if es == [] then 0 else (if es[0].HubLogin? && es[0].username.Some? then 1 else 0) + Logins(es[1..])
  }

  /** How many of `es` are calls to the hub's logout. */
  function Logouts(es: seq<Effect>): nat {
    if es == [] then 0 else (if es[0].HubLogout? then 1 else 0) + Logouts(es[1..])
  }

  lemma {:induction false} CountsAppend(a: seq<Effect>, b: seq<Effect>)
    ensures Logins(a + b) == Logins(a) + Logins(b)
    ensures Logouts(a + b) == Logouts(a) + Logouts(b)
  {
    if a == [] {
      assert a + b == b;
    } else {
      assert (a + b)[0] == a[0];
      assert (a + b)[1..] == a[1..] + b;
      CountsAppend(a[1..], b);
    }
  }

  /**
   * The loop of `run` over the inputs that arrive: it reads only while the
   * session is alive.
   */
  function Run(s: Session, inputs: seq<Input>): (r: (Session, seq<Effect>))
    decreases |inputs|
    ensures !s.alive ==> r == (s, [])
    // the name, once set, never changes
    ensures s.username.Some? ==> r.0.username == s.username
    // the hub's login is called with a name at most once per connection, and only while no name is set
    ensures Logins(r.1) <= (if s.username.None? then 1 else 0)
    // the hub's logout is called at most once, and only as the session ends
    ensures Logouts(r.1) <= 1
    ensures Logouts(r.1) == 1 ==> !r.0.alive
  {
    if !s.alive || inputs == [] then (s, [])
    else
      var (s1, e1) := Step(s, inputs[0]);
      var (s2, e2) := Run(s1, inputs[1..]);
      CountsAppend(e1, e2);
      (s2, e1 + e2)
  }

  /** A second LOGIN, once the name is set, is ignored: no reply and no change. */
  lemma SecondLoginIgnored(s: Session, name: Option<string>, replyFails: bool)
    requires s.username.Some?
    ensures Step(s, Received(Login(name), replyFails)) == (s, [])
  {
  }

  /**
   * A LOGIN with a null name is passed to the hub and leaves the name unset,
   * so the next LOGIN is acted on as well: the hub's login is called twice.
   */
  lemma NullLoginLetsLoginAgain(name: string, f1: bool, f2: bool)
    ensures Run(Open(true).value, [Received(Login(None), f1), Received(Login(Some(name)), f2)])
      == (Session(Some(name), true), [HubLogin(None), HubLogin(Some(name))])
  {
    var s := Open(true).value;
    var inputs := [Received(Login(None), f1), Received(Login(Some(name)), f2)];
    assert inputs[1..] == [Received(Login(Some(name)), f2)];
    assert inputs[1..][1..] == [];
    assert Step(s, inputs[0]) == (s, [HubLogin(None)]);
    var s1 := Session(Some(name), true);
    assert Step(s, inputs[1]) == (s1, [HubLogin(Some(name))]);
    assert Run(s1, []) == (s1, []);
    assert Run(s, inputs[1..]) == (s1, [HubLogin(Some(name))] + []);
    assert Run(s, inputs) == (s1, [HubLogin(None)] + ([HubLogin(Some(name))] + []));
    assert [HubLogin(None)] + ([HubLogin(Some(name))] + []) == [HubLogin(None), HubLogin(Some(name))];
  }

  /** CHANGE_TILE reaches the hub even before any LOGIN: nothing checks that the user is logged in. */
  lemma ChangeTileBeforeLogin(t: Tile, replyFails: bool)
    ensures Run(Open(true).value, [Received(ChangeTile(t), replyFails)])
      == (Session(None, true), [HubTileChange(t)])
  {
    var s := Open(true).value;
    var inputs := [Received(ChangeTile(t), replyFails)];
    assert inputs[1..] == [];
    assert Step(s, inputs[0]) == (s, [HubTileChange(t)]);
    assert Run(s, []) == (s, []);
    assert [HubTileChange(t)] + [] == [HubTileChange(t)];
  }

  /** A kind the client may not send ends the loop at once when the ERROR can be written; later inputs are not read. */
  lemma IllegalRequestEndsRun(s: Session, req: Request, rest: seq<Input>)
    requires s.alive
    requires IllegalFromClient(req)
    ensures Run(s, [Received(req, false)] + rest)
      == (Session(s.username, false), [Send(Error(BAD_REQUEST_PREFIX + KindName(req))), HubLogout(s.username)])
  {
    var inputs := [Received(req, false)] + rest;
    assert inputs[0] == Received(req, false) && inputs[1..] == rest;
    var (s1, e1) := Step(s, inputs[0]);
    assert !s1.alive;
    assert Run(s1, rest) == (s1, []);
    assert e1 + [] == e1;
  }

  /** Failed reads are skipped: the session stays alive and nothing happens. */
  lemma {:induction false} ReadFailuresKeepAlive(s: Session, n: nat)
    requires s.alive
    ensures Run(s, seq(n, _ => ReadFailed)) == (s, [])
  {
    if n > 0 {
      assert seq(n, _ => ReadFailed)[1..] == seq(n - 1, _ => ReadFailed);
      ReadFailuresKeepAlive(s, n - 1);
    }
  }

  /** Each request of `rs` read in turn, every reply write going through. */
  function Reads(rs: seq<Request>): (inputs: seq<Input>)
    ensures |inputs| == |rs|
    ensures forall i :: 0 <= i < |rs| ==> inputs[i] == Received(rs[i], false)
  {
    if rs == [] then [] else [Received(rs[0], false)] + Reads(rs[1..])
  }

  /** The hub's tile-change call for each tile of `ts`, in order. */
  function TileCalls(ts: seq<Tile>): (es: seq<Effect>)
    ensures |es| == |ts|
    ensures forall i :: 0 <= i < |ts| ==> es[i] == HubTileChange(ts[i])
  {
    if ts == [] then [] else [HubTileChange(ts[0])] + TileCalls(ts[1..])
  }

  /** A live session forwards a run of CHANGE_TILE requests to the hub one for one, and stays as it is. */
  lemma {:induction false} ChangeTilesForwarded(s: Session, ts: seq<Tile>)
    requires s.alive
    decreases |ts|
    ensures Run(s, Reads(NetworkClient.ChangeTiles(ts))) == (s, TileCalls(ts))
  {
    var inputs := Reads(NetworkClient.ChangeTiles(ts));
    if ts != [] {
      assert inputs[0] == Received(ChangeTile(ts[0]), false);
      assert inputs[1..] == Reads(NetworkClient.ChangeTiles(ts[1..]));
      ChangeTilesForwarded(s, ts[1..]);
      assert TileCalls(ts) == [HubTileChange(ts[0])] + TileCalls(ts[1..]);
    }
  }

  /**
   * What the client's `sendTile` writes reaches the hub: the tiles sent, read by
   * the server's session in order, become the hub's tile-change calls for exactly
   * those tiles, in the same order.
   */
  lemma SentTilesReachHub(s: Session, c: NetworkClient.Client, ts: seq<Tile>)
    requires s.alive
    ensures var c' := NetworkClient.SendTiles(c, ts);
      Run(s, Reads(c'.sent[|c.sent|..])) == (s, TileCalls(ts))
  {
    var c' := NetworkClient.SendTiles(c, ts);
    assert c'.sent[|c.sent|..] == NetworkClient.ChangeTiles(ts);
    ChangeTilesForwarded(s, ts);
  }
}
