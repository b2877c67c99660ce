/**
 * The server hub (place.network.NetworkServer): the username registry, the
 * per-host and total connection quotas, the master board and the fan-out of
 * messages to every registered user's output stream.
 *
 * Output streams are opaque sink ids. The outside world is an Outbox: the
 * messages each sink has received so far, and the sinks whose writes throw.
 * Every operation is one atomic step (the Java methods are `synchronized`).
 */
module NetworkServer {
  import opened Common
  import opened Canvas
  import opened Protocol

  /** A client's internet address. */
  type Host = nat

  /** A user's output stream. */
  type SinkId = nat

  const MAX_TOTAL_CONNECTIONS := 100
  const MAX_CONNECTIONS_SINGLE_HOST := 10

  const USERNAME_TAKEN := "Username taken"
  const TOO_MANY_FROM_HOST := "Too many connections from your IP"
  const SERVER_FULL := "Server full"
  const SERVER_ERROR_MESSAGE := "The server has hit an unrecoverable error. Terminating all connections."

  /** What every sink has been sent, and which sinks fail on every write. */
  datatype Outbox = Outbox(logs: map<SinkId, seq<Request>>, broken: set<SinkId>)

  datatype Hub = Hub(
    users: map<string, SinkId>,
    connections: map<Host, int>,
    totalConnections: int,
    board: Board,
    outbox: Outbox)

  /** The messages sink `s` has received. */
  function Log(o: Outbox, s: SinkId): seq<Request> {
    if s in o.logs then o.logs[s] else []
  }

  /** One write to a sink; the flag is false when the write threw. */
  function Write(o: Outbox, s: SinkId, m: Request): (r: (Outbox, bool))
    ensures r.1 <==> s !in o.broken
    ensures r.0.broken == o.broken
    ensures Log(r.0, s) == Log(o, s) + (if r.1 then [m] else [])
    ensures forall s' :: s' != s ==> Log(r.0, s') == Log(o, s')
  {
    if s in o.broken then (o, false) else (o.(logs := o.logs[s := Log(o, s) + [m]]), true)
  }

  /** `n` copies of `m`. */
  function Repeat(m: Request, n: nat): (r: seq<Request>)
    ensures |r| == n
    ensures forall i :: 0 <= i < n ==> r[i] == m
  {
    seq(n, _ => m)
  }

  /** The number of usernames registered to sink `s`. */
  function Holders(users: map<string, SinkId>, s: SinkId): nat {
    |set u | u in users && users[u] == s|
  }

  /** The number of usernames among `names` registered to sink `s`. */
  function HoldersAmong(users: map<string, SinkId>, names: seq<string>, s: SinkId): nat {
    |set u | u in names && u in users && users[u] == s|
  }

  /** `order` lists every registered username exactly once (a HashMap iteration order). */
  predicate Enumerates(order: seq<string>, users: map<string, SinkId>) {
    && (forall i :: 0 <= i < |order| ==> order[i] in users)
    && (forall u :: u in users ==> u in order)
    && (forall i, j :: 0 <= i < j < |order| ==> order[i] != order[j])
  }

  /** The messages a broadcast of `m` leaves at sink `s`: one per username registered to it. */
  function Delivery(o: Outbox, users: map<string, SinkId>, s: SinkId, m: Request): seq<Request> {
    if s in o.broken then [] else Repeat(m, Holders(users, s))
  }

  /** Some registered user's sink accepts writes. */
  predicate Reachable(o: Outbox, users: map<string, SinkId>) {
    exists u :: u in users && users[u] !in o.broken
  }

  /** The hub built by the constructor: nobody registered, no host counted. */
  function Init(dim: int, outbox: Outbox): (h: Hub)
    ensures h.users == map[] && h.connections == map[] && h.totalConnections == 0
    ensures h.board == NewBoard(dim) && h.outbox == outbox
    ensures Valid(h)
  {
    Hub(map[], map[], 0, NewBoard(dim), outbox)
  }

  // ---------------------------------------------------------------------------
  // Counter invariant

  /** Some key of a non-empty map. */
  ghost function AnyKey(m: map<Host, int>): (k: Host)
    requires |m| > 0
    ensures k in m
  {
    assert exists k :: k in m by {
      var k :| k in m.Keys;
    }
    var k :| k in m; k
  }

  /** Sum of the values of a map. */
  ghost function Sum(m: map<Host, int>): int
    decreases |m|
  {
    if |m| == 0 then 0
    else
      var k := AnyKey(m);
      assert |m - {k}| < |m| by { assert (m - {k}).Keys == m.Keys - {k}; }
      m[k] + Sum(m - {k})
  }

  /** The hub's bookkeeping: host counts are never negative; the total is their sum and the number of registered users. */
  ghost predicate Valid(h: Hub) {
    && (forall k :: k in h.connections ==> h.connections[k] >= 0)
    && h.totalConnections == Sum(h.connections)
    && |h.users| == h.totalConnections
  }

  /** Any key may be taken out first when summing. */
  lemma {:induction false} SumRemove(m: map<Host, int>, k: Host)
    requires k in m
    ensures Sum(m) == m[k] + Sum(m - {k})
    decreases |m|
  {
    assert |m| > 0 by { assert k in m.Keys; }
    var j := AnyKey(m);
    if j != k {
      var mj := m - {j};
      var mk := m - {k};
      assert mj.Keys == m.Keys - {j};
      assert mk.Keys == m.Keys - {k};
      SumRemove(mj, k);
      SumRemove(mk, j);
      assert mj - {k} == mk - {j};
    }
  }

  /** Setting one entry changes the sum by the difference. */
  lemma SumUpdate(m: map<Host, int>, k: Host, v: int)
    ensures Sum(m[k := v]) == Sum(m) - (if k in m then m[k] else 0) + v
  {
    SumRemove(m[k := v], k);
    assert m[k := v] - {k} == m - {k};
    if k in m {
      SumRemove(m, k);
    } else {
      assert m - {k} == m;
    }
  }

  // ---------------------------------------------------------------------------
  // login

  /** The connections counted for `loc`; an unseen host counts zero. */
  function HostCount(h: Hub, loc: Host): int {
    if loc in h.connections then h.connections[loc] else 0
  }

  /** `usernameTaken`: the name is a key of the registry. */
  predicate UsernameTaken(h: Hub, u: string) {
    u in h.users
  }

  /** `login` refused `u` with `reason`: one ERROR to `out` (unless the write throws), registry and total untouched. */
  predicate RejectedWith(h: Hub, r: (Hub, bool), loc: Host, out: SinkId, reason: string) {
    && !r.1
    && r.0.users == h.users
    && r.0.totalConnections == h.totalConnections
    && r.0.connections == h.connections[loc := HostCount(h, loc)]
    && Log(r.0.outbox, out) == Log(h.outbox, out) + (if out in h.outbox.broken then [] else [Error(reason)])
  }

  /** Whether admission control lets `u` in from `loc`. */
  predicate Admits(h: Hub, u: string, loc: Host) {
    && !UsernameTaken(h, u)
    && HostCount(h, loc) < MAX_CONNECTIONS_SINGLE_HOST
    && h.totalConnections < MAX_TOTAL_CONNECTIONS
  }

  /**
   * `login(usernameRequest, location, out)`. The result flag is the Java return
   * value; a write that throws is caught and makes the call return false.
   */
  function Login(h: Hub, u: string, loc: Host, out: SinkId): (r: (Hub, bool))
    // the checks, in their order
    ensures UsernameTaken(h, u) ==> RejectedWith(h, r, loc, out, USERNAME_TAKEN)
    ensures !UsernameTaken(h, u) && HostCount(h, loc) >= MAX_CONNECTIONS_SINGLE_HOST
            ==> RejectedWith(h, r, loc, out, TOO_MANY_FROM_HOST)
    ensures !UsernameTaken(h, u) && HostCount(h, loc) < MAX_CONNECTIONS_SINGLE_HOST
            && h.totalConnections >= MAX_TOTAL_CONNECTIONS
            ==> RejectedWith(h, r, loc, out, SERVER_FULL)
    // admission: registered and counted before the replies are written
    ensures Admits(h, u, loc) ==>
      && r.0.users == h.users[u := out]
      && r.0.connections == h.connections[loc := HostCount(h, loc) + 1]
      && r.0.totalConnections == h.totalConnections + 1
      && Log(r.0.outbox, out)
         == Log(h.outbox, out) + (if out in h.outbox.broken then [] else [LoginSuccess(u), Snapshot(h.board)])
    // true is returned only here
    ensures r.1 <==> Admits(h, u, loc) && out !in h.outbox.broken
    // whatever the outcome, the host now has an entry, and nothing else moves
    ensures r.0.connections.Keys == h.connections.Keys + {loc}
    ensures r.0.board == h.board && r.0.outbox.broken == h.outbox.broken
    ensures forall s :: s != out ==> Log(r.0.outbox, s) == Log(h.outbox, s)
  {
    var h1 := h.(connections := h.connections[loc := HostCount(h, loc)]);
    if UsernameTaken(h, u) then
      (h1.(outbox := Write(h.outbox, out, Error(USERNAME_TAKEN)).0), false)
    else if HostCount(h, loc) >= MAX_CONNECTIONS_SINGLE_HOST then
      (h1.(outbox := Write(h.outbox, out, Error(TOO_MANY_FROM_HOST)).0), false)
    else if h.totalConnections >= MAX_TOTAL_CONNECTIONS then
      (h1.(outbox := Write(h.outbox, out, Error(SERVER_FULL)).0), false)
    else
      var h2 := h1.(users := h.users[u := out],
                    connections := h.connections[loc := HostCount(h, loc) + 1],
                    totalConnections := h.totalConnections + 1);
      var (o1, ok1) := Write(h.outbox, out, LoginSuccess(u));
      if !ok1 then (h2.(outbox := o1), false)
      else
        var (o2, ok2) := Write(o1, out, Snapshot(h.board));
        (h2.(outbox := o2), ok2)
  }

  /** Both outcomes of `login` keep the counters consistent. */
  lemma LoginPreservesValid(h: Hub, u: string, loc: Host, out: SinkId)
    requires Valid(h)
    ensures Valid(Login(h, u, loc, out).0)
  {
    var r := Login(h, u, loc, out).0;
    if Admits(h, u, loc) {
      CountedStep(h, r, loc, 1);
    } else {
      CountedStep(h, r, loc, 0);
    }
  }

  /** Adding `d` to one host count, to the total and to the registry size keeps the counters consistent. */
  lemma CountedStep(h: Hub, r: Hub, loc: Host, d: nat)
    requires Valid(h)
    requires r.connections == h.connections[loc := HostCount(h, loc) + d]
    requires r.totalConnections == h.totalConnections + d
    requires |r.users| == |h.users| + d
    ensures Valid(r)
  {
    CountedSum(h, r, loc, d);
    assert forall k :: k in r.connections ==> r.connections[k] >= 0;
  }

  lemma CountedSum(h: Hub, r: Hub, loc: Host, d: nat)
    requires h.totalConnections == Sum(h.connections)
    requires r.connections == h.connections[loc := HostCount(h, loc) + d]
    requires r.totalConnections == h.totalConnections + d
    ensures r.totalConnections == Sum(r.connections)
  {
    SumUpdate(h.connections, loc, HostCount(h, loc) + d);
  }

  /**
   * An ERROR naming a quota goes out exactly when that quota is what stopped the
   * login: the three reasons are distinct, so the reply identifies the check.
   */
  lemma RejectionReasonIff(h: Hub, u: string, loc: Host, out: SinkId)
    requires out !in h.outbox.broken
    ensures var r := Login(h, u, loc, out);
      && (Log(r.0.outbox, out) == Log(h.outbox, out) + [Error(USERNAME_TAKEN)]
          <==> UsernameTaken(h, u))
      && (Log(r.0.outbox, out) == Log(h.outbox, out) + [Error(TOO_MANY_FROM_HOST)]
          <==> !UsernameTaken(h, u) && HostCount(h, loc) >= MAX_CONNECTIONS_SINGLE_HOST)
      && (Log(r.0.outbox, out) == Log(h.outbox, out) + [Error(SERVER_FULL)]
          <==> !UsernameTaken(h, u) && HostCount(h, loc) < MAX_CONNECTIONS_SINGLE_HOST
               && h.totalConnections >= MAX_TOTAL_CONNECTIONS)
  {
    var r := Login(h, u, loc, out);
    var before := Log(h.outbox, out);
    assert USERNAME_TAKEN != TOO_MANY_FROM_HOST && USERNAME_TAKEN != SERVER_FULL
        && TOO_MANY_FROM_HOST != SERVER_FULL;
    if Admits(h, u, loc) {
      var after := Log(r.0.outbox, out);
      assert |after| == |before| + 2;
    } else {
      var after := Log(r.0.outbox, out);
      assert after[|before|] == after[|after| - 1];
    }
  }

  /** A rejected login from an unseen host still leaves a zero entry for it. */
  lemma RejectedLoginAddsHostEntry(h: Hub, u: string, loc: Host, out: SinkId)
    requires loc !in h.connections
    requires !Admits(h, u, loc)
    ensures var r := Login(h, u, loc, out);
      !r.1 && loc in r.0.connections && r.0.connections[loc] == 0 && r.0.users == h.users
  {
  }

  /** When the replies cannot be written, the user stays registered although `login` returns false. */
  lemma FailedReplyLeavesUserRegistered(h: Hub, u: string, loc: Host, out: SinkId)
    requires Admits(h, u, loc)
    requires out in h.outbox.broken
    ensures var r := Login(h, u, loc, out);
      !r.1 && u in r.0.users && r.0.totalConnections == h.totalConnections + 1
  {
  }

  // ---------------------------------------------------------------------------
  // logout

  /**
   * `logout(username, location)`. The source unboxes the host's count without a
   * check, so `location` must have an entry; the username is not checked.
   */
  function Logout(h: Hub, u: string, loc: Host): (h': Hub)
    requires loc in h.connections
    ensures h'.users == h.users - {u}
    ensures h'.totalConnections == h.totalConnections - 1
    ensures h.connections[loc] <= 1 ==> h'.connections == h.connections - {loc}
    ensures h.connections[loc] > 1 ==> h'.connections == h.connections[loc := h.connections[loc] - 1]
    ensures h'.board == h.board && h'.outbox == h.outbox
  {
    var c := h.connections[loc] - 1;
    var conns := if c <= 0 then h.connections - {loc} else h.connections[loc := c];
    h.(connections := conns, totalConnections := h.totalConnections - 1, users := h.users - {u})
  }

  /** Logging out a registered user from a host that counts it keeps the counters consistent. */
  lemma LogoutPreservesValid(h: Hub, u: string, loc: Host)
    requires Valid(h)
    requires u in h.users
    requires loc in h.connections && h.connections[loc] >= 1
    ensures Valid(Logout(h, u, loc))
  {
    var c := h.connections[loc] - 1;
    SumRemove(h.connections, loc);
    if c > 0 {
      SumUpdate(h.connections, loc, c);
    }
    assert (h.users - {u}).Keys == h.users.Keys - {u};
  }

  /** `logout` undoes a successful `login`: registry, total and the sum of host counts are back. */
  lemma LogoutUndoesLogin(h: Hub, u: string, loc: Host, out: SinkId)
    requires Admits(h, u, loc)
    requires HostCount(h, loc) >= 0
    ensures var h1 := Login(h, u, loc, out).0;
      && loc in h1.connections
      && var h2 := Logout(h1, u, loc);
      && h2.users == h.users
      && h2.totalConnections == h.totalConnections
      && Sum(h2.connections) == Sum(h.connections)
      && (loc !in h.connections || h.connections[loc] > 0 ==> h2.connections == h.connections)
  {
    var n := HostCount(h, loc);
    var h1 := Login(h, u, loc, out).0;
    assert h1.connections == h.connections[loc := n + 1];
    var h2 := Logout(h1, u, loc);
    assert h2.users == h.users by {
      assert h1.users == h.users[u := out];
    }
    if n > 0 {
      assert h2.connections == h.connections[loc := n + 1][loc := n];
      assert h2.connections == h.connections;
    } else {
      assert h2.connections == h.connections - {loc};
      if loc in h.connections {
        assert h.connections[loc] == 0;
        SumRemove(h.connections, loc);
      } else {
        assert h2.connections == h.connections;
      }
    }
  }

  /**
   * `usernameTaken` follows the registry: a name is taken right after its
   * admitted login, and free again right after its logout.
   */
  lemma UsernameTakenTracksRegistry(h: Hub, u: string, loc: Host, out: SinkId)
    requires Admits(h, u, loc)
    ensures !UsernameTaken(h, u)
    ensures var h1 := Login(h, u, loc, out).0;
      && UsernameTaken(h1, u)
      && loc in h1.connections
      && !UsernameTaken(Logout(h1, u, loc), u)
  {
    var h1 := Login(h, u, loc, out).0;
    assert h1.users == h.users[u := out];
  }

  /**
   * A logout that takes the host's count to zero removes its entry, so a second
   * logout from that host finds no count: the source's unboxing then throws,
   * which is outside what `Logout` accepts.
   */
  lemma LastLogoutRemovesHostEntry(h: Hub, u: string, loc: Host)
    requires loc in h.connections && h.connections[loc] == 1
    ensures loc !in Logout(h, u, loc).connections
  {
  }

  /** `logout` never checks presence: a second call for the same user decrements again and breaks the counters. */
  lemma LogoutTwiceBreaksValid(h: Hub, u: string, loc: Host)
    requires Valid(h)
    requires u in h.users
    requires loc in h.connections && h.connections[loc] >= 2
    ensures var h1 := Logout(h, u, loc);
      && loc in h1.connections
      && var h2 := Logout(h1, u, loc);
      && h2.totalConnections == h.totalConnections - 2
      && |h2.users| == h.totalConnections - 1
      && !Valid(h2)
  {
    var h1 := Logout(h, u, loc);
    var h2 := Logout(h1, u, loc);
    assert (h.users - {u}).Keys == h.users.Keys - {u};
    assert h2.users == h.users - {u};
  }

  // ---------------------------------------------------------------------------
  // fan-out: tileChangeRequest, serverError, badRequest

  lemma HoldersAmongStep(users: map<string, SinkId>, order: seq<string>, i: nat, s: SinkId)
    requires i < |order|
    requires order[i] in users
    requires forall j :: 0 <= j < i ==> order[j] != order[i]
    ensures HoldersAmong(users, order[..i+1], s)
            == HoldersAmong(users, order[..i], s) + (if users[order[i]] == s then 1 else 0)
  {
    var before := set u | u in order[..i] && u in users && users[u] == s;
    var after := set u | u in order[..i+1] && u in users && users[u] == s;
    assert order[..i+1] == order[..i] + [order[i]];
    assert order[i] !in order[..i];
    if users[order[i]] == s {
      assert after == before + {order[i]};
    } else {
      assert after == before;
    }
  }

  lemma HoldersAmongAll(users: map<string, SinkId>, order: seq<string>, s: SinkId)
    requires Enumerates(order, users)
    ensures HoldersAmong(users, order, s) == Holders(users, s)
  {
    var among := set u | u in order && u in users && users[u] == s;
    var all := set u | u in users && users[u] == s;
    assert among == all;
  }

  lemma RepeatSnoc(m: Request, n: nat)
    ensures Repeat(m, n) + [m] == Repeat(m, n + 1)
  {
  }

  /** Every sink of `o` holds what it held in `o0` plus one `m` per user among `names` registered to it. */
  ghost predicate DeliveredAmong(o0: Outbox, o: Outbox, users: map<string, SinkId>, names: seq<string>, m: Request) {
    forall s :: Log(o, s) == Log(o0, s) + (if s in o0.broken then [] else Repeat(m, HoldersAmong(users, names, s)))
  }

  /** One more write of the broadcast loop extends the delivered prefix by one username. */
  lemma BroadcastStep(o0: Outbox, o: Outbox, users: map<string, SinkId>, order: seq<string>, i: nat, m: Request)
    requires i < |order|
    requires order[i] in users
    requires forall j :: 0 <= j < i ==> order[j] != order[i]
    requires o.broken == o0.broken
    requires DeliveredAmong(o0, o, users, order[..i], m)
    ensures DeliveredAmong(o0, Write(o, users[order[i]], m).0, users, order[..i+1], m)
  {
    var o' := Write(o, users[order[i]], m).0;
    forall s
      ensures Log(o', s)
        == Log(o0, s) + (if s in o0.broken then [] else Repeat(m, HoldersAmong(users, order[..i+1], s)))
    {
      BroadcastStepAt(o0, o, users, order, i, m, s);
    }
  }

  lemma BroadcastStepAt(o0: Outbox, o: Outbox, users: map<string, SinkId>, order: seq<string>, i: nat, m: Request, s: SinkId)
    requires i < |order|
    requires order[i] in users
    requires forall j :: 0 <= j < i ==> order[j] != order[i]
    requires o.broken == o0.broken
    requires Log(o, s) == Log(o0, s) + (if s in o0.broken then [] else Repeat(m, HoldersAmong(users, order[..i], s)))
    ensures Log(Write(o, users[order[i]], m).0, s)
      == Log(o0, s) + (if s in o0.broken then [] else Repeat(m, HoldersAmong(users, order[..i+1], s)))
  {
    HoldersAmongStep(users, order, i, s);
    var n := HoldersAmong(users, order[..i], s);
    RepeatSnoc(m, n);
    if s == users[order[i]] && s !in o0.broken {
      calc {
        Log(Write(o, s, m).0, s);
        Log(o, s) + [m];
        Log(o0, s) + Repeat(m, n) + [m];
        Log(o0, s) + Repeat(m, n + 1);
      }
    }
  }

  /** Once the whole enumeration is written, every sink got its full delivery. */
  lemma BroadcastDone(o0: Outbox, o: Outbox, users: map<string, SinkId>, order: seq<string>, m: Request)
    requires Enumerates(order, users)
    requires DeliveredAmong(o0, o, users, order, m)
    ensures forall s :: Log(o, s) == Log(o0, s) + Delivery(o0, users, s, m)
  {
    forall s ensures Log(o, s) == Log(o0, s) + Delivery(o0, users, s, m) {
      HoldersAmongAll(users, order, s);
    }
  }

  /**
   * Writes `m` to the sink of every user, in the enumeration order `order`,
   * swallowing the failure of any one write. Each sink gets one copy per
   * username registered to it, whatever the order.
   */
  method Broadcast(o: Outbox, users: map<string, SinkId>, order: seq<string>, m: Request)
    returns (o': Outbox, delivered: bool)
    requires Enumerates(order, users)
    ensures o'.broken == o.broken
    ensures forall s :: Log(o', s) == Log(o, s) + Delivery(o, users, s, m)
    ensures delivered <==> Reachable(o, users)
  {
    o' := o;
    delivered := false;
    var i := 0;
    while i < |order|
      invariant 0 <= i <= |order|
      invariant o'.broken == o.broken
      invariant DeliveredAmong(o, o', users, order[..i], m)
      invariant delivered <==> exists j :: 0 <= j < i && users[order[j]] !in o.broken
    {
      assert order[i] in users;
      BroadcastStep(o, o', users, order, i, m);
      var w := Write(o', users[order[i]], m);
      o' := w.0;
      delivered := delivered || w.1;
      i := i + 1;
    }
    assert order[..|order|] == order;
    BroadcastDone(o, o', users, order, m);
    if Reachable(o, users) {
      var u :| u in users && users[u] !in o.broken;
      var j :| 0 <= j < |order| && order[j] == u;
    }
  }

  /**
   * `tileChangeRequest(username, tile)`. `isValid` stands for the board's own
   * check, which is not part of this model; `order` is the registry's iteration
   * order. The master board is written right after each successful write to a
   * sink, so it takes the tile only when some write succeeded.
   */
  method TileChangeRequest(h: Hub, tile: Tile, isValid: Tile -> bool, order: seq<string>)
    returns (h': Hub, accepted: bool)
    requires Enumerates(order, h.users)
    ensures accepted == isValid(tile)
    ensures !accepted ==> h' == h
    ensures h'.users == h.users && h'.connections == h.connections
    ensures h'.totalConnections == h.totalConnections && h'.outbox.broken == h.outbox.broken
    ensures accepted ==> forall s ::
      Log(h'.outbox, s) == Log(h.outbox, s) + Delivery(h.outbox, h.users, s, TileChanged(tile))
    ensures accepted && Reachable(h.outbox, h.users) ==> h'.board == SetTile(h.board, tile)
    ensures accepted && !Reachable(h.outbox, h.users) ==> h'.board == h.board
  {
    if !isValid(tile) {
      return h, false;
    }
    var o, delivered := Broadcast(h.outbox, h.users, order, TileChanged(tile));
    var board := if delivered then SetTile(h.board, tile) else h.board;
    h' := h.(outbox := o, board := board);
    accepted := true;
  }

  /** `serverError`: a best-effort ERROR to every registered sink; nothing else changes. */
  method ServerError(h: Hub, order: seq<string>) returns (h': Hub)
    requires Enumerates(order, h.users)
    ensures h'.users == h.users && h'.connections == h.connections
    ensures h'.totalConnections == h.totalConnections && h'.board == h.board
    ensures h'.outbox.broken == h.outbox.broken
    ensures forall s ::
      Log(h'.outbox, s) == Log(h.outbox, s) + Delivery(h.outbox, h.users, s, Error(SERVER_ERROR_MESSAGE))
  {
    var o, _ := Broadcast(h.outbox, h.users, order, Error(SERVER_ERROR_MESSAGE));
    h' := h.(outbox := o);
  }

  /**
   * The hub's `badRequest(username, type)`: one ERROR naming the kind to the
   * user's sink; false when that write throws. The user is looked up without a
   * check, so it must be registered.
   */
  function BadRequest(h: Hub, u: string, kind: string): (r: (Hub, bool))
    requires u in h.users
    ensures r.1 <==> h.users[u] !in h.outbox.broken
    ensures !r.1 ==> r.0 == h
    ensures r.0 == h.(outbox := r.0.outbox)
    ensures Log(r.0.outbox, h.users[u]) == Log(h.outbox, h.users[u])
      + (if r.1 then [Error("Bad request received: " + kind + ". Terminating connection.")] else [])
    ensures forall s :: s != h.users[u] ==> Log(r.0.outbox, s) == Log(h.outbox, s)
  {
    var (o, ok) := Write(h.outbox, h.users[u], Error("Bad request received: " + kind + ". Terminating connection."));
    (h.(outbox := o), ok)
  }

  /**
   * The teardown of a bad request, the ERROR and then the user's logout, keeps
   * the counters consistent whether or not the ERROR could be written.
   */
  lemma BadRequestThenLogoutKeepsValid(h: Hub, u: string, kind: string, loc: Host)
    requires Valid(h)
    requires u in h.users
    requires loc in h.connections && h.connections[loc] >= 1
    ensures var h1 := BadRequest(h, u, kind).0;
      && loc in h1.connections
      && Valid(Logout(h1, u, loc))
      && !UsernameTaken(Logout(h1, u, loc), u)
  {
    var h1 := BadRequest(h, u, kind).0;
    assert h1.connections == h.connections && h1.users == h.users;
    LogoutPreservesValid(h1, u, loc);
  }

  /** With nobody registered, a valid tile is accepted and yet not stored. */
  lemma ValidTileLostWithoutUsers(h: Hub, tile: Tile)
    requires h.users == map[]
    ensures !Reachable(h.outbox, h.users)
  {
  }
}
