/**
 * The earlier hub (place.server.NetworkServer), which nothing references any
 * more: a registry of usernames whose only admission rule is uniqueness.
 */
module LegacyServer {

  /** A user's output stream. */
  type SinkId = nat

  datatype Registry = Registry(users: map<string, SinkId>)

  /** The constructor: an empty registry; the dimension argument is ignored. */
  function Init(dim: int): (r: Registry)
    ensures forall u :: !UsernameTaken(r, u)
  {
    Registry(map[])
  }

  /** `usernameTaken`: the name is a key of the registry. */
  predicate UsernameTaken(r: Registry, u: string) {
    u in r.users
  }

  /** `login(usernameRequest, playerOutputStream)`. */
  function Login(r: Registry, u: string, out: SinkId): (res: (Registry, bool))
    ensures res.1 <==> !UsernameTaken(r, u)
    ensures res.1 ==> res.0.users.Keys == r.users.Keys + {u} && res.0.users[u] == out
    ensures forall v :: v in r.users ==> v in res.0.users && res.0.users[v] == r.users[v]
    ensures !res.1 ==> res.0 == r
  {
    if !UsernameTaken(r, u) then (Registry(r.users[u := out]), true) else (r, false)
  }

  /** A name can be claimed once: a second login for it fails and keeps the first stream. */
  lemma SecondLoginRefused(r: Registry, u: string, first: SinkId, second: SinkId)
    requires !UsernameTaken(r, u)
    ensures var (r1, ok1) := Login(r, u, first);
      var (r2, ok2) := Login(r1, u, second);
      ok1 && !ok2 && r2.users[u] == first
  {
  }
}
