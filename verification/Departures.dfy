// The one place where the two services meet: an expired Gamesync session also
// leaves the session registry (gamesync_store.go, expireSession).

module Departures {
  import opened Wrappers
  import GamesyncServer
  import Lifecycle
  import Matchmaking
  import Registry
  import Store

  /** expireSession with its registry: the member departs from its game session
      there exactly when its timer expires it here. The code calls the registry
      before it publishes; neither touches what the other does. */
  method ExpireMember(g: GamesyncServer.Server, registry: Matchmaking.Matchmaker, id: string, timer: nat)
    requires g.Valid() && registry.Valid()
    requires timer in g.life.armed && g.life.armed[timer] == id
    modifies g`sessions, g`documents, g`owners, g`deferments, g`disconnectTimers, g`streamCounts, g`life,
             if Lifecycle.Expires(g.life, id, timer, id in g.sessions) then g.To(g.sessions[id].gameSession) else {},
             registry`rooms, registry.games, registry.pools
    ensures g.Valid() && registry.Valid()
    ensures var now := Lifecycle.Expires(old(g.life), id, timer, id in old(g.sessions));
            && g.life == Lifecycle.Fired(old(g.life), id, timer, id in old(g.sessions))
            && (if now then
                  && g.State() == Store.Expire(old(g.State()), id)
                  && registry.Value() == Registry.Depart(old(registry.Value()), old(g.sessions)[id].gameSession,
                                                         old(g.sessions)[id].userSession)
                else g.State() == old(g.State()) && registry.Value() == old(registry.Value()))
  {
    hide Store.Expire, Registry.Depart, Lifecycle.Expires, Lifecycle.Fired, GamesyncServer.Server.Valid,
         GamesyncServer.Server.Due, Matchmaking.Matchmaker.Valid;
    g.DueIsExpiring(id, timer);
    var due := g.Due(id, timer);
    var departing := if due then Some(g.sessions[id]) else None;
    g.ExpireSession(id, timer);
    if departing.Some? {
      registry.DepartSession(departing.value.gameSession, departing.value.userSession);
    }
  }
}
