// Which tickets share a public or friend pool (matchmaking.go:
// publicMatchPoolKey, newPublicMatchSessionLocked), said of what a ticket asks
// for, and what it means for everybody a pool's session was filled with.

module Pools {
  import opened Wrappers
  import opened Values
  import opened Text
  import opened Rooms
  import opened Registry
  import opened RegistryRuns

  // ----- pool keys -----

  /** The key of a pool separates what the ticket asks for. */
  predicate Clean(t: Ticket) {
    NUL !in t.config && NUL !in MatchingKey(t)
  }

  predicate SameDemand(a: Ticket, b: Ticket) {
    a.config == b.config && MatchingKey(a) == MatchingKey(b) && FriendRoom(a) == FriendRoom(b)
  }

  /** Two tickets share a pool exactly when configuration and matching key read
      the same in one line, and the friend room is the same. */
  lemma SharePool(a: Ticket, b: Ticket)
    requires NUL !in FriendRoom(a) && NUL !in FriendRoom(b)
    ensures PoolKey(a) == PoolKey(b) <==>
              a.config + [NUL] + MatchingKey(a) == b.config + [NUL] + MatchingKey(b) && FriendRoom(a) == FriendRoom(b)
  {
    hide FriendRoom, StringAttribute;
    if PoolKey(a) == PoolKey(b) {
      KeyDeterminesRoom(a, b);
      var x, y, r := a.config + [NUL] + MatchingKey(a), b.config + [NUL] + MatchingKey(b), FriendRoom(a);
      assert PoolKey(a) == x + [NUL] + r && PoolKey(b) == y + [NUL] + r;
      assert PoolKey(a)[..|x|] == x && PoolKey(b)[..|y|] == y;
    }
  }

  lemma FirstSeparator(x: string, k: string, y: string, l: string)
    requires x + [NUL] + k == y + [NUL] + l && NUL !in x && NUL !in k
    ensures x == y && k == l
  {
    var s := x + [NUL] + k;
    assert s == y + [NUL] + l;
    assert s[|y|] == NUL;
    forall j | 0 <= j < |s| && j != |x| ensures s[j] != NUL {
      assert s[j] == if j < |x| then x[j] else k[j - |x| - 1];
    }
    assert s[..|x|] == x && s[..|y|] == y && s[|x| + 1..] == k && s[|y| + 1..] == l;
  }

  /** A clean ticket shares its pool with exactly the tickets that ask for the
      same. */
  lemma CleanPool(a: Ticket, b: Ticket)
    requires Clean(a) && NUL !in FriendRoom(a) && NUL !in FriendRoom(b)
    ensures PoolKey(a) == PoolKey(b) <==> SameDemand(a, b)
  {
    hide FriendRoom, StringAttribute, PoolKey;
    SharePool(a, b);
    if PoolKey(a) == PoolKey(b) {
      FirstSeparator(a.config, MatchingKey(a), b.config, MatchingKey(b));
    }
  }

  /** The ticket with another configuration and matching key, all else equal. */
  function Asking(t: Ticket, config: string, key: string): Ticket {
    Ticket(config, t.definition.(attributes := t.definition.attributes["MatchingKey" := String(key)]))
  }

  lemma AskingIs(t: Ticket, config: string, key: string)
    ensures var u := Asking(t, config, key);
            u.config == config && MatchingKey(u) == key && FriendRoom(u) == FriendRoom(t)
  {
    hide LastSegment;
    var u := Asking(t, config, key);
    assert Get(u.definition.attributes, "FriendGameSessionId") == Get(t.definition.attributes, "FriendGameSessionId");
  }

  /** The exact condition: whoever shares a ticket's pool asked for the same if
      and only if neither its configuration nor its matching key holds the
      separator. */
  lemma PoolMeansDemandExactly(a: Ticket)
    requires NUL !in FriendRoom(a)
    ensures Clean(a) <==>
              forall b :: NUL !in FriendRoom(b) && PoolKey(b) == PoolKey(a) ==> SameDemand(a, b)
  {
    hide FriendRoom, StringAttribute, PoolKey, MatchingKey;
    if Clean(a) {
      forall b | NUL !in FriendRoom(b) && PoolKey(b) == PoolKey(a) ensures SameDemand(a, b) {
        CleanPool(a, b);
      }
    } else {
      var b := Impostor(a);
    }
  }

  /** A separator inside the configuration or the matching key can be taken for
      the one between them. */
  lemma Impostor(a: Ticket) returns (b: Ticket)
    requires !Clean(a) && NUL !in FriendRoom(a)
    ensures NUL !in FriendRoom(b) && PoolKey(b) == PoolKey(a) && !SameDemand(a, b)
  {
    hide FriendRoom, StringAttribute, PoolKey, MatchingKey;
    var x, k := a.config, MatchingKey(a);
    if NUL in x {
      var i :| 0 <= i < |x| && x[i] == NUL;
      b := Asking(a, x[..i], x[i + 1..] + [NUL] + k);
      AskingIs(a, x[..i], x[i + 1..] + [NUL] + k);
      assert x == x[..i] + [NUL] + x[i + 1..];
    } else {
      var i :| 0 <= i < |k| && k[i] == NUL;
      b := Asking(a, x + [NUL] + k[..i], k[i + 1..]);
      AskingIs(a, x + [NUL] + k[..i], k[i + 1..]);
      assert k == k[..i] + [NUL] + k[i + 1..];
      assert |b.config| > |x|;
    }
    SharePool(a, b);
  }

  // ----- over runs -----

  /** The action completes a ticket for the first time and binds it to the
      session. */
  ghost predicate Binds(h: Hall, a: Action, configured: int, t: Ticket, id: string) {
    && a.Track? && Get(h.tickets, a.id) == Some(t) && a.id !in h.bound
    && Get(Step(h, a, configured).bound, a.id) == Some(id)
  }

  lemma BindsInPool(h: Hall, a: Action, configured: int, t: Ticket, id: string)
    requires HallOk(h) && Enabled(h, a) && Binds(h, a, configured, t, id)
    ensures InPool(Step(h, a, configured).rooms, PoolKey(t), id) && NUL !in FriendRoom(t)
  {
    hide LastSegment, FriendRoom, PoolKey, NewRoom, RoomsOk, UserPath, Complete, Vacant, Holds, GoodUid, FreshId, AddUser,
         AddMember;
    assert t in h.granted;
    var p := TrackIs(h, a.id, a.uid, a.gs, a.user, configured);
    match p
    case Nothing =>
      assert false;
    case Again(_) =>
    case Vacancy(at) => AddedKeepsPool(h.rooms[at], t.definition, h.rooms[at].name + "/userSessions/" + a.user);
    case Opens => OpenedPool(t, a.gs, configured, a.user);
  }

  lemma AddedKeepsPool(room: Room, d: Definition, name: string)
    requires room.pool.Some?
    ensures AddUser(room, d, name).pool.Some? && AddUser(room, d, name).pool.value.key == room.pool.value.key
    ensures AddMember(room, d, name).pool.Some? && AddMember(room, d, name).pool.value.key == room.pool.value.key
  {
    hide PoolHasUid, LastSegment;
  }

  lemma OpenedPool(t: Ticket, gs: string, configured: int, user: string)
    ensures var room := NewRoom(t, gs, configured);
            && room.pool.Some?
            && AddMember(room, t.definition, room.name + "/userSessions/" + user).pool.Some?
            && AddMember(room, t.definition, room.name + "/userSessions/" + user).pool.value.key == PoolKey(t)
  {
    hide PoolKey, LastSegment, FriendRoom, MatchProperties, Capacity;
    AddedKeepsPool(NewRoom(t, gs, configured), t.definition, NewRoom(t, gs, configured).name + "/userSessions/" + user);
  }

  /** What a clean ticket was bound to keeps recording what it asked for. */
  lemma BoundSessionRecords(run: seq<Action>, configured: int, i: nat, k: nat, id: string, t: Ticket)
    requires IsRun(run, configured) && i < k <= |run| && Clean(t)
    requires Binds(At(run, configured, i), run[i], configured, t, id)
    ensures id in At(run, configured, k).rooms && Records(At(run, configured, k).rooms[id].properties, t)
    ensures InPool(At(run, configured, k).rooms, PoolKey(t), id) && NUL !in FriendRoom(t)
  {
    hide At, IsRun, Step, Enabled, Binds, PoolKey, FriendRoom, Clean, Records, FriendTag, RoomOk;
    RunKeeps(run, configured, i);
    RunStep(run, configured, i);
    BindsInPool(At(run, configured, i), run[i], configured, t, id);
    SessionsEvolve(run, configured, i + 1, k, id);
    RunKeeps(run, configured, k);
    var h := At(run, configured, k);
    var room := h.rooms[id];
    assert RoomIn(h.granted, id, room);
    var t0 :| t0 in h.granted && FoundedBy(room, t0);
    CleanPool(t, t0);
    SameRecords(room.properties, t0, t);
  }

  lemma SameRecords(properties: Fields, a: Ticket, b: Ticket)
    requires Records(properties, a) && SameDemand(a, b)
    ensures Records(properties, b)
  {
    hide LastSegment, FriendRoom, StringAttribute;
  }

  /** Over any run, everybody whom a ticket brought to a session asked for what
      the first of them asked for, provided that one's demand is clean: the same
      configuration, matching key and friend room, and the session records them
      from then on. */
  lemma PoolMatesAskedTheSame(run: seq<Action>, configured: int, i: nat, j: nat, k: nat, id: string, t: Ticket, u: Ticket)
    requires IsRun(run, configured) && i < k <= |run| && j < |run| && Clean(t)
    requires Binds(At(run, configured, i), run[i], configured, t, id)
    requires Binds(At(run, configured, j), run[j], configured, u, id)
    ensures u.config == t.config && MatchingKey(u) == MatchingKey(t) && FriendRoom(u) == FriendRoom(t)
    ensures id in At(run, configured, k).rooms && Records(At(run, configured, k).rooms[id].properties, t)
  {
    hide At, IsRun, Step, Enabled, Binds, PoolKey, FriendRoom, Clean, Records, MatchingKey, HallOk;
    BoundSessionRecords(run, configured, i, k, id, t);
    BoundSessionRecords(run, configured, i, |run|, id, t);
    RunKeeps(run, configured, j);
    RunStep(run, configured, j);
    BindsInPool(At(run, configured, j), run[j], configured, u, id);
    SessionsEvolve(run, configured, j + 1, |run|, id);
    CleanPool(t, u);
  }
}
