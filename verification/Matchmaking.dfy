// The matchmaker, the game-session server and their shared registry as objects
// (matchmaking.go, session_service.go, session_registry.go): sessions that the
// registry and the pools point to alike, updated in place, against the registry
// as a value.

module Matchmaking {
  import opened Wrappers
  import opened Values
  import opened Text
  import opened Rooms
  import opened Registry
  import RegistryRuns

  class GameSession {
    const name: string
    const properties: Fields
    const password: string
    const isPublic: bool
    var users: seq<UserSession>
    var count: int
    var max: int
    var canParticipate: bool
    var active: bool

    constructor (r: Room)
      ensures Room(name, users, count, max, canParticipate, isPublic, active, password, properties, None) == r.(pool := None)
    {
      name, properties, password, isPublic := r.name, r.properties, r.password, r.isPublic;
      users, count, max, canParticipate, active := r.users, r.count, r.max, r.canParticipate, r.active;
    }

    function Value(pool: Option<Pool>): Room
      reads this
    {
      Room(name, users, count, max, canParticipate, isPublic, active, password, properties, pool)
    }

    /** roomVisible. */
    method Visible(uid: string, friends: set<string>) returns (seen: bool)
      ensures seen == RoomVisible(Some(Value(None)), uid, friends)
    {
      if !active {
        return false;
      }
      var member := HasUid(uid);
      if member {
        return true;
      }
      if StringOf(Get(properties, "FriendGameSessionId")) != "" {
        return false;
      }
      if isPublic {
        return true;
      }
      var i := 0;
      while i < |users|
        invariant 0 <= i <= |users|
        invariant forall j :: 0 <= j < i ==> LastSegment(users[j].user) !in friends
      {
        if LastSegment(users[i].user) in friends {
          return true;
        }
        i := i + 1;
      }
      seen := false;
    }

    /** What JoinGameSession checks before it adds anybody. */
    method Admit(uid: string, password: string, friends: set<string>) returns (r: Result<bool>)
      ensures r == Admission(Some(Value(None)), uid, password, friends)
    {
      hide RoomVisible, ListsUid;
      var seen := Visible(uid, friends);
      if !seen {
        return Err(NotFound);
      }
      var member := HasUid(uid);
      if member {
        return Ok(true);
      }
      if this.password != "" && this.password != password {
        return Err(PermissionDenied);
      }
      if !canParticipate || count >= max {
        return Err(ResourceExhausted);
      }
      r := Ok(false);
    }

    method HasUid(uid: string) returns (found: bool)
      ensures found == ListsUid(users, uid)
    {
      var i := 0;
      while i < |users|
        invariant 0 <= i <= |users|
        invariant forall j :: 0 <= j < i ==> LastSegment(users[j].user) != uid
      {
        if LastSegment(users[i].user) == uid {
          return true;
        }
        i := i + 1;
      }
      found := false;
    }

    /** A direct join. */
    method AddUser(d: Definition, path: string)
      modifies this
      ensures Value(None) == Rooms.AddUser(old(Value(None)), d, path)
    {
      users := users + [UserOf(d, path)];
      count := |users|;
    }

    /** The first loop of depart; the last to leave ends the session. */
    method Leave(id: string)
      modifies this
      ensures Value(None) == Without(old(Value(None)), id)
    {
      hide LastSegment;
      var kept := [];
      var i := 0;
      while i < |users|
        invariant 0 <= i <= |users|
        invariant kept == OtherUsers(users[..i], id)
      {
        assert users[..i + 1][..i] == users[..i];
        if LastSegment(users[i].name) != id {
          kept := kept + [users[i]];
        }
        i := i + 1;
      }
      assert users[..i] == users;
      users := kept;
      count := |users|;
      if |users| == 0 {
        canParticipate := false;
        active := false;
      }
    }
  }

  /** A session of a public pool: the same session the registry knows, and the
      pool's own list of its members. */
  class PoolSession {
    const poolKey: string
    const gameSession: GameSession
    var members: seq<Member>

    constructor (poolKey: string, gameSession: GameSession)
      ensures this.poolKey == poolKey && this.gameSession == gameSession && members == []
    {
      this.poolKey, this.gameSession, members := poolKey, gameSession, [];
    }

    function Value(): Room
      reads this, gameSession
    {
      gameSession.Value(Some(Pool(poolKey, members)))
    }

    method HasUid(uid: string) returns (found: bool)
      ensures found == PoolHasUid(members, uid)
    {
      var i := 0;
      while i < |members|
        invariant 0 <= i <= |members|
        invariant forall j :: 0 <= j < i ==> LastSegment(members[j].definition.user) != uid
      {
        if LastSegment(members[i].definition.user) == uid {
          return true;
        }
        i := i + 1;
      }
      found := false;
    }

    /** addPublicMatchMembers for the one definition a caller may supply. */
    method AddMembers(d: Definition, name: string)
      modifies this, gameSession
      ensures Value() == AddMember(old(Value()), d, name)
    {
      hide LastSegment, PoolHasUid, UserOf;
      var present := HasUid(LastSegment(d.user));
      if present {
        return;
      }
      members := members + [Member(d, name)];
      gameSession.users := gameSession.users + [UserOf(d, name)];
      var participants := |members|;
      if gameSession.max < participants {
        gameSession.max := participants;
      }
      gameSession.count := participants;
    }

    /** The second loop of depart. */
    method Leave(id: string)
      modifies this
      ensures members == OtherMembers(old(members), id)
    {
      hide LastSegment;
      var kept := [];
      var i := 0;
      while i < |members|
        invariant 0 <= i <= |members|
        invariant kept == OtherMembers(members[..i], id)
      {
        assert members[..i + 1][..i] == members[..i];
        if LastSegment(members[i].userSession) != id {
          kept := kept + [members[i]];
        }
        i := i + 1;
      }
      assert members[..i] == members;
      members := kept;
    }
  }

  /** A session together with its pool entry, if it has one. */
  function View(gs: GameSession, ps: PoolSession?): Room
    reads gs, ps
  {
    gs.Value(if ps == null then None else Some(Pool(ps.poolKey, ps.members)))
  }

  /** depart on one session: the list the registry shows, then the pool's. */
  method LeaveBoth(gs: GameSession, ps: PoolSession?, user: string)
    requires ps != null ==> ps.gameSession == gs
    modifies gs, ps
    ensures View(gs, ps) == Without(old(View(gs, ps)), user)
  {
    hide OtherUsers, OtherMembers, LastSegment;
    gs.Leave(user);
    if ps != null {
      ps.Leave(user);
    }
    WithoutView(old(View(gs, ps)), View(gs, ps), user);
  }

  function IdOf(ps: PoolSession): string {
    LastSegment(ps.gameSession.name)
  }

  function Ids(sessions: seq<PoolSession>): (ids: seq<string>)
    ensures |ids| == |sessions| && forall i :: 0 <= i < |sessions| ==> ids[i] == IdOf(sessions[i])
  {
    if sessions == [] then [] else Ids(sessions[..|sessions| - 1]) + [IdOf(sessions[|sessions| - 1])]
  }

  class Matchmaker {
    var sessions: map<string, GameSession>
    var pooled: map<string, PoolSession>
    var sessionsByPool: map<string, seq<PoolSession>>
    var tickets: map<string, Ticket>
    var ticketSessions: map<string, PoolSession>
    var creations: map<string, Creation>
    const configured: int
    /** The sessions, pools and bindings as values, the tickets whose friend room
        was checked, and every session object there is. */
    ghost var rooms: map<string, Room>
    ghost var lists: map<string, seq<string>>
    ghost var bound: map<string, string>
    ghost var granted: set<Ticket>
    ghost var games: set<GameSession>
    ghost var pools: set<PoolSession>

    constructor (configured: int)
      ensures Valid() && Value() == EMPTY && this.configured == configured
    {
      sessions, pooled, sessionsByPool, tickets, ticketSessions, creations := map[], map[], map[], map[], map[], map[];
      this.configured := configured;
      rooms, lists, bound, granted, games, pools := map[], map[], map[], {}, {}, {};
      new;
      RegistryRuns.EmptyOk();
    }

    /** Names lead to objects one to one: a session is found under its own id,
        and its pool entry points to the very same object. */
    ghost predicate ObjectsOk()
      reads this`sessions, this`pooled, this`games, this`pools
    {
      OneToOne(sessions, pooled, games, pools)
    }

    /** The registry as a value. */
    ghost function Value(): Hall
      reads this
    {
      Hall(rooms, lists, tickets, bound, creations, granted)
    }

    function PoolOf(id: string): PoolSession?
      reads this`pooled
    {
      if id in pooled then pooled[id] else null
    }

    ghost predicate RoomsTied()
      reads this`sessions, this`pooled, this`rooms, this`games, this`pools, games, pools
    {
      && ObjectsOk()
      && rooms.Keys == sessions.Keys
      && forall id :: id in sessions ==> rooms[id] == View(sessions[id], PoolOf(id))
    }

    ghost predicate ListsTied()
      reads this`sessionsByPool, this`ticketSessions, this`pools, this`lists, this`bound
    {
      AllListed(lists, sessionsByPool, pools) && AllBound(bound, ticketSessions, pools)
    }

    ghost predicate Tied()
      reads this, games, pools
    {
      RoomsTied() && ListsTied()
    }

    ghost predicate Valid()
      reads this, games, pools
    {
      Tied() && RegistryRuns.HallOk(Value())
    }

    // ----- selecting -----

    lemma RegisteredRoom(ps: PoolSession)
      requires RoomsTied() && ps in pools
      ensures IdOf(ps) in pooled && pooled[IdOf(ps)] == ps
      ensures IdOf(ps) in sessions && sessions[IdOf(ps)] == ps.gameSession && ps.gameSession in games
      ensures IdOf(ps) in rooms && rooms[IdOf(ps)] == ps.Value()
    {
    }

    /** The first loop of selectPublicMatchSessionLocked. */
    method FindHolding(list: seq<PoolSession>, uid: string) returns (found: PoolSession?)
      requires RoomsTied() && forall i :: 0 <= i < |list| ==> list[i] in pools
      ensures found == null ==> FirstHolding(Ids(list), rooms, uid).None?
      ensures found != null ==> found in pools && FirstHolding(Ids(list), rooms, uid) == Some(IdOf(found))
    {
      hide LastSegment, PoolHasUid, RoomsTied, IdOf;
      ghost var ids := Ids(list);
      var i := 0;
      while i < |list|
        invariant 0 <= i <= |list|
        invariant FirstHolding(ids[..i], rooms, uid).None?
      {
        assert ids[..i + 1][..i] == ids[..i];
        RegisteredRoom(list[i]);
        var member := list[i].HasUid(uid);
        if list[i].gameSession.active && member {
          FirstHoldingStays(ids, i + 1, rooms, uid);
          return list[i];
        }
        i := i + 1;
      }
      assert ids[..i] == ids;
      found := null;
    }

    /** The second. */
    method FindVacant(list: seq<PoolSession>) returns (found: PoolSession?)
      requires RoomsTied() && forall i :: 0 <= i < |list| ==> list[i] in pools
      ensures found == null ==> FirstVacant(Ids(list), rooms).None?
      ensures found != null ==> found in pools && FirstVacant(Ids(list), rooms) == Some(IdOf(found))
    {
      hide LastSegment, RoomsTied, IdOf;
      ghost var ids := Ids(list);
      var i := 0;
      while i < |list|
        invariant 0 <= i <= |list|
        invariant FirstVacant(ids[..i], rooms).None?
      {
        assert ids[..i + 1][..i] == ids[..i];
        RegisteredRoom(list[i]);
        if list[i].gameSession.active && list[i].gameSession.count + 1 <= list[i].gameSession.max {
          FirstVacantStays(ids, i + 1, rooms);
          return list[i];
        }
        i := i + 1;
      }
      assert ids[..i] == ids;
      found := null;
    }

    method SelectSession(t: Ticket, uid: string) returns (found: PoolSession?)
      requires Tied()
      ensures found == null ==> Select(Value(), t, uid).None?
      ensures found != null ==> found in pools && Select(Value(), t, uid) == Some(IdOf(found))
    {
      hide PoolKey, LastSegment, RoomsTied, FirstHolding, FirstVacant, IdOf;
      var key := PoolKey(t);
      if key !in sessionsByPool {
        assert PoolIds(Value(), key) == [];
        NothingToFind(rooms, uid);
        return null;
      }
      found := FindHolding(sessionsByPool[key], uid);
      if found == null {
        found := FindVacant(sessionsByPool[key]);
      }
    }

    // ----- changing one session -----

    /** Different ids lead to different objects. */
    lemma Apart(id: string, k: string)
      requires ObjectsOk() && id in sessions && k in sessions && id != k
      ensures sessions[k] != sessions[id]
      ensures id in pooled && k in pooled ==> pooled[k] != pooled[id]
      ensures id in pooled ==> pooled[id].gameSession == sessions[id]
    {
    }

    /** Add a user to a pooled session. */
    method AddToPool(ps: PoolSession, d: Definition, user: string)
      requires RoomsTied() && ps in pools
      modifies ps, ps.gameSession, this`rooms
      ensures RoomsTied() && IdOf(ps) in old(rooms) && old(rooms)[IdOf(ps)].pool.Some?
      ensures var id := IdOf(ps);
              rooms == old(rooms)[id := AddMember(old(rooms)[id], d, old(rooms)[id].name + "/userSessions/" + user)]
    {
      hide LastSegment, AddMember, ObjectsOk, IdOf;
      ghost var id := IdOf(ps);
      RegisteredRoom(ps);
      ps.AddMembers(d, ps.gameSession.name + "/userSessions/" + user);
      rooms := rooms[id := ps.Value()];
      forall k | k in sessions ensures rooms[k] == View(sessions[k], PoolOf(k)) {
        if k != id {
          Apart(id, k);
          assert View(sessions[k], PoolOf(k)) == old(View(sessions[k], PoolOf(k)));
        }
      }
    }

    /** Add a user to a session no pool knows. */
    method AddDirectly(id: string, d: Definition, user: string)
      requires RoomsTied() && id in sessions && id !in pooled
      modifies sessions[id], this`rooms
      ensures RoomsTied()
      ensures rooms == old(rooms)[id := AddUser(old(rooms)[id], d, old(rooms)[id].name + "/userSessions/" + user)]
    {
      hide LastSegment, ObjectsOk;
      var gs := sessions[id];
      gs.AddUser(d, gs.name + "/userSessions/" + user);
      rooms := rooms[id := View(gs, null)];
      forall k | k in sessions ensures rooms[k] == View(sessions[k], PoolOf(k)) {
        if k != id {
          Apart(id, k);
          assert View(sessions[k], PoolOf(k)) == old(View(sessions[k], PoolOf(k)));
        }
      }
    }

    /** newPublicMatchSessionLocked. */
    method NewSession(t: Ticket, gs: string) returns (ps: PoolSession)
      requires RoomsTied() && ListsTied() && FreshId(Value(), gs)
      modifies this`sessions, this`pooled, this`sessionsByPool, this`games, this`pools, this`rooms, this`lists
      ensures fresh(ps) && fresh(ps.gameSession) && RoomsTied() && ListsTied() && ps in pools && IdOf(ps) == gs
      ensures games == old(games) + {ps.gameSession} && pools == old(pools) + {ps}
      ensures rooms == old(rooms)[gs := NewRoom(t, gs, configured)]
      ensures lists == old(lists)[PoolKey(t) := (if PoolKey(t) in old(lists) then old(lists)[PoolKey(t)] else []) + [gs]]
    {
      hide LastSegment, PoolKey, NewRoom, ObjectsOk, IdOf, RoomsTied, AllListed, AllBound;
      var key, room := PoolKey(t), NewRoom(t, gs, configured);
      NewRoomIs(t, gs, configured);
      var session := new GameSession(room);
      ps := new PoolSession(key, session);
      IdIs(ps);
      PoolsGrow(lists, sessionsByPool, bound, ticketSessions, pools, ps);
      RegisterRoom(gs, session, ps, room);
      AddToList(key, ps);
    }

    method AddToList(key: string, ps: PoolSession)
      requires ListsTied() && ps in pools
      modifies this`sessionsByPool, this`lists
      ensures ListsTied()
      ensures lists == old(lists)[key := (if key in old(lists) then old(lists)[key] else []) + [IdOf(ps)]]
    {
      hide AllListed, IdOf;
      var list := if key in sessionsByPool then sessionsByPool[key] else [];
      ListMore(lists, sessionsByPool, pools, key, ps);
      lists := lists[key := (if key in lists then lists[key] else []) + [IdOf(ps)]];
      sessionsByPool := sessionsByPool[key := list + [ps]];
    }

    /** Enter a new pooled session into the registry's maps. */
    method RegisterRoom(gs: string, session: GameSession, ps: PoolSession, ghost room: Room)
      requires RoomsTied() && gs !in rooms && ps.gameSession == session && LastSegment(session.name) == gs
      requires ps !in pools && session !in games && room == View(session, ps)
      modifies this`sessions, this`pooled, this`games, this`pools, this`rooms
      ensures RoomsTied() && sessions == old(sessions)[gs := session] && pooled == old(pooled)[gs := ps]
      ensures games == old(games) + {session} && pools == old(pools) + {ps} && rooms == old(rooms)[gs := room]
    {
      hide LastSegment, View, OneToOne;
      sessions := sessions[gs := session];
      pooled := pooled[gs := ps];
      games, pools := games + {session}, pools + {ps};
      rooms := rooms[gs := room];
      Entered(old(sessions), old(pooled), old(games), old(pools), gs, session, ps);
      forall k | k in sessions ensures rooms[k] == View(sessions[k], PoolOf(k)) {
        assert k != gs ==> View(sessions[k], PoolOf(k)) == old(View(sessions[k], PoolOf(k)));
      }
    }

    // ----- tickets -----

    lemma BoundSession(ticket: string)
      requires ListsTied()
      ensures ticket in bound <==> ticket in ticketSessions
      ensures ticket in bound ==> ticketSessions[ticket] in pools && bound[ticket] == IdOf(ticketSessions[ticket])
    {
    }

    method Bind(ticket: string, ps: PoolSession)
      requires ListsTied() && ps in pools
      modifies this`ticketSessions, this`bound
      ensures ListsTied() && bound == old(bound)[ticket := IdOf(ps)]
    {
      hide IdOf;
      ticketSessions := ticketSessions[ticket := ps];
      bound := bound[ticket := IdOf(ps)];
    }

    /** selectPublicMatchSessionLocked: find a session, or open one. */
    method ChooseSession(t: Ticket, uid: string, gs: string) returns (session: PoolSession)
      requires Tied() && FreshId(Value(), gs)
      modifies this`sessions, this`pooled, this`sessionsByPool, this`games, this`pools, this`rooms, this`lists
      ensures Tied() && session in pools && session.gameSession in games
      ensures pools <= old(pools) + {session} && games <= old(games) + {session.gameSession}
      ensures session in old(pools) ==> session.gameSession in old(games)
      ensures session !in old(pools) ==> fresh(session) && fresh(session.gameSession)
      ensures Value() == Chosen(old(Value()), t, uid, gs, configured) && IdOf(session) == ChosenId(old(Value()), t, uid, gs)
    {
      hide LastSegment, PoolKey, NewRoom, ObjectsOk, IdOf, RoomsTied, ListsTied, Select;
      var found := SelectSession(t, uid);
      if found == null {
        session := NewSession(t, gs);
      } else {
        session := found;
      }
      RegisteredRoom(session);
    }

    /** The ticket's first completion: choose a session, add the caller, and
        remember the session. */
    method PlaceTicket(ticket: string, uid: string, gs: string, user: string) returns (id: string)
      requires Tied() && FreshId(Value(), gs) && ticket in tickets && ticket !in bound
      modifies this`sessions, this`pooled, this`sessionsByPool, this`ticketSessions, this`games, this`pools, this`rooms,
               this`lists, this`bound, games, pools
      ensures Tied() && (Value(), Some(id)) == Complete(old(Value()), ticket, uid, gs, user, configured)
    {
      hide LastSegment, PoolKey, NewRoom, IdOf, RoomsTied, ListsTied, Select, AddMember, FreshId, Complete, Chosen,
           ChosenId;
      ghost var h := Value();
      var stored := tickets[ticket];
      var session := ChooseSession(stored, uid, gs);
      id := IdOf(session);
      ghost var chosen := Value();
      AddToPool(session, stored.definition, user);
      Bind(ticket, session);
      Placed(h, ticket, uid, gs, user, configured, chosen, id, Value());
    }

    /** completeMatchmakingTicket for the ticket's owner. */
    method CompleteTicket(ticket: string, uid: string, gs: string, user: string) returns (answer: Option<string>)
      requires Valid() && Enabled(Value(), Track(ticket, uid, gs, user))
      modifies this`sessions, this`pooled, this`sessionsByPool, this`ticketSessions, this`games, this`pools, this`rooms,
               this`lists, this`bound, games, pools
      ensures Valid() && (Value(), answer) == Complete(old(Value()), ticket, uid, gs, user, configured)
    {
      hide LastSegment, IdOf, ObjectsOk, RoomsTied, ListsTied, PoolHasUid, RegistryRuns.HallOk, Select, PoolKey,
           NewRoom;
      RegistryRuns.TrackKeeps(Value(), ticket, uid, gs, user, configured);
      if ticket !in tickets {
        return None;
      }
      BoundSession(ticket);
      if ticket in ticketSessions {
        var session := ticketSessions[ticket];
        RegisteredRoom(session);
        var present := session.HasUid(uid);
        if !present || !session.gameSession.active {
          return None;
        }
        return Some(IdOf(session));
      }
      var id := PlaceTicket(ticket, uid, gs, user);
      answer := Some(id);
    }

    /** The first critical section of CreateMatchmakingTicket: the caller's own
        definition, and membership of the friend room it names. */
    method AuthorizeTicket(uid: string, config: string, defs: seq<Definition>) returns (r: Result<Ticket>)
      requires Valid() && GoodUid(uid)
      modifies this`granted
      ensures Valid()
      ensures var d := CallerDefinition(defs, uid);
              if d.Err? then r == Err(d.code) && Value() == old(Value())
              else
                var t := Ticket(ConcreteConfig(config), d.value);
                var verdict := AuthorizePool(old(Value()), t, uid);
                && r == (if verdict.Ok? then Ok(t) else Err(verdict.code))
                && Value() == Step(old(Value()), Authorize(t, uid), configured)
    {
      hide LastSegment, ObjectsOk, View, ListsTied, RegistryRuns.HallOk, StringAttribute, ConcreteConfig,
           FriendConfig, ListsUid;
      var d := CallerDefinition(defs, uid);
      if d.Err? {
        return Err(d.code);
      }
      var t := Ticket(ConcreteConfig(config), d.value);
      var room := FriendRoom(t);
      RoomView(room);
      if !FriendConfig(t.config) {
        if room != "" {
          return Err(InvalidArgument);
        }
      } else {
        if room == "" {
          return Err(InvalidArgument);
        }
        if room !in sessions {
          return Err(NotFound);
        }
        ViewLists(sessions[room], PoolOf(room));
        if !sessions[room].active {
          return Err(NotFound);
        }
        var member := sessions[room].HasUid(uid);
        if !member {
          return Err(PermissionDenied);
        }
      }
      RegistryRuns.AuthorizeKeeps(Value(), t, uid);
      granted := granted + {t};
      r := Ok(t);
    }

    /** The second: the ticket gets its name. */
    method StoreTicket(id: string, t: Ticket)
      requires Valid() && t in granted && id !in tickets && id !in bound
      modifies this`tickets
      ensures Valid() && Value() == Step(old(Value()), Registry.StoreTicket(id, t), configured)
    {
      hide RoomsTied, ListsTied;
      RegistryRuns.StepKeeps(Value(), Registry.StoreTicket(id, t), configured);
      tickets := tickets[id := t];
    }

    /** CancelMatchmakingTicket; what the ticket was bound to stays. */
    method CancelTicket(id: string)
      requires Valid()
      modifies this`tickets
      ensures Valid() && Value() == Step(old(Value()), Cancel(id), configured)
    {
      hide RoomsTied, ListsTied;
      RegistryRuns.StepKeeps(Value(), Cancel(id), configured);
      tickets := tickets - {id};
    }

    // ----- created sessions -----

    method StoreCreation(id: string, c: Creation, ghost uid: string)
      requires Valid() && c.session == "" && id !in creations && GoodUid(uid) && c.definition.user == UserPath(uid)
      modifies this`creations
      ensures Valid() && Value() == Step(old(Value()), Registry.StoreCreation(id, c), configured)
    {
      hide RoomsTied, ListsTied;
      RegistryRuns.StepKeeps(Value(), Registry.StoreCreation(id, c), configured);
      creations := creations[id := c];
    }

    /** completeGameSessionCreationTicket. */
    method CompleteCreation(ticket: string, uid: string, gs: string, user: string) returns (answer: Option<string>)
      requires Valid() && FreshId(Value(), gs)
      modifies this`sessions, this`creations, this`games, this`rooms
      ensures Valid() && (Value(), answer) == Create(old(Value()), ticket, uid, gs, user, configured)
    {
      hide LastSegment, RoomsTied, View, ListsTied, RegistryRuns.HallOk, CreatedRoom, ListsUid;
      RegistryRuns.CreateKeeps(Value(), ticket, uid, gs, user, configured);
      if ticket !in creations {
        return None;
      }
      var c := creations[ticket];
      if c.session != "" {
        var member := MemberOf(c.session, uid);
        return if member then Some(c.session) else None;
      }
      var room := CreatedRoom(c, gs, user, configured);
      if room.None? {
        return None;
      }
      CreatedName(c, gs, user, configured);
      RoomView(gs);
      EnterSession(gs, room.value);
      creations := creations[ticket := c.(session := gs)];
      answer := Some(gs);
    }

    /** sessionHasUID of a session that may be missing. */
    method MemberOf(id: string, uid: string) returns (found: bool)
      requires RoomsTied()
      ensures found == (id in rooms && ListsUid(rooms[id].users, uid))
    {
      hide RoomsTied, ListsUid, View;
      RoomView(id);
      if id !in sessions {
        return false;
      }
      ViewLists(sessions[id], PoolOf(id));
      found := sessions[id].HasUid(uid);
    }

    lemma ViewLists(gs: GameSession, ps: PoolSession?)
      ensures View(gs, ps).users == gs.users && View(gs, ps).active == gs.active
    {
    }

    /** Enter a session no pool knows into the registry. */
    method EnterSession(gs: string, room: Room)
      requires RoomsTied() && gs !in rooms && room.pool.None? && LastSegment(room.name) == gs
      modifies this`sessions, this`games, this`rooms
      ensures RoomsTied() && rooms == old(rooms)[gs := room]
    {
      hide LastSegment, OneToOne, RoomsTied;
      var session := new GameSession(room);
      assert View(session, null) == room;
      EnterAlone(gs, session, room);
    }

    method EnterAlone(gs: string, session: GameSession, ghost room: Room)
      requires RoomsTied() && gs !in rooms && LastSegment(session.name) == gs
      requires session !in games && room == View(session, null)
      modifies this`sessions, this`games, this`rooms
      ensures RoomsTied() && rooms == old(rooms)[gs := room]
    {
      hide LastSegment, OneToOne, View;
      EnteredAlone(sessions, pooled, games, pools, gs, session);
      sessions := sessions[gs := session];
      games := games + {session};
      rooms := rooms[gs := room];
      forall k | k in sessions ensures rooms[k] == View(sessions[k], PoolOf(k)) {
        assert k != gs ==> View(sessions[k], PoolOf(k)) == old(View(sessions[k], PoolOf(k)));
      }
    }

    // ----- joining and leaving -----

    method JoinGameSession(uid: string, name: string, password: string, defs: seq<Definition>, friends: set<string>,
                           user: string) returns (r: Result<()>)
      requires Valid() && GoodUid(uid)
      modifies this`rooms, games, pools
      ensures Valid()
      ensures var j := JoinRoom(old(Value()), uid, name, password, defs, friends, user);
              if j.Ok? then r == Ok(()) && Value() == j.value else r == Err(j.code) && Value() == old(Value())
    {
      hide LastSegment, RoomsTied, ListsTied, RegistryRuns.HallOk, ValidSessionName, CallerDefinition, AddUser,
           Admission;
      JoinedIsOk(Value(), uid, name, password, defs, friends, user);
      if !ValidSessionName(name) {
        return Err(InvalidArgument);
      }
      var d := CallerDefinition(defs, uid);
      if d.Err? {
        return Err(d.code);
      }
      var id := LastSegment(name);
      var admitted := AdmitTo(id, uid, password, friends);
      if admitted.Err? {
        return Err(admitted.code);
      }
      if !admitted.value {
        AddTo(id, d.value, user);
      }
      r := Ok(());
    }

    method AdmitTo(id: string, uid: string, password: string, friends: set<string>) returns (r: Result<bool>)
      requires RoomsTied()
      ensures r == Admission(Get(rooms, id), uid, password, friends)
      ensures r.Ok? ==> id in sessions && id in rooms
    {
      hide RoomsTied, RoomVisible, ListsUid;
      RoomView(id);
      if id !in sessions {
        Unseen(uid, friends);
        return Err(NotFound);
      }
      PoolUnseen(sessions[id].Value(None), rooms[id].pool, uid, password, friends);
      r := sessions[id].Admit(uid, password, friends);
    }

    /** Through the pool when the session has one. */
    method AddTo(id: string, d: Definition, user: string)
      requires RoomsTied() && id in sessions
      modifies this`rooms, games, pools
      ensures RoomsTied() && id in old(rooms)
      ensures rooms == old(rooms)[id := AddUser(old(rooms)[id], d, old(rooms)[id].name + "/userSessions/" + user)]
    {
      hide LastSegment, AddMember;
      if id in pooled {
        AddToPool(pooled[id], d, user);
      } else {
        AddDirectly(id, d, user);
      }
    }

    lemma RoomView(id: string)
      requires RoomsTied()
      ensures id in sessions <==> id in rooms
      ensures id in sessions ==> rooms[id] == View(sessions[id], PoolOf(id)) && sessions[id] in games
      ensures id in pooled ==> id in sessions && pooled[id] in pools
    {
      hide LastSegment;
    }

    method LeaveSession(id: string, user: string)
      requires RoomsTied() && id in sessions
      modifies this`rooms, games, pools
      ensures RoomsTied() && id in old(rooms) && rooms == old(rooms)[id := Without(old(rooms)[id], user)]
    {
      hide LastSegment, ObjectsOk, Without, View;
      RoomView(id);
      PoolEntry(id);
      LeaveBoth(sessions[id], PoolOf(id), user);
      rooms := rooms[id := View(sessions[id], PoolOf(id))];
      forall k | k in sessions ensures rooms[k] == View(sessions[k], PoolOf(k)) {
        if k != id {
          Apart(id, k);
          assert View(sessions[k], PoolOf(k)) == old(View(sessions[k], PoolOf(k)));
        }
      }
    }

    lemma PoolEntry(id: string)
      requires ObjectsOk()
      ensures id in pooled ==> id in sessions && pooled[id].gameSession == sessions[id]
    {
      hide LastSegment;
    }

    /** depart: both lists lose the user session, and the last to leave ends the
        session, which stays as a tombstone. */
    method DepartSession(gameSession: string, userSession: string)
      requires Valid()
      modifies this`rooms, games, pools
      ensures Valid() && Value() == Depart(old(Value()), gameSession, userSession)
    {
      hide LastSegment, RoomsTied, ListsTied, RegistryRuns.HallOk, Without;
      RegistryRuns.DepartKeeps(Value(), gameSession, userSession);
      var id := LastSegment(gameSession);
      RoomView(id);
      if id in sessions {
        LeaveSession(id, LastSegment(userSession));
      }
    }
  }

  ghost predicate Listed(ids: seq<string>, list: seq<PoolSession>, pools: set<PoolSession>) {
    ids == Ids(list) && forall i :: 0 <= i < |list| ==> list[i] in pools
  }

  ghost predicate AllListed(lists: map<string, seq<string>>, byPool: map<string, seq<PoolSession>>,
                            pools: set<PoolSession>) {
    lists.Keys == byPool.Keys && forall key :: key in byPool ==> Listed(lists[key], byPool[key], pools)
  }

  ghost predicate AllBound(bound: map<string, string>, sessions: map<string, PoolSession>, pools: set<PoolSession>) {
    bound.Keys == sessions.Keys && forall t :: t in sessions ==> sessions[t] in pools && bound[t] == IdOf(sessions[t])
  }

  lemma ListMore(lists: map<string, seq<string>>, byPool: map<string, seq<PoolSession>>, pools: set<PoolSession>,
                 key: string, ps: PoolSession)
    requires AllListed(lists, byPool, pools) && ps in pools
    ensures AllListed(lists[key := (if key in lists then lists[key] else []) + [IdOf(ps)]],
                      byPool[key := (if key in byPool then byPool[key] else []) + [ps]], pools)
  {
    hide IdOf, Ids;
    var list := if key in byPool then byPool[key] else [];
    IdsSnoc(list, ps);
    NoIds();
    assert Listed(if key in lists then lists[key] else [], list, pools);
    assert Listed((if key in lists then lists[key] else []) + [IdOf(ps)], list + [ps], pools);
  }

  lemma SetTwice(m: map<string, Room>, k: string, a: Room, b: Room)
    ensures m[k := a][k := b] == m[k := b]
  {
  }

  lemma EnteredAlone(sessions: map<string, GameSession>, pooled: map<string, PoolSession>, games: set<GameSession>,
                     pools: set<PoolSession>, gs: string, session: GameSession)
    requires OneToOne(sessions, pooled, games, pools) && gs !in sessions && LastSegment(session.name) == gs
    ensures OneToOne(sessions[gs := session], pooled, games + {session}, pools) && gs !in pooled
  {
    hide LastSegment;
  }

  lemma CreatedName(c: Creation, id: string, user: string, configured: int)
    requires '/' !in id && CreatedRoom(c, id, user, configured).Some?
    ensures var room := CreatedRoom(c, id, user, configured).value;
            LastSegment(room.name) == id && room.pool.None?
  {
    NewRoomName(id);
  }

  lemma JoinedIsOk(h: Hall, uid: string, name: string, password: string, defs: seq<Definition>, friends: set<string>,
                   user: string)
    requires RegistryRuns.HallOk(h) && GoodUid(uid)
    ensures var j := JoinRoom(h, uid, name, password, defs, friends, user);
            j.Ok? ==> RegistryRuns.HallOk(j.value)
  {
    if JoinRoom(h, uid, name, password, defs, friends, user).Ok? {
      RegistryRuns.JoinKeeps(h, uid, name, password, defs, friends, user);
    }
  }

  lemma Unseen(uid: string, friends: set<string>)
    ensures !RoomVisible(None, uid, friends)
  {
  }

  /** Admission does not look at the pool. */
  lemma PoolUnseen(room: Room, pool: Option<Pool>, uid: string, password: string, friends: set<string>)
    ensures Admission(Some(room.(pool := pool)), uid, password, friends) == Admission(Some(room), uid, password, friends)
  {
    hide LastSegment;
  }

  lemma WithoutView(was: Room, now: Room, id: string)
    requires now.(pool := None) == Without(was.(pool := None), id)
    requires now.pool.Some? == was.pool.Some?
    requires was.pool.Some? ==> now.pool.value == Pool(was.pool.value.key, OtherMembers(was.pool.value.members, id))
    ensures now == Without(was, id)
  {
    hide OtherUsers, OtherMembers, LastSegment;
  }

  /** The registry once a session is chosen for a ticket, and its id. */
  ghost function Chosen(h: Hall, t: Ticket, uid: string, gs: string, configured: int): Hall {
    if Select(h, t, uid).Some? then h
    else h.(pools := h.pools[PoolKey(t) := PoolIds(h, PoolKey(t)) + [gs]], rooms := h.rooms[gs := NewRoom(t, gs, configured)])
  }

  ghost function ChosenId(h: Hall, t: Ticket, uid: string, gs: string): string {
    if Select(h, t, uid).Some? then Select(h, t, uid).value else gs
  }

  lemma Placed(h: Hall, ticket: string, uid: string, gs: string, user: string, configured: int, chosen: Hall,
               id: string, end: Hall)
    requires ticket in h.tickets && ticket !in h.bound
    requires var t := h.tickets[ticket];
             && chosen == Chosen(h, t, uid, gs, configured) && id == ChosenId(h, t, uid, gs)
             && id in chosen.rooms && chosen.rooms[id].pool.Some?
             && end == Place(chosen, ticket, t, id, chosen.rooms[id], user)
    ensures Complete(h, ticket, uid, gs, user, configured) == (end, Some(id))
  {
    hide Select, PoolKey, NewRoom, AddMember;
    var t := h.tickets[ticket];
    if Select(h, t, uid).None? {
      var room := chosen.rooms[gs];
      SetTwice(h.rooms, gs, room, AddMember(room, t.definition, room.name + "/userSessions/" + user));
    }
  }

  lemma NoIds()
    ensures Ids([]) == []
  {
  }

  lemma PoolsGrow(lists: map<string, seq<string>>, byPool: map<string, seq<PoolSession>>, bound: map<string, string>,
                  sessions: map<string, PoolSession>, pools: set<PoolSession>, ps: PoolSession)
    requires AllListed(lists, byPool, pools) && AllBound(bound, sessions, pools)
    ensures AllListed(lists, byPool, pools + {ps}) && AllBound(bound, sessions, pools + {ps})
  {
    hide IdOf, Ids;
    forall key | key in byPool ensures Listed(lists[key], byPool[key], pools + {ps}) {
      assert Listed(lists[key], byPool[key], pools);
    }
  }

  ghost predicate OneToOne(sessions: map<string, GameSession>, pooled: map<string, PoolSession>,
                           games: set<GameSession>,
                           pools: set<PoolSession>)
  {
    && (forall id :: id in sessions ==> sessions[id] in games && LastSegment(sessions[id].name) == id)
    && (forall id :: id in pooled ==> id in sessions && pooled[id] in pools && pooled[id].gameSession == sessions[id])
    && (forall ps :: ps in pools ==> IdOf(ps) in pooled && pooled[IdOf(ps)] == ps)
  }

  lemma Entered(sessions: map<string, GameSession>, pooled: map<string, PoolSession>, games: set<GameSession>,
                pools: set<PoolSession>, gs: string, session: GameSession, ps: PoolSession)
    requires OneToOne(sessions, pooled, games, pools) && gs !in sessions
    requires ps.gameSession == session && LastSegment(session.name) == gs
    ensures OneToOne(sessions[gs := session], pooled[gs := ps], games + {session}, pools + {ps})
  {
    hide LastSegment;
  }

  lemma NewRoomIs(t: Ticket, id: string, configured: int)
    requires '/' !in id
    ensures var room := NewRoom(t, id, configured);
            && LastSegment(room.name) == id && room.pool == Some(Pool(PoolKey(t), []))
            && room == room.(pool := None).(pool := Some(Pool(PoolKey(t), [])))
  {
    NewRoomName(id);
  }

  lemma IdIs(ps: PoolSession)
    ensures IdOf(ps) == LastSegment(ps.gameSession.name)
  {
  }

  lemma NothingToFind(rooms: map<string, Room>, uid: string)
    ensures FirstHolding([], rooms, uid).None? && FirstVacant([], rooms).None?
  {
  }

  lemma NewRoomName(id: string)
    requires '/' !in id
    ensures LastSegment(TENANT + "/gameSessions/" + id) == id
  {
    LastSegmentOf(TENANT + "/gameSessions", id);
    assert TENANT + "/gameSessions/" + id == TENANT + "/gameSessions" + "/" + id;
  }

  lemma IdsSnoc(list: seq<PoolSession>, ps: PoolSession)
    ensures Ids(list + [ps]) == Ids(list) + [IdOf(ps)]
  {
    assert (list + [ps])[..|list|] == list;
  }

  lemma {:induction false} FirstHoldingStays(ids: seq<string>, i: nat, rooms: map<string, Room>, uid: string)
    requires i <= |ids| && FirstHolding(ids[..i], rooms, uid).Some?
    ensures FirstHolding(ids, rooms, uid) == FirstHolding(ids[..i], rooms, uid)
    decreases |ids|
  {
    if i < |ids| {
      assert ids[..|ids| - 1][..i] == ids[..i];
      FirstHoldingStays(ids[..|ids| - 1], i, rooms, uid);
    } else {
      assert ids[..i] == ids;
    }
  }

  lemma {:induction false} FirstVacantStays(ids: seq<string>, i: nat, rooms: map<string, Room>)
    requires i <= |ids| && FirstVacant(ids[..i], rooms).Some?
    ensures FirstVacant(ids, rooms) == FirstVacant(ids[..i], rooms)
    decreases |ids|
  {
    if i < |ids| {
      assert ids[..|ids| - 1][..i] == ids[..i];
      FirstVacantStays(ids[..|ids| - 1], i, rooms);
    } else {
      assert ids[..i] == ids;
    }
  }
}
