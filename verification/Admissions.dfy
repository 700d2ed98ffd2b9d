// Who is let in and what a session then says (session_service.go:
// validSessionName, validateCallerDefinitions, authorizeFriendPool,
// JoinGameSession; matchmaking.go: publicMatchCapacity,
// newPublicMatchSessionLocked, addPublicMatchMembers,
// completeMatchmakingTicket, completeGameSessionCreationTicket).

module Admissions {
  import opened Wrappers
  import opened Values
  import opened Text
  import opened Rooms
  import opened Registry
  import opened RegistryRuns

  // ----- names and definitions -----

  predicate Segment(id: string) {
    id != "" && id != "." && id != ".." && '/' !in id
  }

  /** A session is addressed under the tenant, or under the current one. */
  predicate Addresses(name: string, id: string) {
    name == TENANT + "/gameSessions/" + id || name == "tenants/current/gameSessions/" + id
  }

  lemma SessionNames(name: string)
    ensures ValidSessionName(name) <==> exists id :: Segment(id) && Addresses(name, id)
  {
    var own, current := TENANT + "/gameSessions/", "tenants/current/gameSessions/";
    if ValidSessionName(name) {
      var id := if own <= name then name[|own|..] else name[|current|..];
      assert name == (if own <= name then own else current) + id;
      assert Segment(id) && Addresses(name, id);
    }
    if id :| Segment(id) && Addresses(name, id) {
      AddressIsValid(name, id);
    }
  }

  lemma AddressIsValid(name: string, id: string)
    requires Segment(id) && Addresses(name, id)
    ensures ValidSessionName(name) && LastSegment(name) == id
  {
    hide LastSegment;
    var own, current := TENANT + "/gameSessions/", "tenants/current/gameSessions/";
    if name == own + id {
      PrefixIs(own, id);
      LastSegmentOf(TENANT + "/gameSessions", id);
      assert own + id == TENANT + "/gameSessions" + "/" + id;
    } else {
      PrefixIs(current, id);
      OtherTenant(current, own, id);
      LastSegmentOf("tenants/current/gameSessions", id);
      assert current + id == "tenants/current/gameSessions" + "/" + id;
    }
  }

  lemma PrefixIs(prefix: string, id: string)
    ensures prefix <= prefix + id && (prefix + id)[|prefix|..] == id
  {
  }

  lemma OtherTenant(current: string, own: string, id: string)
    requires |current| > 8 && |own| > 8 && current[8] != own[8]
    ensures !(own <= current + id)
  {
    assert (current + id)[8] == current[8];
  }

  /** A caller submits one definition, of itself or of nobody in particular; it
      comes to name the caller and is otherwise kept. */
  lemma DefinitionIs(defs: seq<Definition>, uid: string)
    ensures var r := CallerDefinition(defs, uid);
            && (r.Ok? <==> |defs| == 1 && LastSegment(defs[0].user) in {"", "current", uid})
            && (r.Ok? ==> r.value == defs[0].(user := TENANT + "/users/" + uid))
            && (r.Err? ==> r.code == if |defs| != 1 then InvalidArgument else PermissionDenied)
  {
    hide LastSegment;
  }

  /** However a configuration is addressed, the ticket keeps its last segment
      under the server's own tenant; none stays none. */
  lemma ConfigIs(config: string)
    ensures var c := ConcreteConfig(config);
            if config == "" then c == ""
            else c == TENANT + "/matchmakingConfigs/" + LastSegment(config) && LastSegment(c) == LastSegment(config)
  {
    hide LastSegment;
    LastSegmentOf(TENANT + "/matchmakingConfigs", LastSegment(config));
    assert TENANT + "/matchmakingConfigs/" + LastSegment(config) == TENANT + "/matchmakingConfigs" + "/" + LastSegment(config);
  }

  // ----- newcomers -----

  /** The new entry of a session's list describes the definition it came from. */
  predicate Enters(users: seq<UserSession>, next: seq<UserSession>, name: string, d: Definition) {
    && |next| == |users| + 1 && next[..|users|] == users
    && var u := next[|users|];
    && u.name == name && u.user == d.user && u.team == d.team && u.attributes == d.attributes && u.latency == d.latency
  }

  lemma NewcomerEnters(room: Room, d: Definition, name: string)
    requires ListsOk(room) && !ListsUid(room.users, LastSegment(d.user))
    ensures var next := AddUser(room, d, name);
            && Enters(room.users, next.users, name, d) && next.count == room.count + 1
            && next == room.(users := next.users, count := next.count, max := next.max, pool := next.pool)
  {
    hide LastSegment, ListsUid, PoolHasUid;
    if room.pool.Some? {
      MirrorsKnow(room.users, room.pool.value.members, LastSegment(d.user));
    }
  }

  // ----- joining directly -----

  /** The session is shown to the caller: to its members, and unless it belongs
      to a friend pool, to everybody if it is public and otherwise to friends of
      a member. */
  predicate Shown(room: Room, uid: string, friends: set<string>) {
    && room.active
    && (|| (exists i :: 0 <= i < |room.users| && LastSegment(room.users[i].user) == uid)
        || (FriendTag(room) == "" && room.isPublic)
        || (FriendTag(room) == "" && exists i :: 0 <= i < |room.users| && LastSegment(room.users[i].user) in friends))
  }

  lemma ShownIsVisible(room: Room, uid: string, friends: set<string>)
    ensures RoomVisible(Some(room), uid, friends) <==> Shown(room, uid, friends)
  {
    hide LastSegment, FriendTag;
  }

  /** JoinGameSession decides, in this order: is the session shown to the caller;
      is the caller in already; does the password, if there is one, agree; is
      the session open with a place left. Only then the caller enters, as its
      definition describes it. */
  lemma JoinDecides(h: Hall, uid: string, name: string, id: string, password: string, d: Definition,
                    friends: set<string>, user: string)
    requires Segment(id) && Addresses(name, id) && GoodUid(uid) && LastSegment(d.user) in {"", "current", uid}
    ensures var r := JoinRoom(h, uid, name, password, [d], friends, user);
            if id !in h.rooms || !Shown(h.rooms[id], uid, friends) then r == Err(NotFound)
            else
              var room := h.rooms[id];
              if ListsUid(room.users, uid) then r == Ok(h)
              else if room.password != "" && password != room.password then r == Err(PermissionDenied)
              else if !room.canParticipate || room.count >= room.max then r == Err(ResourceExhausted)
              else r.Ok? && (ListsOk(room) ==> Joins(h, r.value, id, uid, d, user))
  {
    hide LastSegment, ListsUid, FriendTag, Shown, RoomVisible, AddUser, Joins, ValidSessionName, CallerDefinition,
         UserPath;
    AddressIsValid(name, id);
    DefinitionIs([d], uid);
    if id in h.rooms {
      ShownIsVisible(h.rooms[id], uid, friends);
      HiddenIsMissing(h.rooms[id], uid, friends);
    } else {
      NoRoomIsMissing(uid, friends);
    }
    var r := JoinRoom(h, uid, name, password, [d], friends, user);
    if r.Ok? && id in h.rooms && !ListsUid(h.rooms[id].users, uid) && ListsOk(h.rooms[id]) {
      JoinedJoins(h, id, uid, d, user);
    }
  }

  lemma NoRoomIsMissing(uid: string, friends: set<string>)
    ensures !RoomVisible(None, uid, friends)
  {
  }

  lemma HiddenIsMissing(room: Room, uid: string, friends: set<string>)
    ensures RoomVisible(Some(room), uid, friends) ==> room.active
  {
    hide LastSegment;
  }

  /** The caller entered the session, and nothing else changed. */
  predicate Joins(h: Hall, next: Hall, id: string, uid: string, d: Definition, user: string)
    requires id in h.rooms
  {
    && id in next.rooms
    && Enters(h.rooms[id].users, next.rooms[id].users, h.rooms[id].name + "/userSessions/" + user,
              d.(user := TENANT + "/users/" + uid))
    && next.rooms[id].count == h.rooms[id].count + 1
    && next == h.(rooms := h.rooms[id := next.rooms[id]])
  }

  lemma JoinedJoins(h: Hall, id: string, uid: string, d: Definition, user: string)
    requires id in h.rooms && ListsOk(h.rooms[id]) && GoodUid(uid) && !ListsUid(h.rooms[id].users, uid)
    ensures var room := h.rooms[id];
            Joins(h, h.(rooms := h.rooms[id := AddUser(room, d.(user := TENANT + "/users/" + uid),
                                                      room.name + "/userSessions/" + user)]), id, uid, d, user)
  {
    hide LastSegment, ListsUid, ListsOk, AddUser;
    UserPathNames(uid);
    assert UserPath(uid) == TENANT + "/users/" + uid;
    NewcomerEnters(h.rooms[id], d.(user := TENANT + "/users/" + uid), h.rooms[id].name + "/userSessions/" + user);
  }

  /** What is refused before any session is looked at. */
  lemma JoinRefuses(h: Hall, uid: string, name: string, password: string, defs: seq<Definition>, friends: set<string>,
                    user: string)
    ensures var r := JoinRoom(h, uid, name, password, defs, friends, user);
            && ((forall id :: Segment(id) ==> !Addresses(name, id)) ==> r == Err(InvalidArgument))
            && (|defs| != 1 ==> r == Err(InvalidArgument))
            && (ValidSessionName(name) && |defs| == 1 && LastSegment(defs[0].user) !in {"", "current", uid} ==>
                  r == Err(PermissionDenied))
  {
    hide LastSegment, Addresses, Segment, ValidSessionName, CallerDefinition, Admission;
    SessionNames(name);
    DefinitionIs(defs, uid);
  }

  // ----- friend pools -----

  /** A friend configuration, and only it, takes a friend room: an active session
      of which the caller is a member. */
  lemma GrantIs(h: Hall, t: Ticket, uid: string)
    ensures var friendly := "Friend" <= LastSegment(t.config);
            var asked := Get(t.definition.attributes, "FriendGameSessionId");
            var room := if asked.Some? && asked.value.String? then LastSegment(asked.value.text) else "";
            var r := AuthorizePool(h, t, uid);
            && FriendRoom(t) == room
            && (r.Ok? <==> if friendly then room != "" && room in h.rooms && h.rooms[room].active
                                            && ListsUid(h.rooms[room].users, uid)
                           else room == "")
            && ((friendly <==> room == "") ==> r == Err(InvalidArgument))
            && (friendly && room != "" && (room !in h.rooms || !h.rooms[room].active) ==> r == Err(NotFound))
            && (friendly && room != "" && room in h.rooms && h.rooms[room].active && !ListsUid(h.rooms[room].users, uid) ==>
                  r == Err(PermissionDenied))
  {
    hide LastSegment, ListsUid;
  }

  // ----- sessions opened by a ticket -----

  /** Places in a session that asks for no number: the configured limit if there
      is one, twelve for the map and friend games, four for the others. */
  predicate Seats(n: int, config: string, configured: int) {
    n == if configured > 0 then configured
         else if "WorldMapMatch" <= LastSegment(config) || "FriendWorldMapMatch" <= LastSegment(config)
                 || "FriendMatch" <= LastSegment(config)
         then 12 else 4
  }

  lemma CapacitySeats(config: string, configured: int)
    ensures Seats(Capacity(config, configured), config, configured)
  {
    hide LastSegment;
  }

  /** The session says who is in it: one member, as described. */
  predicate HasOne(room: Room, name: string, d: Definition) {
    room.count == 1 && Enters([], room.users, name, d)
  }

  /** A session opened for a ticket has the places of its configuration, is open
      and without password, public unless it belongs to a friend room, records
      what the ticket asked for, and holds its user. */
  lemma OpenedSessionIs(h: Hall, ticket: string, uid: string, gs: string, user: string, configured: int)
    requires HallOk(h) && Enabled(h, Track(ticket, uid, gs, user))
    requires gs in Complete(h, ticket, uid, gs, user, configured).0.rooms
    ensures ticket in h.tickets
    ensures var t, room := h.tickets[ticket], Complete(h, ticket, uid, gs, user, configured).0.rooms[gs];
            && room.name == TENANT + "/gameSessions/" + gs
            && Seats(room.max, t.config, configured)
            && room.active && room.canParticipate && room.password == ""
            && (room.isPublic <==> FriendRoom(t) == "") && Records(room.properties, t)
            && HasOne(room, room.name + "/userSessions/" + user, t.definition)
  {
    hide LastSegment, FriendRoom, PoolKey, NewRoom, RoomIn, UserPath, Complete, ListsUid, AddUser, AddMember, Vacant,
         Seats, Records, HasOne;
    var p := TrackIs(h, ticket, uid, gs, user, configured);
    if p.Opens? {
      OpenedRoomIs(h.tickets[ticket], gs, user, configured);
    } else {
      assert false;
    }
  }

  lemma OpenedRoomIs(t: Ticket, gs: string, user: string, configured: int)
    ensures var empty := NewRoom(t, gs, configured);
            && empty.pool.Some?
            && var room := AddMember(empty, t.definition, empty.name + "/userSessions/" + user);
            && room.name == TENANT + "/gameSessions/" + gs
            && Seats(room.max, t.config, configured)
            && room.active && room.canParticipate && room.password == ""
            && (room.isPublic <==> FriendRoom(t) == "") && Records(room.properties, t)
            && HasOne(room, room.name + "/userSessions/" + user, t.definition)
  {
    hide LastSegment, FriendRoom, PoolKey, MatchProperties, Records, Seats;
    CapacitySeats(t.config, configured);
    RecordsTicket(t);
    var empty := NewRoom(t, gs, configured);
    assert !PoolHasUid(empty.pool.value.members, LastSegment(t.definition.user));
  }

  /** A stored ticket is always answered when it is first tracked: its user is a
      member of the session it is bound to from then on. */
  lemma TrackedIsPlaced(h: Hall, ticket: string, uid: string, gs: string, user: string, configured: int)
    requires HallOk(h) && Enabled(h, Track(ticket, uid, gs, user)) && ticket in h.tickets && ticket !in h.bound
    ensures var (h', answer) := Complete(h, ticket, uid, gs, user, configured);
            && answer.Some? && Get(h'.bound, ticket) == answer
            && answer.value in h'.rooms && h'.rooms[answer.value].active && ListsUid(h'.rooms[answer.value].users, uid)
            && (answer.value in h.rooms && ListsUid(h.rooms[answer.value].users, uid) ==> h'.rooms == h.rooms)
            && (answer.value in h.rooms && !ListsUid(h.rooms[answer.value].users, uid) ==>
                  && Enters(h.rooms[answer.value].users, h'.rooms[answer.value].users,
                            h.rooms[answer.value].name + "/userSessions/" + user, h.tickets[ticket].definition)
                  && h'.rooms == h.rooms[answer.value := h'.rooms[answer.value]])
  {
    hide LastSegment, FriendRoom, PoolKey, NewRoom, RoomIn, UserPath, ListsUid, AddUser, Vacant, Holds, GoodUid, FreshId,
         Complete, Select, Enters;
    var t := h.tickets[ticket];
    UserPathNames(uid);
    var p := TrackIs(h, ticket, uid, gs, user, configured);
    AnswerIsBinding(h, ticket, uid, gs, user, configured);
    match p
    case Nothing =>
      assert false;
    case Again(id) => HeldIsListed(h, id, uid);
    case Vacancy(id) =>
      NotHeldNotListed(h, id, uid);
      assert RoomIn(h.granted, id, h.rooms[id]);
      RoomOfHall(h, id);
      NewcomerEnters(h.rooms[id], t.definition, h.rooms[id].name + "/userSessions/" + user);
      EntersListed(h.rooms[id].users, AddUser(h.rooms[id], t.definition, h.rooms[id].name + "/userSessions/" + user).users,
                   h.rooms[id].name + "/userSessions/" + user, t.definition);
      AddedStaysActive(h.rooms[id], t.definition, h.rooms[id].name + "/userSessions/" + user);
    case Opens =>
      assert gs !in h.rooms by {
        FreshIsUsable(h, gs);
      }
      OpenedRoomIs(t, gs, user, configured);
      var room := AddMember(NewRoom(t, gs, configured), t.definition, NewRoom(t, gs, configured).name + "/userSessions/" + user);
      EntersListed([], room.users, room.name + "/userSessions/" + user, t.definition);
  }

  lemma AnswerIsBinding(h: Hall, ticket: string, uid: string, gs: string, user: string, configured: int)
    requires HallOk(h) && ticket in h.tickets && ticket !in h.bound
    ensures var (h', answer) := Complete(h, ticket, uid, gs, user, configured);
            answer.Some? && Get(h'.bound, ticket) == answer
  {
    hide LastSegment, FriendRoom, PoolKey, NewRoom, RoomIn, Vacant, Holds, AddMember;
    var t := h.tickets[ticket];
    SelectIs(h, t, uid);
    PoolOfNew(t, gs, configured);
  }

  lemma PoolOfNew(t: Ticket, gs: string, configured: int)
    ensures NewRoom(t, gs, configured).pool.Some?
  {
  }

  lemma RoomOfHall(h: Hall, id: string)
    requires HallOk(h) && id in h.rooms
    ensures ListsOk(h.rooms[id])
  {
    hide LastSegment, Founded, MembersVouched, PoolsOk, TicketsOk;
    assert RoomIn(h.granted, id, h.rooms[id]);
  }

  lemma HeldIsListed(h: Hall, id: string, uid: string)
    requires HallOk(h) && id in h.rooms && Holds(h.rooms[id], uid)
    ensures ListsUid(h.rooms[id].users, uid) && h.rooms[id].active
  {
    hide LastSegment;
    RoomOfHall(h, id);
    MirrorsKnow(h.rooms[id].users, h.rooms[id].pool.value.members, uid);
  }

  lemma EntersListed(users: seq<UserSession>, next: seq<UserSession>, name: string, d: Definition)
    requires Enters(users, next, name, d)
    ensures ListsUid(next, LastSegment(d.user))
  {
    hide LastSegment;
    assert LastSegment(next[|users|].user) == LastSegment(d.user);
  }

  /** A ticket that is bound answers its session exactly while that session is
      active and the caller a member of it. */
  lemma BoundTicketAnswers(h: Hall, ticket: string, uid: string, gs: string, user: string, configured: int)
    requires HallOk(h) && ticket in h.tickets && ticket in h.bound
    ensures var id, (h', answer) := h.bound[ticket], Complete(h, ticket, uid, gs, user, configured);
            && h' == h
            && answer == if id in h.rooms && h.rooms[id].active && ListsUid(h.rooms[id].users, uid) then Some(id) else None
  {
    hide LastSegment, ListsUid, PoolHasUid;
    var id := h.bound[ticket];
    RoomOfHall(h, id);
    if h.rooms[id].pool.Some? {
      MirrorsKnow(h.rooms[id].users, h.rooms[id].pool.value.members, uid);
    }
  }

  // ----- sessions created on demand -----

  /** A creation ticket asks for a number of places (none: those of its
      configuration); a number outside 1..64 makes no session. Otherwise the
      session has these places and the password and properties asked for, is
      public unless it has a password or a friend configuration, and holds its
      maker. */
  lemma CreatedSessionIs(h: Hall, ticket: string, uid: string, gs: string, user: string, configured: int, n: int)
    requires ticket in h.creations && h.creations[ticket].session == ""
    requires var wish := h.creations[ticket].wish;
             if wish.Some? && wish.value.max != 0 then n == wish.value.max
             else Seats(n, h.creations[ticket].config, configured)
    ensures var c, (h', answer) := h.creations[ticket], Create(h, ticket, uid, gs, user, configured);
            if !(1 <= n <= 64) then h' == h && answer == None
            else
              && answer == Some(gs) && gs in h'.rooms && Get(h'.creations, ticket) == Some(c.(session := gs))
              && var room := h'.rooms[gs];
              && room.name == TENANT + "/gameSessions/" + gs && room.max == n
              && room.active && room.canParticipate && room.pool == None
              && room.password == (if c.wish.Some? then c.wish.value.password else "")
              && (room.isPublic <==> room.password == "" && !("Friend" <= LastSegment(c.config)))
              && HasOne(room, room.name + "/userSessions/" + user, c.definition)
              && Get(room.properties, "_BaseConfigName") == Some(String(LastSegment(c.config)))
              && Get(room.properties, "_AliasSuffix") == Some(String(""))
              && forall k :: k !in {"_BaseConfigName", "_AliasSuffix"} ==>
                   Get(room.properties, k) == if c.wish.Some? then Get(c.wish.value.properties, k) else None
  {
    hide LastSegment, Capacity, Seats;
    CapacitySeats(h.creations[ticket].config, configured);
    SeatsAreFixed(n, Capacity(h.creations[ticket].config, configured), h.creations[ticket].config, configured);
  }

  lemma SeatsAreFixed(m: int, n: int, config: string, configured: int)
    ensures Seats(m, config, configured) && Seats(n, config, configured) ==> m == n
  {
    hide LastSegment;
  }
}
