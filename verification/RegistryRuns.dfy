// What every run of the matchmaker and the session registry keeps.

module RegistryRuns {
  import opened Wrappers
  import opened Values
  import opened Text
  import opened Rooms
  import opened Registry

  // ----- the invariant -----

  function MatchingKey(t: Ticket): string {
    StringAttribute(t.definition, "MatchingKey")
  }

  /** The properties record what the ticket asked for, and nothing else. */
  predicate Records(properties: Fields, t: Ticket) {
    && properties.Keys <= {"_BaseConfigName", "_AliasSuffix", "MatchingKey", "FriendGameSessionId"}
    && Get(properties, "_BaseConfigName") == Some(String(LastSegment(t.config)))
    && Get(properties, "_AliasSuffix") == Some(String(""))
    && Get(properties, "MatchingKey") == (if MatchingKey(t) != "" then Some(String(MatchingKey(t))) else None)
    && Get(properties, "FriendGameSessionId") == (if FriendRoom(t) != "" then Some(String(FriendRoom(t))) else None)
  }

  ghost predicate FoundedBy(room: Room, t: Ticket)
    requires room.pool.Some?
  {
    PoolKey(t) == room.pool.value.key && FriendRoom(t) == FriendTag(room) && Records(room.properties, t)
  }

  /** The session was founded under its pool's key, by a ticket it records, for
      the room it is tagged with. */
  ghost predicate Founded(granted: set<Ticket>, room: Room)
    requires room.pool.Some?
  {
    exists t :: t in granted && FoundedBy(room, t)
  }

  /** A ticket for this room was granted to this user. */
  ghost predicate Vouched(granted: set<Ticket>, user: string, room: string) {
    exists t :: t in granted && t.definition.user == user && FriendRoom(t) == room
  }

  ghost predicate MembersVouched(granted: set<Ticket>, room: Room)
    requires room.pool.Some?
  {
    FriendTag(room) != "" ==> forall m :: m in room.pool.value.members ==> Vouched(granted, m.definition.user, FriendTag(room))
  }

  ghost predicate RoomIn(granted: set<Ticket>, id: string, room: Room) {
    && RoomOk(room) && NUL !in id && LastSegment(room.name) == id
    && (room.pool.Some? ==> Founded(granted, room) && MembersVouched(granted, room))
  }

  ghost predicate RoomsOk(h: Hall) {
    forall id :: id in h.rooms ==> RoomIn(h.granted, id, h.rooms[id])
  }

  predicate InPool(rooms: map<string, Room>, key: string, id: string) {
    id in rooms && rooms[id].pool.Some? && rooms[id].pool.value.key == key
  }

  ghost predicate PoolsOk(h: Hall) {
    forall key :: key in h.pools ==> forall i :: 0 <= i < |h.pools[key]| ==> InPool(h.rooms, key, h.pools[key][i])
  }

  ghost predicate TicketsOk(h: Hall) {
    && (forall t :: t in h.granted ==> NUL !in FriendRoom(t))
    && (forall id :: id in h.tickets ==> h.tickets[id] in h.granted)
    && (forall id :: id in h.bound ==> h.bound[id] in h.rooms && h.rooms[h.bound[id]].pool.Some?)
  }

  ghost predicate HallOk(h: Hall) {
    RoomsOk(h) && PoolsOk(h) && TicketsOk(h)
  }

  lemma EmptyOk()
    ensures HallOk(EMPTY)
  {
  }

  /** What no step does to a session: its maximum, name, tag and pool are fixed,
      and a tombstone never changes again. */
  ghost predicate Evolves(a: Room, b: Room) {
    && b.max == a.max && b.name == a.name && b.properties == a.properties
    && b.isPublic == a.isPublic && b.password == a.password
    && b.pool.Some? == a.pool.Some? && (a.pool.Some? ==> b.pool.value.key == a.pool.value.key)
    && (!a.active ==> b == a)
  }

  ghost predicate RoomsEvolve(h: Hall, h': Hall) {
    forall id :: id in h.rooms ==> id in h'.rooms && Evolves(h.rooms[id], h'.rooms[id])
  }

  /** Replacing one session by an admissible successor keeps the invariant. */
  lemma SetRoomKeeps(h: Hall, id: string, room: Room, bound: map<string, string>)
    requires HallOk(h) && id in h.rooms && RoomIn(h.granted, id, room) && Evolves(h.rooms[id], room)
    requires forall t :: t in bound ==> Get(bound, t) == Get(h.bound, t) || (bound[t] == id && room.pool.Some?)
    ensures var h' := h.(rooms := h.rooms[id := room], bound := bound);
            HallOk(h') && RoomsEvolve(h, h')
  {
    hide RoomIn, LastSegment, FriendRoom;
    var h' := h.(rooms := h.rooms[id := room], bound := bound);
    forall key | key in h'.pools
      ensures forall i :: 0 <= i < |h'.pools[key]| ==> InPool(h'.rooms, key, h'.pools[key][i])
    {
      forall i | 0 <= i < |h'.pools[key]| ensures InPool(h'.rooms, key, h'.pools[key][i]) {
        assert InPool(h.rooms, key, h.pools[key][i]);
      }
    }
    forall t | t in bound ensures bound[t] in h'.rooms && h'.rooms[bound[t]].pool.Some? {
      assert t in h.bound || bound[t] == id;
    }
  }

  // ----- pool keys -----

  /** Two tickets of one pool name the same room: the room ends the key, and no
      room id holds the separator. */
  lemma KeyDeterminesRoom(a: Ticket, b: Ticket)
    requires PoolKey(a) == PoolKey(b) && NUL !in FriendRoom(a) && NUL !in FriendRoom(b)
    ensures FriendRoom(a) == FriendRoom(b)
  {
    var front := a.config + [NUL] + StringAttribute(a.definition, "MatchingKey") + [NUL];
    var front' := b.config + [NUL] + StringAttribute(b.definition, "MatchingKey") + [NUL];
    SuffixAfter(front[..|front| - 1], FriendRoom(a), front'[..|front'| - 1], FriendRoom(b));
  }

  lemma SuffixAfter(x: string, r: string, y: string, s: string)
    requires x + [NUL] + r == y + [NUL] + s && NUL !in r && NUL !in s
    ensures r == s
  {
    var k := x + [NUL] + r;
    assert k == y + [NUL] + s;
    if |x| < |y| {
      LaterSeparator(x, r, |y|);
    } else if |y| < |x| {
      LaterSeparator(y, s, |x|);
    } else {
      assert k[|x| + 1..] == r && k[|y| + 1..] == s;
    }
  }

  lemma LaterSeparator(x: string, r: string, j: nat)
    requires |x| < j < |x| + 1 + |r|
    ensures (x + [NUL] + r)[j] in r
  {
    assert (x + [NUL] + r)[j] == r[j - |x| - 1];
  }

  // ----- matching -----

  lemma {:induction false} FirstHoldingIs(ids: seq<string>, rooms: map<string, Room>, uid: string)
    ensures var r := FirstHolding(ids, rooms, uid);
            && (r.Some? ==> r.value in ids && r.value in rooms && Holds(rooms[r.value], uid))
            && (r.Some? ==> exists i :: 0 <= i < |ids| && ids[i] == r.value
                              && forall j :: 0 <= j < i && ids[j] in rooms ==> !Holds(rooms[ids[j]], uid))
            && (r.None? ==> forall id :: id in ids && id in rooms ==> !Holds(rooms[id], uid))
    decreases |ids|
  {
    hide Holds;
    if ids != [] {
      var front, last := ids[..|ids| - 1], ids[|ids| - 1];
      FirstHoldingIs(front, rooms, uid);
      assert ids == front + [last];
      if FirstHolding(front, rooms, uid).Some? {
        var i :| 0 <= i < |front| && front[i] == FirstHolding(front, rooms, uid).value
                 && forall j :: 0 <= j < i && front[j] in rooms ==> !Holds(rooms[front[j]], uid);
        assert ids[i] == front[i] && forall j :: 0 <= j < i ==> ids[j] == front[j];
      } else {
        assert forall j :: 0 <= j < |front| ==> ids[j] in ids && ids[j] in front;
      }
    }
  }

  lemma {:induction false} FirstVacantIs(ids: seq<string>, rooms: map<string, Room>)
    ensures var r := FirstVacant(ids, rooms);
            && (r.Some? ==> r.value in ids && r.value in rooms && Vacant(rooms[r.value]))
            && (r.Some? ==> exists i :: 0 <= i < |ids| && ids[i] == r.value
                              && forall j :: 0 <= j < i && ids[j] in rooms ==> !Vacant(rooms[ids[j]]))
            && (r.None? ==> forall id :: id in ids && id in rooms ==> !Vacant(rooms[id]))
    decreases |ids|
  {
    hide Vacant;
    if ids != [] {
      var front, last := ids[..|ids| - 1], ids[|ids| - 1];
      FirstVacantIs(front, rooms);
      assert ids == front + [last];
      if FirstVacant(front, rooms).Some? {
        var i :| 0 <= i < |front| && front[i] == FirstVacant(front, rooms).value
                 && forall j :: 0 <= j < i && front[j] in rooms ==> !Vacant(rooms[front[j]]);
        assert ids[i] == front[i] && forall j :: 0 <= j < i ==> ids[j] == front[j];
      } else {
        assert forall j :: 0 <= j < |front| ==> ids[j] in ids && ids[j] in front;
      }
    }
  }

  /** The sessions a ticket may be placed in: one of its pool that is active and
      either holds the caller already or has a vacancy. */
  lemma SelectIs(h: Hall, t: Ticket, uid: string)
    requires PoolsOk(h)
    ensures var ids, r := PoolIds(h, PoolKey(t)), Select(h, t, uid);
            && (r.Some? ==>
                  r.value in ids && InPool(h.rooms, PoolKey(t), r.value)
                  && (Holds(h.rooms[r.value], uid)
                      || (Vacant(h.rooms[r.value]) && forall id :: id in ids && id in h.rooms ==> !Holds(h.rooms[id], uid))))
            && (r.None? ==> forall id :: id in ids && id in h.rooms ==> !Vacant(h.rooms[id]))
  {
    hide Holds, Vacant, PoolKey;
    var ids := PoolIds(h, PoolKey(t));
    FirstHoldingIs(ids, h.rooms, uid);
    FirstVacantIs(ids, h.rooms);
  }

  /** A newcomer is vouched for by the granted ticket it came with, or enters a
      session without a friend room. */
  lemma NewcomerKeeps(granted: set<Ticket>, id: string, room: Room, d: Definition, name: string)
    requires RoomIn(granted, id, room) && room.active && room.count < room.max
    requires !ListsUid(room.users, LastSegment(d.user))
    requires room.pool.Some? && FriendTag(room) != "" ==> Vouched(granted, d.user, FriendTag(room))
    ensures RoomIn(granted, id, AddUser(room, d, name)) && Evolves(room, AddUser(room, d, name))
    ensures AddUser(room, d, name).users == room.users + [UserOf(d, name)]
  {
    hide LastSegment, FriendRoom, Vouched, PoolKey, ListsUid, PoolHasUid, AddUser, RoomOk;
    assert RoomOk(room);
    RoomParts(room);
    AddUserKeeps(room, d, name);
    var next := AddUser(room, d, name);
    assert FriendTag(next) == FriendTag(room);
    if room.pool.Some? {
      var t :| t in granted && FoundedBy(room, t);
      assert FoundedBy(next, t);
    }
  }

  lemma RoomParts(room: Room)
    requires RoomOk(room)
    ensures ListsOk(room) && (room.active <==> room.users != [])
  {
  }

  /** A ticket's newcomer comes with the room its pool is tagged with. */
  lemma TicketVouches(h: Hall, t: Ticket, id: string)
    requires HallOk(h) && t in h.granted && InPool(h.rooms, PoolKey(t), id)
    ensures Vouched(h.granted, t.definition.user, FriendTag(h.rooms[id]))
  {
    hide LastSegment, FriendRoom, PoolKey, RoomOk, MembersVouched, Records;
    assert RoomIn(h.granted, id, h.rooms[id]);
    var t0 :| t0 in h.granted && FoundedBy(h.rooms[id], t0);
    KeyDeterminesRoom(t, t0);
  }

  lemma UserPathNames(uid: string)
    requires GoodUid(uid)
    ensures LastSegment(UserPath(uid)) == uid
  {
    LastSegmentOf(TENANT + "/users", uid);
    assert UserPath(uid) == TENANT + "/users" + "/" + uid;
  }

  lemma NewRoomIs(granted: set<Ticket>, t: Ticket, id: string, configured: int)
    requires t in granted && NUL !in id && '/' !in id
    ensures var room := NewRoom(t, id, configured);
            && ListsOk(room) && room.active && room.count < room.max && LastSegment(room.name) == id
            && FriendTag(room) == FriendRoom(t) && Founded(granted, room)
  {
    hide LastSegment;
    LastSegmentOf(TENANT + "/gameSessions", id);
    assert TENANT + "/gameSessions/" + id == TENANT + "/gameSessions" + "/" + id;
    var room := NewRoom(t, id, configured);
    RecordsTicket(t);
    assert FoundedBy(room, t);
  }

  lemma RecordsTicket(t: Ticket)
    ensures Records(MatchProperties(t), t)
    ensures StringOf(Get(MatchProperties(t), "FriendGameSessionId")) == FriendRoom(t)
  {
    hide LastSegment, FriendRoom, StringAttribute;
  }

  /** A new session with its first member. */
  lemma FirstMember(granted: set<Ticket>, t: Ticket, id: string, configured: int, name: string)
    requires t in granted && NUL !in id && '/' !in id
    ensures NewRoom(t, id, configured).pool.Some?
    ensures var room := AddMember(NewRoom(t, id, configured), t.definition, name);
            && RoomIn(granted, id, room) && room.pool.Some? && room.pool.value.key == PoolKey(t)
            && room.active && room.max == NewRoom(t, id, configured).max
  {
    hide LastSegment, FriendRoom, PoolKey, Capacity, MatchProperties, Records;
    var empty := NewRoom(t, id, configured);
    NewRoomIs(granted, t, id, configured);
    AddUserKeeps(empty, t.definition, name);
    var room := AddMember(empty, t.definition, name);
    assert room == AddUser(empty, t.definition, name);
    assert FriendTag(room) == FriendTag(empty);
    var t0 :| t0 in granted && FoundedBy(empty, t0);
    assert FoundedBy(room, t0);
    assert Vouched(granted, t.definition.user, FriendTag(room));
  }

  /** The four things tracking a ticket can do: nothing; bind it to a session
      the caller is in already; take a vacancy of its pool; open a session. */
  datatype Placement = Nothing | Again(id: string) | Vacancy(id: string) | Opens

  ghost predicate Takes(h: Hall, ticket: string, uid: string, p: Placement) {
    match p
    case Nothing => ticket !in h.tickets || ticket in h.bound
    case Again(id) =>
      && ticket in h.tickets && ticket !in h.bound && InPool(h.rooms, PoolKey(h.tickets[ticket]), id)
      && Holds(h.rooms[id], uid)
    case Vacancy(id) =>
      && ticket in h.tickets && ticket !in h.bound && InPool(h.rooms, PoolKey(h.tickets[ticket]), id)
      && Vacant(h.rooms[id]) && !Holds(h.rooms[id], uid)
    case Opens =>
      && ticket in h.tickets && ticket !in h.bound
      && forall id :: id in PoolIds(h, PoolKey(h.tickets[ticket])) && id in h.rooms ==> !Vacant(h.rooms[id])
  }

  /** The state each of them leaves. */
  ghost function After(h: Hall, ticket: string, gs: string, user: string, configured: int, p: Placement): Hall {
    if ticket !in h.tickets then h
    else
      var t := h.tickets[ticket];
      var key := PoolKey(t);
      match p
      case Nothing => h
      case Again(id) => h.(bound := h.bound[ticket := id])
      case Vacancy(id) =>
        if id in h.rooms
        then h.(rooms := h.rooms[id := AddUser(h.rooms[id], t.definition, h.rooms[id].name + "/userSessions/" + user)],
                bound := h.bound[ticket := id])
        else h
      case Opens =>
        var room := NewRoom(t, gs, configured);
        h.(pools := h.pools[key := PoolIds(h, key) + [gs]],
           rooms := h.rooms[gs := AddMember(room, t.definition, room.name + "/userSessions/" + user)],
           bound := h.bound[ticket := gs])
  }

  lemma TrackIs(h: Hall, ticket: string, uid: string, gs: string, user: string, configured: int) returns (p: Placement)
    requires HallOk(h) && Enabled(h, Track(ticket, uid, gs, user))
    ensures Takes(h, ticket, uid, p) && Complete(h, ticket, uid, gs, user, configured).0 == After(h, ticket, gs, user, configured, p)
  {
    hide LastSegment, FriendRoom, PoolKey, Vacant, NewRoom, RoomIn, FreshId, UserPath;
    p := Nothing;
    if ticket in h.tickets && ticket !in h.bound {
      var t := h.tickets[ticket];
      SelectIs(h, t, uid);
      var found := Select(h, t, uid);
      if found.None? {
        p := Opens;
      } else if Holds(h.rooms[found.value], uid) {
        p := Again(found.value);
        UserPathNames(uid);
        AlreadyIn(h, found.value, t.definition, uid, h.rooms[found.value].name + "/userSessions/" + user);
      } else {
        p := Vacancy(found.value);
      }
    }
  }

  lemma AlreadyIn(h: Hall, id: string, d: Definition, uid: string, name: string)
    requires RoomsOk(h) && id in h.rooms && Holds(h.rooms[id], uid) && LastSegment(d.user) == uid
    ensures AddMember(h.rooms[id], d, name) == h.rooms[id] && h.rooms[id := h.rooms[id]] == h.rooms
  {
    hide LastSegment;
  }

  lemma TrackKeeps(h: Hall, ticket: string, uid: string, gs: string, user: string, configured: int)
    requires HallOk(h) && Enabled(h, Track(ticket, uid, gs, user))
    ensures var h' := Complete(h, ticket, uid, gs, user, configured).0;
            HallOk(h') && RoomsEvolve(h, h')
  {
    hide LastSegment, FriendRoom, PoolKey, NewRoom, RoomIn, AddUser, AddMember, UserPath, Complete, ListsUid;
    var p := TrackIs(h, ticket, uid, gs, user, configured);
    match p
    case Nothing => EvolvesItself(h);
    case Again(id) =>
      EvolvesItself(h);
      SetRoomKeeps(h, id, h.rooms[id], h.bound[ticket := id]);
      assert h.rooms[id := h.rooms[id]] == h.rooms;
    case Vacancy(id) =>
      var t, name := h.tickets[ticket], h.rooms[id].name + "/userSessions/" + user;
      UserPathNames(uid);
      TicketVouches(h, t, id);
      NotHeldNotListed(h, id, uid);
      NewcomerKeeps(h.granted, id, h.rooms[id], t.definition, name);
      SetRoomKeeps(h, id, AddUser(h.rooms[id], t.definition, name), h.bound[ticket := id]);
    case Opens =>
      var t := h.tickets[ticket];
      var empty := NewRoom(t, gs, configured);
      FirstMember(h.granted, t, gs, configured, empty.name + "/userSessions/" + user);
      assert empty.pool.Some?;
      OpenKeeps(h, PoolKey(t), gs, AddMember(empty, t.definition, empty.name + "/userSessions/" + user), ticket);
  }

  lemma EvolvesItself(h: Hall)
    ensures RoomsEvolve(h, h)
  {
  }

  lemma NotHeldNotListed(h: Hall, id: string, uid: string)
    requires RoomsOk(h) && id in h.rooms && Vacant(h.rooms[id]) && h.rooms[id].pool.Some? && !Holds(h.rooms[id], uid)
    ensures !ListsUid(h.rooms[id].users, uid) && h.rooms[id].active && h.rooms[id].count < h.rooms[id].max
  {
    hide LastSegment;
    assert RoomIn(h.granted, id, h.rooms[id]);
    MirrorsKnow(h.rooms[id].users, h.rooms[id].pool.value.members, uid);
  }

  /** Opening a session for a pool keeps the invariant. */
  lemma OpenKeeps(h: Hall, key: string, gs: string, room: Room, ticket: string)
    requires HallOk(h) && gs !in h.rooms && RoomIn(h.granted, gs, room) && room.pool.Some? && room.pool.value.key == key
    ensures var h' := h.(pools := h.pools[key := PoolIds(h, key) + [gs]], rooms := h.rooms[gs := room],
                         bound := h.bound[ticket := gs]);
            HallOk(h') && RoomsEvolve(h, h')
  {
    hide RoomIn, LastSegment, FriendRoom;
    var h' := h.(pools := h.pools[key := PoolIds(h, key) + [gs]], rooms := h.rooms[gs := room],
                 bound := h.bound[ticket := gs]);
    forall k, i | k in h'.pools && 0 <= i < |h'.pools[k]| ensures InPool(h'.rooms, k, h'.pools[k][i]) {
      if k != key || i < |PoolIds(h, key)| {
        assert InPool(h.rooms, k, h.pools[k][i]);
      }
    }
  }

  // ----- creating, joining, leaving -----

  lemma CreateKeeps(h: Hall, ticket: string, uid: string, gs: string, user: string, configured: int)
    requires HallOk(h) && FreshId(h, gs)
    ensures var h' := Create(h, ticket, uid, gs, user, configured).0;
            HallOk(h') && RoomsEvolve(h, h')
  {
    EvolvesItself(h);
    if ticket in h.creations && h.creations[ticket].session == "" {
      var c := h.creations[ticket];
      var room := CreatedRoom(c, gs, user, configured);
      if room.Some? {
        CreatedRoomIs(h.granted, c, gs, user, configured);
        AddRoomKeeps(h, gs, room.value, h.creations[ticket := c.(session := gs)]);
      }
    }
  }

  lemma CreatedRoomIs(granted: set<Ticket>, c: Creation, id: string, user: string, configured: int)
    requires '/' !in id && NUL !in id && CreatedRoom(c, id, user, configured).Some?
    ensures RoomIn(granted, id, CreatedRoom(c, id, user, configured).value)
    ensures var room := CreatedRoom(c, id, user, configured).value;
            room.pool.None? && room.active && room.max <= 64 && |room.users| == 1 && room.users[0].user == c.definition.user
  {
    LastSegmentOf(TENANT + "/gameSessions", id);
    assert TENANT + "/gameSessions/" + id == TENANT + "/gameSessions" + "/" + id;
  }

  lemma AddRoomKeeps(h: Hall, gs: string, room: Room, creations: map<string, Creation>)
    requires HallOk(h) && gs !in h.rooms && RoomIn(h.granted, gs, room)
    ensures var h' := h.(rooms := h.rooms[gs := room], creations := creations);
            HallOk(h') && RoomsEvolve(h, h')
  {
    hide RoomIn, LastSegment, FriendRoom;
    var h' := h.(rooms := h.rooms[gs := room], creations := creations);
    forall k, i | k in h'.pools && 0 <= i < |h'.pools[k]| ensures InPool(h'.rooms, k, h'.pools[k][i]) {
      assert InPool(h.rooms, k, h.pools[k][i]);
    }
  }

  /** A direct join adds nobody to a friend pool's session, and elsewhere one
      vacancy's worth. */
  lemma JoinIs(h: Hall, uid: string, name: string, password: string, defs: seq<Definition>, friends: set<string>,
               user: string)
    requires GoodUid(uid) && JoinRoom(h, uid, name, password, defs, friends, user).Ok?
    ensures var id := LastSegment(name);
            && id in h.rooms && h.rooms[id].active
            && CallerDefinition(defs, uid).Ok?
            && var room, d := h.rooms[id], CallerDefinition(defs, uid).value;
            && LastSegment(d.user) == uid
            && JoinRoom(h, uid, name, password, defs, friends, user).value
               == (if ListsUid(room.users, uid) then h
                   else h.(rooms := h.rooms[id := AddUser(room, d, room.name + "/userSessions/" + user)]))
            && (!ListsUid(room.users, uid) ==> FriendTag(room) == "" && room.count < room.max)
  {
    hide LastSegment, AddUser, ListsUid, UserPath, FriendTag, Admission, ValidSessionName;
    UserPathNames(uid);
    AdmissionIs(Get(h.rooms, LastSegment(name)), uid, password, friends);
  }

  lemma AdmissionIs(room: Option<Room>, uid: string, password: string, friends: set<string>)
    ensures Admission(room, uid, password, friends).Ok? ==>
              && room.Some? && room.value.active
              && Admission(room, uid, password, friends).value == ListsUid(room.value.users, uid)
              && (!ListsUid(room.value.users, uid) ==>
                    FriendTag(room.value) == "" && room.value.count < room.value.max)
  {
    hide LastSegment, ListsUid, FriendTag, SomeFriend;
  }

  lemma JoinKeeps(h: Hall, uid: string, name: string, password: string, defs: seq<Definition>, friends: set<string>,
                  user: string)
    requires HallOk(h) && GoodUid(uid) && JoinRoom(h, uid, name, password, defs, friends, user).Ok?
    ensures var h' := JoinRoom(h, uid, name, password, defs, friends, user).value;
            HallOk(h') && RoomsEvolve(h, h')
  {
    hide LastSegment, AddUser, RoomIn, JoinRoom, ListsUid, FriendTag, CallerDefinition, FriendRoom;
    EvolvesItself(h);
    JoinIs(h, uid, name, password, defs, friends, user);
    var id, d := LastSegment(name), CallerDefinition(defs, uid).value;
    var room := h.rooms[id];
    if !ListsUid(room.users, uid) {
      NewcomerKeeps(h.granted, id, room, d, room.name + "/userSessions/" + user);
      SetRoomKeeps(h, id, AddUser(room, d, room.name + "/userSessions/" + user), h.bound);
    }
  }

  lemma DepartKeeps(h: Hall, gameSession: string, userSession: string)
    requires HallOk(h)
    ensures var h' := Depart(h, gameSession, userSession);
            HallOk(h') && RoomsEvolve(h, h')
  {
    hide LastSegment, RoomIn, Without, FriendRoom;
    EvolvesItself(h);
    var id := LastSegment(gameSession);
    if id in h.rooms {
      LeavingKeeps(h.granted, id, h.rooms[id], LastSegment(userSession));
      SetRoomKeeps(h, id, Without(h.rooms[id], LastSegment(userSession)), h.bound);
    }
  }

  lemma LeavingKeeps(granted: set<Ticket>, id: string, room: Room, user: string)
    requires RoomIn(granted, id, room)
    ensures RoomIn(granted, id, Without(room, user)) && Evolves(room, Without(room, user))
  {
    hide LastSegment, FriendRoom, PoolKey, Vouched, RoomOk, Records;
    WithoutKeeps(room, user);
    var next := Without(room, user);
    assert FriendTag(next) == FriendTag(room);
    if room.pool.Some? {
      OtherMembersAreSome(room.pool.value.members, user);
      var t :| t in granted && FoundedBy(room, t);
      assert FoundedBy(next, t);
    }
  }

  /** A granted ticket's room is one of the registry's, so its name is clean. */
  lemma AuthorizeKeeps(h: Hall, t: Ticket, uid: string)
    requires HallOk(h) && AuthorizePool(h, t, uid).Ok?
    ensures HallOk(h.(granted := h.granted + {t})) && RoomsEvolve(h, h.(granted := h.granted + {t}))
  {
    var granted := h.granted + {t};
    EvolvesItself(h);
    forall id | id in h.rooms ensures RoomIn(granted, id, h.rooms[id]) {
      MoreGranted(h.granted, granted, id, h.rooms[id]);
    }
    assert NUL !in FriendRoom(t) by {
      if FriendRoom(t) != "" {
        assert RoomIn(h.granted, FriendRoom(t), h.rooms[FriendRoom(t)]);
      }
    }
  }

  lemma MoreGranted(granted: set<Ticket>, more: set<Ticket>, id: string, room: Room)
    requires RoomIn(granted, id, room) && granted <= more
    ensures RoomIn(more, id, room)
  {
    hide LastSegment, FriendRoom, PoolKey, RoomOk, FriendTag, Records;
    if room.pool.Some? {
      var t :| t in granted && FoundedBy(room, t);
      assert Founded(more, room);
      if FriendTag(room) != "" {
        forall m | m in room.pool.value.members ensures Vouched(more, m.definition.user, FriendTag(room)) {
          assert Vouched(granted, m.definition.user, FriendTag(room));
        }
      }
    }
  }

  // ----- steps and runs -----

  lemma StepKeeps(h: Hall, a: Action, configured: int)
    requires HallOk(h) && Enabled(h, a)
    ensures HallOk(Step(h, a, configured)) && RoomsEvolve(h, Step(h, a, configured))
  {
    hide RoomIn, LastSegment, FriendRoom, Complete, Create, JoinRoom, Depart, AuthorizePool, FreshId, GoodUid, UserPath;
    EvolvesItself(h);
    match a
    case Authorize(t, uid) =>
      if AuthorizePool(h, t, uid).Ok? {
        AuthorizeKeeps(h, t, uid);
      }
    case Track(id, uid, gs, user) => TrackKeeps(h, id, uid, gs, user, configured);
    case TrackCreation(id, uid, gs, user) => CreateKeeps(h, id, uid, gs, user, configured);
    case JoinSession(uid, name, password, defs, friends, user) =>
      if JoinRoom(h, uid, name, password, defs, friends, user).Ok? {
        JoinKeeps(h, uid, name, password, defs, friends, user);
      }
    case DepartSession(session, us) => DepartKeeps(h, session, us);
    case _ =>
  }

  ghost function At(run: seq<Action>, configured: int, i: nat): Hall
    requires i <= |run|
  {
    if i == 0 then EMPTY else Step(At(run, configured, i - 1), run[i - 1], configured)
  }

  ghost predicate IsRun(run: seq<Action>, configured: int) {
    forall i :: 0 <= i < |run| ==> Enabled(At(run, configured, i), run[i])
  }

  lemma {:induction false} RunKeeps(run: seq<Action>, configured: int, i: nat)
    requires IsRun(run, configured) && i <= |run|
    ensures HallOk(At(run, configured, i))
  {
    hide Step, Enabled, HallOk;
    if i == 0 {
      EmptyOk();
    } else {
      RunKeeps(run, configured, i - 1);
      StepKeeps(At(run, configured, i - 1), run[i - 1], configured);
    }
  }

  lemma RunStep(run: seq<Action>, configured: int, i: nat)
    requires IsRun(run, configured) && i < |run|
    ensures Enabled(At(run, configured, i), run[i])
    ensures At(run, configured, i + 1) == Step(At(run, configured, i), run[i], configured)
  {
    hide Enabled, Step;
  }

  /** A first caller is matched: the run predicate can be met. */
  lemma FirstCaller(uid: string, configured: int) returns (run: seq<Action>)
    requires GoodUid(uid)
    ensures IsRun(run, configured) && |run| == 3
    ensures var h := At(run, configured, 3);
            "g" in h.rooms && Holds(h.rooms["g"], uid) && h.bound == map["t" := "g"]
  {
    var t := Ticket("", Definition(UserPath(uid), "", map[], ""));
    run := [Authorize(t, uid), StoreTicket("t", t), Track("t", uid, "g", "u")];
    var h1 := EMPTY.(granted := {t});
    var h2 := h1.(tickets := map["t" := t]);
    hide At, Step, Enabled, Complete, Holds;
    PlainTicket(t, uid, configured);
    FirstPlacement(h2, t, uid, configured);
    StartsEmpty(run, configured);
    Unfold(run, configured, 0);
    Unfold(run, configured, 1);
    Unfold(run, configured, 2);
    forall i | 0 <= i < |run| ensures Enabled(At(run, configured, i), run[i]) {
      assert i == 0 || i == 1 || i == 2;
    }
  }

  lemma StartsEmpty(run: seq<Action>, configured: int)
    ensures At(run, configured, 0) == EMPTY
  {
  }

  lemma Unfold(run: seq<Action>, configured: int, i: nat)
    requires i < |run|
    ensures At(run, configured, i + 1) == Step(At(run, configured, i), run[i], configured)
  {
    hide Step;
  }

  lemma PlainTicket(t: Ticket, uid: string, configured: int)
    requires GoodUid(uid) && t == Ticket("", Definition(UserPath(uid), "", map[], ""))
    ensures var h1 := EMPTY.(granted := {t});
            && Enabled(EMPTY, Authorize(t, uid)) && Step(EMPTY, Authorize(t, uid), configured) == h1
            && Enabled(h1, StoreTicket("t", t))
            && Step(h1, StoreTicket("t", t), configured) == h1.(tickets := map["t" := t])
  {
    hide UserPath, LastSegment, ListsUid, Complete;
    assert StringAttribute(t.definition, "FriendGameSessionId") == "";
    assert !FriendConfig(t.config);
    assert {t} == EMPTY.granted + {t};
  }

  lemma FirstPlacement(h: Hall, t: Ticket, uid: string, configured: int)
    requires GoodUid(uid) && t.definition.user == UserPath(uid)
    requires h == EMPTY.(granted := {t}, tickets := map["t" := t])
    ensures Enabled(h, Track("t", uid, "g", "u"))
    ensures var h' := Complete(h, "t", uid, "g", "u", configured).0;
            && h' == Step(h, Track("t", uid, "g", "u"), configured)
            && "g" in h'.rooms && Holds(h'.rooms["g"], uid) && h'.bound == map["t" := "g"]
  {
    hide LastSegment, PoolKey, MatchProperties, Capacity, FriendRoom;
    UserPathNames(uid);
    assert Select(h, t, uid).None?;
    var empty := NewRoom(t, "g", configured);
    var room := AddMember(empty, t.definition, empty.name + "/userSessions/" + "u");
    assert LastSegment(room.pool.value.members[0].definition.user) == uid;
  }

  // ----- agreement -----

  /** Registry agreement: in every reachable state the participant count is the
      length of the session's list, within the maximum; uids are distinct; a
      pooled session's two lists mirror each other in order; and a session is
      active exactly while it has members. */
  lemma RegistryAgrees(run: seq<Action>, configured: int, i: nat, id: string)
    requires IsRun(run, configured) && i <= |run| && id in At(run, configured, i).rooms
    ensures var room := At(run, configured, i).rooms[id];
            && room.count == |room.users| <= room.max
            && DistinctUids(room.users)
            && (room.pool.Some? ==> Mirrors(room.users, room.pool.value.members))
            && (room.active <==> room.users != [])
  {
    hide At, IsRun, DistinctUids, Mirrors;
    RunKeeps(run, configured, i);
    assert RoomIn(At(run, configured, i).granted, id, At(run, configured, i).rooms[id]);
  }

  lemma EvolvesOn(a: Room, b: Room, c: Room)
    requires Evolves(a, b) && Evolves(b, c)
    ensures Evolves(a, c)
  {
  }

  /** A session's maximum, name, tag and pool never change, however many join;
      and a terminated session is never changed at all, so it gains no member
      and never comes back. */
  lemma {:induction false} SessionsEvolve(run: seq<Action>, configured: int, i: nat, j: nat, id: string)
    requires IsRun(run, configured) && i <= j <= |run| && id in At(run, configured, i).rooms
    ensures id in At(run, configured, j).rooms
    ensures Evolves(At(run, configured, i).rooms[id], At(run, configured, j).rooms[id])
    decreases j
  {
    hide At, IsRun, Step, Enabled, HallOk;
    if i < j {
      SessionsEvolve(run, configured, i, j - 1, id);
      RunKeeps(run, configured, j - 1);
      RunStep(run, configured, j - 1);
      StepKeeps(At(run, configured, j - 1), run[j - 1], configured);
      EvolvesOn(At(run, configured, i).rooms[id], At(run, configured, j - 1).rooms[id], At(run, configured, j).rooms[id]);
    }
  }

  // ----- friend pools -----

  /** The ticket's friend room was checked by this action: active, and holding
      the ticket's user. */
  ghost predicate Checked(h: Hall, a: Action, t: Ticket) {
    && a.Authorize? && a.ticket == t
    && (FriendRoom(t) != "" ==>
          && FriendRoom(t) in h.rooms && h.rooms[FriendRoom(t)].active
          && ListsUid(h.rooms[FriendRoom(t)].users, LastSegment(t.definition.user)))
  }

  lemma GrantIsChecked(h: Hall, a: Action, configured: int, t: Ticket)
    requires Enabled(h, a) && t in Step(h, a, configured).granted && t !in h.granted
    ensures Checked(h, a, t)
  {
    hide LastSegment, AddUser, AddMember, FriendRoom, ListsUid, UserPath, FriendConfig;
    match a
    case Authorize(ticket, uid) => UserPathNames(uid);
    case Track(id, uid, gs, user) => GrantsStay(h, id, uid, gs, user, configured);
    case _ =>
  }

  lemma GrantsStay(h: Hall, ticket: string, uid: string, gs: string, user: string, configured: int)
    ensures Complete(h, ticket, uid, gs, user, configured).0.granted == h.granted
  {
    hide AddMember, Select, PoolKey;
  }

  lemma {:induction false} GrantedWasChecked(run: seq<Action>, configured: int, i: nat, t: Ticket) returns (k: nat)
    requires IsRun(run, configured) && i <= |run| && t in At(run, configured, i).granted
    ensures k < i && Checked(At(run, configured, k), run[k], t)
  {
    hide IsRun, Step, Enabled, Checked;
    if t in At(run, configured, i - 1).granted {
      k := GrantedWasChecked(run, configured, i - 1, t);
    } else {
      k := i - 1;
      RunStep(run, configured, k);
      GrantIsChecked(At(run, configured, k), run[k], configured, t);
    }
  }

  predicate MemberOf(h: Hall, id: string, m: Member) {
    id in h.rooms && h.rooms[id].pool.Some? && m in h.rooms[id].pool.value.members
  }

  /** The action places the member: it completes a ticket for the first time,
      with the member's own definition, and binds it to the session. */
  ghost predicate PlacesMember(h: Hall, a: Action, configured: int, id: string, m: Member, t: Ticket) {
    && a.Track? && Get(h.tickets, a.id) == Some(t) && a.id !in h.bound
    && Get(Step(h, a, configured).bound, a.id) == Some(id)
    && m.definition == t.definition
    && !MemberOf(h, id, m) && MemberOf(Step(h, a, configured), id, m)
  }

  /** Nobody enters a friend pool's session but by a ticket for its room. */
  lemma EntryStep(h: Hall, a: Action, configured: int, id: string, m: Member) returns (t: Ticket)
    requires HallOk(h) && Enabled(h, a) && !MemberOf(h, id, m) && MemberOf(Step(h, a, configured), id, m)
    requires FriendTag(Step(h, a, configured).rooms[id]) != ""
    ensures PlacesMember(h, a, configured, id, m, t) && t in h.granted
    ensures FriendRoom(t) == FriendTag(Step(h, a, configured).rooms[id])
  {
    hide LastSegment, FriendRoom, Complete, Create, JoinRoom, Depart, AuthorizePool, FreshId, GoodUid, UserPath, FriendTag,
         RoomIn, AddUser, Without, ListsUid;
    match a
    case Track(ticket, uid, gs, user) =>
      t := TrackEntry(h, ticket, uid, gs, user, configured, id, m);
    case TrackCreation(ticket, uid, gs, user) =>
      CreateEntersNoPool(h, ticket, uid, gs, user, configured, id, m);
      assert false;
    case JoinSession(uid, name, password, defs, friends, user) =>
      JoinEntersNoFriendPool(h, uid, name, password, defs, friends, user, id, m);
      assert false;
    case DepartSession(session, us) =>
      DepartEntersNobody(h, session, us, id, m);
      assert false;
    case _ =>
      assert false;
  }

  lemma CreateEntersNoPool(h: Hall, ticket: string, uid: string, gs: string, user: string, configured: int, id: string,
                           m: Member)
    requires FreshId(h, gs) && MemberOf(Create(h, ticket, uid, gs, user, configured).0, id, m)
    ensures MemberOf(h, id, m)
  {
    hide LastSegment, ListsUid;
  }

  lemma JoinEntersNoFriendPool(h: Hall, uid: string, name: string, password: string, defs: seq<Definition>,
                               friends: set<string>, user: string, id: string, m: Member)
    requires GoodUid(uid)
    requires var j := JoinRoom(h, uid, name, password, defs, friends, user);
             j.Ok? && MemberOf(j.value, id, m) && FriendTag(j.value.rooms[id]) != ""
    ensures MemberOf(h, id, m)
  {
    hide LastSegment, ListsUid, JoinRoom, AddUser, CallerDefinition, FriendTag;
    JoinIs(h, uid, name, password, defs, friends, user);
    var at, d := LastSegment(name), CallerDefinition(defs, uid).value;
    if !ListsUid(h.rooms[at].users, uid) {
      AddedKeepsTag(h.rooms[at], d, h.rooms[at].name + "/userSessions/" + user);
    }
  }

  lemma AddedKeepsTag(room: Room, d: Definition, name: string)
    ensures FriendTag(AddUser(room, d, name)) == FriendTag(room)
  {
  }

  lemma DepartEntersNobody(h: Hall, gameSession: string, userSession: string, id: string, m: Member)
    requires MemberOf(Depart(h, gameSession, userSession), id, m)
    ensures MemberOf(h, id, m)
  {
    hide LastSegment, OtherUsers, OtherMembers;
    var at := LastSegment(gameSession);
    if at in h.rooms && h.rooms[at].pool.Some? {
      OtherMembersAreSome(h.rooms[at].pool.value.members, LastSegment(userSession));
    }
  }

  lemma TrackEntry(h: Hall, ticket: string, uid: string, gs: string, user: string, configured: int, id: string, m: Member)
    returns (t: Ticket)
    requires HallOk(h) && Enabled(h, Track(ticket, uid, gs, user)) && !MemberOf(h, id, m)
    requires var h' := Complete(h, ticket, uid, gs, user, configured).0;
             MemberOf(h', id, m) && FriendTag(h'.rooms[id]) != ""
    ensures var h' := Complete(h, ticket, uid, gs, user, configured).0;
            && Get(h.tickets, ticket) == Some(t) && ticket !in h.bound && Get(h'.bound, ticket) == Some(id)
            && m.definition == t.definition && t in h.granted && FriendRoom(t) == FriendTag(h'.rooms[id])
  {
    hide LastSegment, FriendRoom, PoolKey, NewRoom, RoomIn, UserPath, Complete, ListsUid, FreshId, FriendTag, AddUser,
         AddMember, Vacant, Holds, GoodUid;
    var p := TrackIs(h, ticket, uid, gs, user, configured);
    assert ticket in h.tickets && p != Nothing;
    t := h.tickets[ticket];
    match p
    case Nothing =>
      assert false;
    case Again(_) =>
      assert false;
    case Vacancy(at) =>
      NewcomerIs(h.rooms[at], t.definition, h.rooms[at].name + "/userSessions/" + user);
      TagOfPool(h, t, at);
    case Opens =>
      FreshIsUsable(h, gs);
      NewRoomIs(h.granted, t, gs, configured);
      var empty := NewRoom(t, gs, configured);
      FirstMember(h.granted, t, gs, configured, empty.name + "/userSessions/" + user);
      AddMemberIsAddUser(empty, t.definition, empty.name + "/userSessions/" + user);
      NewcomerIs(empty, t.definition, empty.name + "/userSessions/" + user);
      NewRoomHasNobody(t, gs, configured);
  }

  lemma FreshIsUsable(h: Hall, id: string)
    requires FreshId(h, id)
    ensures NUL !in id && '/' !in id && id !in h.rooms
  {
  }

  lemma NewRoomHasNobody(t: Ticket, id: string, configured: int)
    ensures NewRoom(t, id, configured).pool == Some(Pool(PoolKey(t), []))
  {
  }

  lemma AddMemberIsAddUser(room: Room, d: Definition, name: string)
    requires room.pool.Some?
    ensures AddMember(room, d, name) == AddUser(room, d, name)
  {
  }

  /** A newcomer is the only one to enter. */
  lemma NewcomerIs(room: Room, d: Definition, name: string)
    requires room.pool.Some?
    ensures var next := AddUser(room, d, name);
            && next.pool.Some? && FriendTag(next) == FriendTag(room)
            && forall m :: m in next.pool.value.members && m !in room.pool.value.members ==> m == Member(d, name)
  {
    hide LastSegment;
  }

  lemma TagOfPool(h: Hall, t: Ticket, id: string)
    requires HallOk(h) && t in h.granted && InPool(h.rooms, PoolKey(t), id)
    ensures FriendTag(h.rooms[id]) == FriendRoom(t)
  {
    hide LastSegment, FriendRoom, PoolKey, RoomOk, MembersVouched, Records;
    assert RoomIn(h.granted, id, h.rooms[id]);
    var t0 :| t0 in h.granted && FoundedBy(h.rooms[id], t0);
    KeyDeterminesRoom(t, t0);
  }

  lemma {:induction false} EntryOf(run: seq<Action>, configured: int, i: nat, id: string, m: Member)
    returns (k: nat, t: Ticket)
    requires IsRun(run, configured) && i <= |run| && MemberOf(At(run, configured, i), id, m)
    requires FriendTag(At(run, configured, i).rooms[id]) != ""
    ensures k < i && PlacesMember(At(run, configured, k), run[k], configured, id, m, t)
    ensures t in At(run, configured, k).granted && FriendRoom(t) == FriendTag(At(run, configured, i).rooms[id])
    ensures forall l :: k < l <= i ==> MemberOf(At(run, configured, l), id, m)
    decreases i
  {
    hide IsRun, Step, Enabled, PlacesMember, FriendTag, FriendRoom, HallOk;
    RunStep(run, configured, i - 1);
    RunKeeps(run, configured, i - 1);
    if MemberOf(At(run, configured, i - 1), id, m) {
      SameTag(run, configured, i - 1, id);
      k, t := EntryOf(run, configured, i - 1, id, m);
    } else {
      k := i - 1;
      t := EntryStep(At(run, configured, k), run[k], configured, id, m);
    }
  }

  lemma SameTag(run: seq<Action>, configured: int, i: nat, id: string)
    requires IsRun(run, configured) && i < |run| && id in At(run, configured, i).rooms
    ensures id in At(run, configured, i + 1).rooms
    ensures FriendTag(At(run, configured, i + 1).rooms[id]) == FriendTag(At(run, configured, i).rooms[id])
  {
    hide At, IsRun;
    SessionsEvolve(run, configured, i, i + 1, id);
  }

  /** Friend-pool linkage: every member of a pooled session tagged with a base
      room was placed, and has stayed, by a ticket of its own; and when that
      ticket was authorized its user was a member of the base room, which was
      active. So all members of one pool come from one base room, and nobody
      entered by a direct join. */
  lemma FriendMembersWereInTheRoom(run: seq<Action>, configured: int, i: nat, id: string, m: Member)
    returns (j: nat, k: nat, t: Ticket)
    requires IsRun(run, configured) && i <= |run| && MemberOf(At(run, configured, i), id, m)
    requires FriendTag(At(run, configured, i).rooms[id]) != ""
    ensures j < k < i && Checked(At(run, configured, j), run[j], t)
    ensures PlacesMember(At(run, configured, k), run[k], configured, id, m, t)
    ensures forall l :: k < l <= i ==> MemberOf(At(run, configured, l), id, m)
    ensures FriendRoom(t) == FriendTag(At(run, configured, i).rooms[id])
  {
    hide At, IsRun, Checked, PlacesMember, FriendTag, FriendRoom, MemberOf;
    k, t := EntryOf(run, configured, i, id, m);
    j := GrantedWasChecked(run, configured, k, t);
  }

  // ----- packing -----

  /** Every session of a pool but the last is full. */
  ghost predicate Packed(h: Hall) {
    forall key :: key in h.pools ==> forall i :: 0 <= i < |h.pools[key]| - 1 && h.pools[key][i] in h.rooms ==>
      h.rooms[h.pools[key][i]].count == h.rooms[h.pools[key][i]].max
  }

  ghost predicate AllActive(h: Hall) {
    forall id :: id in h.rooms ==> h.rooms[id].active
  }

  /** Filling a vacancy keeps the packing: only the last of a pool had one. */
  lemma FillKeepsPacked(h: Hall, id: string, room: Room, bound: map<string, string>)
    requires Packed(h) && AllActive(h) && id in h.rooms && h.rooms[id].count < h.rooms[id].max && room.active
    ensures var h' := h.(rooms := h.rooms[id := room], bound := bound);
            Packed(h') && AllActive(h')
  {
    var h' := h.(rooms := h.rooms[id := room], bound := bound);
    forall key, i | key in h'.pools && 0 <= i < |h'.pools[key]| - 1 && h'.pools[key][i] in h'.rooms
      ensures h'.rooms[h'.pools[key][i]].count == h'.rooms[h'.pools[key][i]].max
    {
      assert h.pools[key][i] in h.rooms;
    }
  }

  /** A session opens only behind full ones. */
  lemma OpenKeepsPacked(h: Hall, key: string, gs: string, room: Room, ticket: string)
    requires Packed(h) && AllActive(h) && RoomsOk(h) && PoolsOk(h) && gs !in h.rooms && room.active
    requires forall id :: id in PoolIds(h, key) && id in h.rooms ==> !Vacant(h.rooms[id])
    ensures var h' := h.(pools := h.pools[key := PoolIds(h, key) + [gs]], rooms := h.rooms[gs := room],
                         bound := h.bound[ticket := gs]);
            Packed(h') && AllActive(h')
  {
    hide LastSegment, FriendTag, Founded, MembersVouched, DistinctUids, Mirrors;
    var h' := h.(pools := h.pools[key := PoolIds(h, key) + [gs]], rooms := h.rooms[gs := room],
                 bound := h.bound[ticket := gs]);
    forall k, i | k in h'.pools && 0 <= i < |h'.pools[k]| - 1 && h'.pools[k][i] in h'.rooms
      ensures h'.rooms[h'.pools[k][i]].count == h'.rooms[h'.pools[k][i]].max
    {
      var id := h'.pools[k][i];
      assert InPool(h.rooms, k, h.pools[k][i]);
      if k == key {
        assert id in PoolIds(h, key) && RoomIn(h.granted, id, h.rooms[id]);
      }
    }
  }

  lemma TrackKeepsPacked(h: Hall, ticket: string, uid: string, gs: string, user: string, configured: int)
    requires HallOk(h) && Enabled(h, Track(ticket, uid, gs, user)) && Packed(h) && AllActive(h)
    ensures var h' := Complete(h, ticket, uid, gs, user, configured).0;
            Packed(h') && AllActive(h')
  {
    hide LastSegment, FriendRoom, PoolKey, NewRoom, RoomIn, AddUser, AddMember, UserPath, Complete, ListsUid, Packed,
         AllActive;
    TrackKeeps(h, ticket, uid, gs, user, configured);
    var p := TrackIs(h, ticket, uid, gs, user, configured);
    match p
    case Nothing =>
    case Again(id) => BindingKeepsPacked(h, h.bound[ticket := id]);
    case Vacancy(id) =>
      var t, name := h.tickets[ticket], h.rooms[id].name + "/userSessions/" + user;
      AddedStaysActive(h.rooms[id], t.definition, name);
      FillKeepsPacked(h, id, AddUser(h.rooms[id], t.definition, name), h.bound[ticket := id]);
    case Opens =>
      var t := h.tickets[ticket];
      var empty := NewRoom(t, gs, configured);
      FirstMember(h.granted, t, gs, configured, empty.name + "/userSessions/" + user);
      assert empty.pool.Some?;
      OpenKeepsPacked(h, PoolKey(t), gs, AddMember(empty, t.definition, empty.name + "/userSessions/" + user), ticket);
  }

  lemma BindingKeepsPacked(h: Hall, bound: map<string, string>)
    requires Packed(h) && AllActive(h)
    ensures Packed(h.(bound := bound)) && AllActive(h.(bound := bound))
  {
  }

  lemma AddedStaysActive(room: Room, d: Definition, name: string)
    ensures AddUser(room, d, name).active == room.active
  {
  }

  lemma StepKeepsPacked(h: Hall, a: Action, configured: int)
    requires HallOk(h) && Enabled(h, a) && Packed(h) && AllActive(h) && !a.DepartSession?
    ensures Packed(Step(h, a, configured)) && AllActive(Step(h, a, configured))
  {
    hide RoomIn, LastSegment, FriendRoom, Complete, JoinRoom, Depart, AuthorizePool, GoodUid, UserPath, AddUser,
         ListsUid, FriendTag;
    match a
    case Track(id, uid, gs, user) => TrackKeepsPacked(h, id, uid, gs, user, configured);
    case TrackCreation(id, uid, gs, user) => CreateKeepsPacked(h, id, uid, gs, user, configured);
    case JoinSession(uid, name, password, defs, friends, user) =>
      if JoinRoom(h, uid, name, password, defs, friends, user).Ok? {
        JoinIs(h, uid, name, password, defs, friends, user);
        var id, d := LastSegment(name), CallerDefinition(defs, uid).value;
        var path := h.rooms[id].name + "/userSessions/" + user;
        if !ListsUid(h.rooms[id].users, uid) {
          AddedStaysActive(h.rooms[id], d, path);
          FillKeepsPacked(h, id, AddUser(h.rooms[id], d, path), h.bound);
        }
      }
    case _ =>
  }

  lemma CreateKeepsPacked(h: Hall, ticket: string, uid: string, gs: string, user: string, configured: int)
    requires HallOk(h) && FreshId(h, gs) && Packed(h) && AllActive(h)
    ensures var h' := Create(h, ticket, uid, gs, user, configured).0;
            Packed(h') && AllActive(h')
  {
    hide RoomIn, LastSegment;
    var h' := Create(h, ticket, uid, gs, user, configured).0;
    forall key, i | key in h'.pools && 0 <= i < |h'.pools[key]| - 1 && h'.pools[key][i] in h'.rooms
      ensures h'.rooms[h'.pools[key][i]].count == h'.rooms[h'.pools[key][i]].max
    {
      assert InPool(h.rooms, key, h.pools[key][i]);
    }
  }

  /** Pool packing: in a run without departures every session of a pool except
      the last is full. */
  lemma {:induction false} PoolsArePacked(run: seq<Action>, configured: int, i: nat)
    requires IsRun(run, configured) && i <= |run|
    requires forall k :: 0 <= k < i ==> !run[k].DepartSession?
    ensures Packed(At(run, configured, i)) && AllActive(At(run, configured, i))
  {
    hide IsRun, Step, Enabled, HallOk, Packed, AllActive;
    if i == 0 {
      EmptyPacked();
    } else {
      PoolsArePacked(run, configured, i - 1);
      RunKeeps(run, configured, i - 1);
      RunStep(run, configured, i - 1);
      StepKeepsPacked(At(run, configured, i - 1), run[i - 1], configured);
    }
  }

  lemma EmptyPacked()
    ensures Packed(EMPTY) && AllActive(EMPTY)
  {
  }

  // ----- tickets -----

  /** A creation ticket makes its session once; afterwards it answers only that
      session, and only while the caller is a member of it. */
  lemma CreationIsSettled(h: Hall, ticket: string, uid: string, gs: string, user: string, other: string,
                          configured: int)
    requires ticket in h.creations
    ensures var (h', answer) := Create(h, ticket, uid, gs, user, configured);
            var (h'', again) := Create(h', ticket, uid, other, user, configured);
            && (h.creations[ticket].session != "" ==> h' == h)
            && (answer.Some? && gs != "" && ListsUid(h'.rooms[answer.value].users, uid) ==> h'' == h' && again == answer)
  {
    hide CreatedRoom, ListsUid;
  }

  lemma CreationStep(h: Hall, a: Action, configured: int, ticket: string)
    requires Enabled(h, a) && ticket in h.creations && h.creations[ticket].session != ""
    ensures Get(Step(h, a, configured).creations, ticket) == Get(h.creations, ticket)
  {
    hide AddMember, AddUser, Select, PoolKey, Without, LastSegment, CreatedRoom, NewRoom, AuthorizePool;
    match a
    case Track(id, uid, gs, user) => CreationsApart(h, id, uid, gs, user, configured);
    case _ =>
  }

  lemma CreationsApart(h: Hall, id: string, uid: string, gs: string, user: string, configured: int)
    ensures Complete(h, id, uid, gs, user, configured).0.creations == h.creations
  {
    hide Select, PoolKey, AddMember;
  }

  /** Over any run a completed creation ticket keeps its session, and completing
      it again at any later time changes nothing and answers that session exactly
      to its members. */
  lemma {:induction false} CreationsStaySettled(run: seq<Action>, configured: int, i: nat, j: nat, ticket: string,
                                                uid: string, gs: string, user: string)
    requires IsRun(run, configured) && i <= j <= |run| && ticket in At(run, configured, i).creations
    requires At(run, configured, i).creations[ticket].session != ""
    ensures Get(At(run, configured, j).creations, ticket) == Get(At(run, configured, i).creations, ticket)
    ensures var h, id := At(run, configured, j), At(run, configured, i).creations[ticket].session;
            Create(h, ticket, uid, gs, user, configured)
            == (h, if id in h.rooms && ListsUid(h.rooms[id].users, uid) then Some(id) else None)
    decreases j
  {
    hide At, IsRun, Step, Enabled, ListsUid, CreatedRoom;
    if i < j {
      CreationsStaySettled(run, configured, i, j - 1, ticket, uid, gs, user);
      RunStep(run, configured, j - 1);
      CreationStep(At(run, configured, j - 1), run[j - 1], configured, ticket);
    }
    var c := At(run, configured, j).creations;
    assert Get(c, ticket).Some?;
  }

  /** Tracking a ticket that is bound changes nothing, whatever it answers, and
      answers no other session. */
  lemma BoundTicketIsSettled(h: Hall, ticket: string, uid: string, gs: string, user: string, configured: int)
    requires ticket in h.bound
    ensures var (h', answer) := Complete(h, ticket, uid, gs, user, configured);
            h' == h && (answer.Some? ==> answer.value == h.bound[ticket])
  {
  }

  /** A further ticket of somebody who is in the pool takes no slot: it is bound
      to a session that has the caller already. */
  lemma RepeatedTicketTakesNoSlot(h: Hall, ticket: string, uid: string, id: string, gs: string, user: string,
                                  configured: int)
    requires HallOk(h) && Enabled(h, Track(ticket, uid, gs, user)) && ticket in h.tickets && ticket !in h.bound
    requires id in PoolIds(h, PoolKey(h.tickets[ticket])) && id in h.rooms && Holds(h.rooms[id], uid)
    ensures var (h', answer) := Complete(h, ticket, uid, gs, user, configured);
            && answer.Some? && answer.value in h.rooms && Holds(h.rooms[answer.value], uid)
            && h' == h.(bound := h.bound[ticket := answer.value])
  {
    hide LastSegment, FriendRoom, PoolKey, Holds, NewRoom, RoomIn, UserPath, AddMember;
    var t := h.tickets[ticket];
    FirstHoldingIs(PoolIds(h, PoolKey(t)), h.rooms, uid);
    SelectIs(h, t, uid);
    var found := Select(h, t, uid).value;
    UserPathNames(uid);
    AlreadyIn(h, found, t.definition, uid, h.rooms[found].name + "/userSessions/" + user);
  }

  lemma BindingStep(h: Hall, a: Action, configured: int, ticket: string)
    requires Enabled(h, a) && ticket in h.bound
    ensures Get(Step(h, a, configured).bound, ticket) == Get(h.bound, ticket)
  {
    hide AddMember, AddUser, Select, PoolKey, Without, LastSegment;
    match a
    case Track(id, uid, gs, user) =>
      if id == ticket {
        BoundTicketIsSettled(h, id, uid, gs, user, configured);
      } else {
        OtherTicketsStay(h, id, uid, gs, user, configured, ticket);
      }
    case _ =>
  }

  lemma OtherTicketsStay(h: Hall, id: string, uid: string, gs: string, user: string, configured: int, ticket: string)
    requires id != ticket
    ensures Get(Complete(h, id, uid, gs, user, configured).0.bound, ticket) == Get(h.bound, ticket)
  {
    hide Select, PoolKey, AddMember;
  }

  /** A ticket stays bound to one session for the whole run, even after it is
      cancelled. */
  lemma {:induction false} TicketsStayBound(run: seq<Action>, configured: int, i: nat, j: nat, ticket: string)
    requires IsRun(run, configured) && i <= j <= |run| && ticket in At(run, configured, i).bound
    ensures Get(At(run, configured, j).bound, ticket) == Get(At(run, configured, i).bound, ticket)
    decreases j
  {
    hide At, IsRun, Step, Enabled;
    if i < j {
      TicketsStayBound(run, configured, i, j - 1, ticket);
      RunStep(run, configured, j - 1);
      BindingStep(At(run, configured, j - 1), run[j - 1], configured, ticket);
    }
  }
}
