// The matchmaker and the session registry as a value and its critical sections
// (matchmaking.go, session_service.go, session_registry.go), with what every
// run of them keeps.

module Registry {
  import opened Wrappers
  import opened Values
  import opened Text
  import opened Rooms

  /** A matchmaking ticket of one caller; its user path names the caller. */
  datatype Ticket = Ticket(config: string, definition: Definition)

  /** What a creation ticket asks its session to be. */
  datatype Wish = Wish(max: int, password: string, properties: Fields)

  /** session is the id it was completed with, or "" while it is pending. */
  datatype Creation = Creation(config: string, definition: Definition, wish: Option<Wish>, session: string)

  datatype Hall = Hall(
    rooms: map<string, Room>,
    pools: map<string, seq<string>>,
    tickets: map<string, Ticket>,
    bound: map<string, string>,
    creations: map<string, Creation>,
    /** Tickets whose friend room was checked. */
    granted: set<Ticket>)

  const EMPTY := Hall(map[], map[], map[], map[], map[], {})

  // ----- requests -----

  function ConcreteConfig(config: string): string {
    if config == "" then "" else TENANT + "/matchmakingConfigs/" + LastSegment(config)
  }

  /** validateCallerDefinitions, and the normalization that follows it. */
  function CallerDefinition(defs: seq<Definition>, uid: string): Result<Definition> {
    if |defs| != 1 then Err(InvalidArgument)
    else
      var u := LastSegment(defs[0].user);
      if u != "" && u != "current" && u != uid then Err(PermissionDenied)
      else Ok(defs[0].(user := UserPath(uid)))
  }

  function StringAttribute(d: Definition, name: string): string {
    StringOf(Get(d.attributes, name))
  }

  function FriendRoom(t: Ticket): string {
    var v := StringAttribute(t.definition, "FriendGameSessionId");
    if v != "" then LastSegment(v) else ""
  }

  const NUL := 0 as char

  function PoolKey(t: Ticket): string {
    t.config + [NUL] + StringAttribute(t.definition, "MatchingKey") + [NUL] + FriendRoom(t)
  }

  predicate FriendConfig(config: string) {
    "Friend" <= LastSegment(config)
  }

  /** publicMatchCapacity under a configured limit, 0 when there is none. */
  function Capacity(config: string, configured: int): (n: int)
    ensures n > 0
  {
    var c := LastSegment(config);
    if configured > 0 then configured
    else if "WorldMapMatch" <= c || "FriendWorldMapMatch" <= c || "FriendMatch" <= c then 12
    else 4
  }

  /** authorizeFriendPool. */
  function AuthorizePool(h: Hall, t: Ticket, uid: string): Result<()> {
    var room := FriendRoom(t);
    if !FriendConfig(t.config) then if room != "" then Err(InvalidArgument) else Ok(())
    else if room == "" then Err(InvalidArgument)
    else if room !in h.rooms || !h.rooms[room].active then Err(NotFound)
    else if !ListsUid(h.rooms[room].users, uid) then Err(PermissionDenied)
    else Ok(())
  }

  // ----- public matching -----

  predicate Vacant(room: Room) {
    room.active && room.count + 1 <= room.max
  }

  predicate Holds(room: Room, uid: string) {
    room.active && room.pool.Some? && PoolHasUid(room.pool.value.members, uid)
  }

  /** The first session of the pool that has the caller. */
  function FirstHolding(ids: seq<string>, rooms: map<string, Room>, uid: string): Option<string> {
    if ids == [] then None
    else
      var front := FirstHolding(ids[..|ids| - 1], rooms, uid);
      var last := ids[|ids| - 1];
      if front.None? && last in rooms && Holds(rooms[last], uid) then Some(last) else front
  }

  /** The first session of the pool with a vacancy. */
  function FirstVacant(ids: seq<string>, rooms: map<string, Room>): Option<string> {
    if ids == [] then None
    else
      var front := FirstVacant(ids[..|ids| - 1], rooms);
      var last := ids[|ids| - 1];
      if front.None? && last in rooms && Vacant(rooms[last]) then Some(last) else front
  }

  function PoolIds(h: Hall, key: string): seq<string> {
    if key in h.pools then h.pools[key] else []
  }

  function MatchProperties(t: Ticket): Fields {
    var base := map["_BaseConfigName" := String(LastSegment(t.config)), "_AliasSuffix" := String("")];
    var key := StringAttribute(t.definition, "MatchingKey");
    var keyed := if key != "" then base["MatchingKey" := String(key)] else base;
    if FriendRoom(t) != "" then keyed["FriendGameSessionId" := String(FriendRoom(t))] else keyed
  }

  /** newPublicMatchSessionLocked: active, and empty until its first member is
      added in the same critical section. */
  function NewRoom(t: Ticket, id: string, configured: int): Room {
    Room(TENANT + "/gameSessions/" + id, [], 0, Capacity(t.config, configured), true, FriendRoom(t) == "", true, "",
         MatchProperties(t), Some(Pool(PoolKey(t), [])))
  }

  function Select(h: Hall, t: Ticket, uid: string): Option<string> {
    var ids := PoolIds(h, PoolKey(t));
    var held := FirstHolding(ids, h.rooms, uid);
    if held.Some? then held else FirstVacant(ids, h.rooms)
  }

  /** Bind a ticket to a session and add its user there. */
  function Place(h: Hall, ticket: string, t: Ticket, id: string, room: Room, user: string): Hall
    requires room.pool.Some?
  {
    h.(rooms := h.rooms[id := AddMember(room, t.definition, room.name + "/userSessions/" + user)],
       bound := h.bound[ticket := id])
  }

  /** completeMatchmakingTicket; `gs` and `user` name a new session and a new
      user session. The answer is the session the ticket is bound to. */
  function Complete(h: Hall, ticket: string, uid: string, gs: string, user: string, configured: int)
    : (Hall, Option<string>)
  {
    if ticket !in h.tickets then (h, None)
    else if ticket in h.bound then
      var id := h.bound[ticket];
      if id in h.rooms && Holds(h.rooms[id], uid) then (h, Some(id)) else (h, None)
    else
      var t := h.tickets[ticket];
      var found := Select(h, t, uid);
      if found.Some? then
        var id := found.value;
        if id in h.rooms && h.rooms[id].pool.Some? then (Place(h, ticket, t, id, h.rooms[id], user), found)
        else (h, None)
      else
        var key := PoolKey(t);
        var grown := h.(pools := h.pools[key := PoolIds(h, key) + [gs]]);
        (Place(grown, ticket, t, gs, NewRoom(t, gs, configured), user), Some(gs))
  }

  // ----- created sessions -----

  function CreatedRoom(c: Creation, id: string, user: string, configured: int): Option<Room> {
    var wish := if c.wish.Some? then c.wish.value else Wish(0, "", map[]);
    var max := if wish.max == 0 then Capacity(c.config, configured) else wish.max;
    if max < 1 || max > 64 then None
    else
      var name := TENANT + "/gameSessions/" + id;
      Some(Room(name, [UserOf(c.definition, name + "/userSessions/" + user)], 1, max, true,
                !FriendConfig(c.config) && wish.password == "", true, wish.password,
                wish.properties["_BaseConfigName" := String(LastSegment(c.config))]["_AliasSuffix" := String("")], None))
  }

  /** completeGameSessionCreationTicket. */
  function Create(h: Hall, ticket: string, uid: string, gs: string, user: string, configured: int)
    : (Hall, Option<string>)
  {
    if ticket !in h.creations then (h, None)
    else
      var c := h.creations[ticket];
      if c.session != "" then
        if c.session in h.rooms && ListsUid(h.rooms[c.session].users, uid) then (h, Some(c.session)) else (h, None)
      else
        var room := CreatedRoom(c, gs, user, configured);
        if room.None? then (h, None)
        else (h.(rooms := h.rooms[gs := room.value], creations := h.creations[ticket := c.(session := gs)]),
              Some(gs))
  }

  // ----- joining and leaving -----

  predicate ValidSessionName(name: string) {
    var own, current := TENANT + "/gameSessions/", "tenants/current/gameSessions/";
    var id := if own <= name then name[|own|..] else if current <= name then name[|current|..] else "";
    id != "" && id != "." && id != ".." && '/' !in id
  }

  /** Who may enter; true for somebody who is in already. */
  function Admission(room: Option<Room>, uid: string, password: string, friends: set<string>): Result<bool> {
    if !RoomVisible(room, uid, friends) then Err(NotFound)
    else if ListsUid(room.value.users, uid) then Ok(true)
    else if room.value.password != "" && room.value.password != password then Err(PermissionDenied)
    else if !room.value.canParticipate || room.value.count >= room.value.max then Err(ResourceExhausted)
    else Ok(false)
  }

  /** JoinGameSession. */
  function JoinRoom(h: Hall, uid: string, name: string, password: string, defs: seq<Definition>, friends: set<string>,
                    user: string): Result<Hall>
  {
    if !ValidSessionName(name) then Err(InvalidArgument)
    else
      var d :- CallerDefinition(defs, uid);
      var id := LastSegment(name);
      var present :- Admission(Get(h.rooms, id), uid, password, friends);
      if present || id !in h.rooms then Ok(h)
      else Ok(h.(rooms := h.rooms[id := AddUser(h.rooms[id], d, h.rooms[id].name + "/userSessions/" + user)]))
  }

  function Depart(h: Hall, gameSession: string, userSession: string): Hall {
    var id := LastSegment(gameSession);
    if id !in h.rooms then h
    else h.(rooms := h.rooms[id := Without(h.rooms[id], LastSegment(userSession))])
  }

  // ----- the machine -----

  datatype Action =
    | Authorize(ticket: Ticket, uid: string)
    | StoreTicket(id: string, ticket: Ticket)
    | Cancel(id: string)
    | Track(id: string, uid: string, gs: string, user: string)
    | StoreCreation(id: string, creation: Creation)
    | TrackCreation(id: string, uid: string, gs: string, user: string)
    | JoinSession(uid: string, name: string, password: string, defs: seq<Definition>, friends: set<string>, user: string)
    | DepartSession(gameSession: string, userSession: string)

  function Step(h: Hall, a: Action, configured: int): Hall {
    match a
    case Authorize(t, uid) => if AuthorizePool(h, t, uid).Ok? then h.(granted := h.granted + {t}) else h
    case StoreTicket(id, t) => h.(tickets := h.tickets[id := t])
    case Cancel(id) => h.(tickets := h.tickets - {id})
    case Track(id, uid, gs, user) => Complete(h, id, uid, gs, user, configured).0
    case StoreCreation(id, c) => h.(creations := h.creations[id := c])
    case TrackCreation(id, uid, gs, user) => Create(h, id, uid, gs, user, configured).0
    case JoinSession(uid, name, password, defs, friends, user) =>
      var r := JoinRoom(h, uid, name, password, defs, friends, user);
      if r.Ok? then r.value else h
    case DepartSession(session, us) => Depart(h, session, us)
  }

  predicate GoodUid(uid: string) {
    uid != "" && '/' !in uid
  }

  /** A name the server makes up: unused, one path segment, no NUL. */
  predicate FreshId(h: Hall, id: string) {
    id !in h.rooms && id != "" && '/' !in id && NUL !in id
  }

  ghost predicate Enabled(h: Hall, a: Action) {
    match a
    case Authorize(t, uid) => GoodUid(uid) && t.definition.user == UserPath(uid)
    case StoreTicket(id, t) => t in h.granted && id !in h.tickets && id !in h.bound
    case Cancel(_) => true
    case Track(id, uid, gs, _) =>
      GoodUid(uid) && FreshId(h, gs) && (id in h.tickets ==> h.tickets[id].definition.user == UserPath(uid))
    case StoreCreation(id, c) =>
      c.session == "" && id !in h.creations && exists uid :: GoodUid(uid) && c.definition.user == UserPath(uid)
    case TrackCreation(_, uid, gs, _) => GoodUid(uid) && FreshId(h, gs)
    case JoinSession(uid, _, _, _, _, _) => GoodUid(uid)
    case DepartSession(_, _) => true
  }
}
