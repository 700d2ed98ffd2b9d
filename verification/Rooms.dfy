// One game session of the shared registry as a value, and the updates that keep
// its redundant member lists and its counter in step (matchmaking.go,
// addPublicMatchMembers; session_registry.go, depart, sessionHasUID;
// session_service.go, roomVisible and JoinGameSession).

module Rooms {
  import opened Wrappers
  import opened Values
  import opened Text

  const TENANT := "tenants/t-ba973ec6-lp1"

  /** One user as a client describes it. */
  datatype Definition = Definition(user: string, team: string, attributes: Fields, latency: string)

  /** A member as the game session lists it, and as its public pool does. */
  datatype UserSession = UserSession(name: string, user: string, team: string, attributes: Fields, latency: string)
  datatype Member = Member(definition: Definition, userSession: string)

  datatype Pool = Pool(key: string, members: seq<Member>)

  datatype Room = Room(
    name: string,
    users: seq<UserSession>,
    count: int,
    max: int,
    canParticipate: bool,
    isPublic: bool,
    active: bool,
    password: string,
    properties: Fields,
    pool: Option<Pool>)

  function UserPath(uid: string): string {
    TENANT + "/users/" + uid
  }

  predicate ListsUid(users: seq<UserSession>, uid: string) {
    exists i :: 0 <= i < |users| && LastSegment(users[i].user) == uid
  }

  predicate PoolHasUid(members: seq<Member>, uid: string) {
    exists i :: 0 <= i < |members| && LastSegment(members[i].definition.user) == uid
  }

  /** The base room of a friend pool, as the session's properties record it. */
  function FriendTag(room: Room): string {
    StringOf(Get(room.properties, "FriendGameSessionId"))
  }

  function UserOf(d: Definition, name: string): UserSession {
    UserSession(name, d.user, d.team, d.attributes, d.latency)
  }

  // ----- joining and leaving -----

  /** addPublicMatchMembers for one definition: a uid that is there already takes
      no second slot. */
  function AddMember(room: Room, d: Definition, name: string): Room
    requires room.pool.Some?
  {
    var p := room.pool.value;
    if PoolHasUid(p.members, LastSegment(d.user)) then room
    else
      var members := p.members + [Member(d, name)];
      room.(pool := Some(Pool(p.key, members)),
            users := room.users + [UserOf(d, name)],
            max := if room.max < |members| then |members| else room.max,
            count := |members|)
  }

  /** A direct join: through the pool when the session has one. */
  function AddUser(room: Room, d: Definition, name: string): Room {
    if room.pool.Some? then AddMember(room, d, name)
    else room.(users := room.users + [UserOf(d, name)], count := |room.users| + 1)
  }

  function OtherUsers(users: seq<UserSession>, id: string): seq<UserSession> {
    if users == [] then []
    else
      var last := users[|users| - 1];
      OtherUsers(users[..|users| - 1], id) + if LastSegment(last.name) != id then [last] else []
  }

  function OtherMembers(members: seq<Member>, id: string): seq<Member> {
    if members == [] then []
    else
      var last := members[|members| - 1];
      OtherMembers(members[..|members| - 1], id) + if LastSegment(last.userSession) != id then [last] else []
  }

  /** depart: the session without one user session; the last to leave turns it
      into a tombstone. */
  function Without(room: Room, id: string): Room {
    var users := OtherUsers(room.users, id);
    room.(users := users,
          count := |users|,
          pool := if room.pool.None? then None
                  else Some(Pool(room.pool.value.key, OtherMembers(room.pool.value.members, id))),
          canParticipate := room.canParticipate && users != [],
          active := room.active && users != [])
  }

  // ----- what every update keeps -----

  ghost predicate DistinctUids(users: seq<UserSession>) {
    forall i, j :: 0 <= i < j < |users| ==> LastSegment(users[i].user) != LastSegment(users[j].user)
  }

  /** The two member lists agree element by element, in order. */
  ghost predicate Mirrors(users: seq<UserSession>, members: seq<Member>) {
    |users| == |members|
    && forall i :: 0 <= i < |users| ==> users[i] == UserOf(members[i].definition, members[i].userSession)
  }

  ghost predicate ListsOk(room: Room) {
    && room.count == |room.users| <= room.max
    && DistinctUids(room.users)
    && (room.pool.Some? ==> Mirrors(room.users, room.pool.value.members))
  }

  /** A session is active exactly while it has members. */
  ghost predicate RoomOk(room: Room) {
    && ListsOk(room)
    && (room.active <==> room.users != [])
    && (!room.active ==> !room.canParticipate)
  }

  lemma MirrorsKnow(users: seq<UserSession>, members: seq<Member>, uid: string)
    requires Mirrors(users, members)
    ensures ListsUid(users, uid) <==> PoolHasUid(members, uid)
  {
    hide LastSegment;
    if ListsUid(users, uid) {
      var i :| 0 <= i < |users| && LastSegment(users[i].user) == uid;
      assert LastSegment(members[i].definition.user) == uid;
    }
    if PoolHasUid(members, uid) {
      var i :| 0 <= i < |members| && LastSegment(members[i].definition.user) == uid;
      assert LastSegment(users[i].user) == uid;
    }
  }

  /** A newcomer keeps the lists in step, never grows the maximum while there is
      a vacancy, and leaves the session active. */
  lemma AddUserKeeps(room: Room, d: Definition, name: string)
    requires ListsOk(room) && room.active && room.count < room.max
    requires !ListsUid(room.users, LastSegment(d.user))
    ensures var next := AddUser(room, d, name);
            && next.users == room.users + [UserOf(d, name)] && next.max == room.max
            && RoomOk(next)
            && next == room.(users := next.users, count := next.count, pool := next.pool)
            && next.pool == if room.pool.None? then None
                            else Some(Pool(room.pool.value.key, room.pool.value.members + [Member(d, name)]))
  {
    hide LastSegment;
    if room.pool.Some? {
      MirrorsKnow(room.users, room.pool.value.members, LastSegment(d.user));
    }
  }

  lemma {:induction false} OthersAreSome(users: seq<UserSession>, id: string)
    ensures |OtherUsers(users, id)| <= |users|
    ensures forall u :: u in OtherUsers(users, id) <==> u in users && LastSegment(u.name) != id
    decreases |users|
  {
    hide LastSegment;
    if users != [] {
      var front, last := users[..|users| - 1], users[|users| - 1];
      OthersAreSome(front, id);
      assert users == front + [last];
    }
  }

  lemma {:induction false} OthersDistinct(users: seq<UserSession>, id: string)
    requires DistinctUids(users)
    ensures DistinctUids(OtherUsers(users, id))
    decreases |users|
  {
    hide LastSegment;
    if users != [] {
      var front, last := users[..|users| - 1], users[|users| - 1];
      OthersDistinct(front, id);
      OthersAreSome(front, id);
      var others := OtherUsers(front, id);
      forall i | 0 <= i < |others| ensures LastSegment(others[i].user) != LastSegment(last.user) {
        assert others[i] in front;
      }
    }
  }

  lemma {:induction false} OthersMirror(users: seq<UserSession>, members: seq<Member>, id: string)
    requires Mirrors(users, members)
    ensures Mirrors(OtherUsers(users, id), OtherMembers(members, id))
    decreases |users|
  {
    hide LastSegment;
    if users != [] {
      OthersMirror(users[..|users| - 1], members[..|members| - 1], id);
    }
  }

  lemma {:induction false} OtherMembersAreSome(members: seq<Member>, id: string)
    ensures forall m :: m in OtherMembers(members, id) ==> m in members
    decreases |members|
  {
    hide LastSegment;
    if members != [] {
      OtherMembersAreSome(members[..|members| - 1], id);
    }
  }

  /** A departure keeps both lists in step; a tombstone stays what it is. */
  lemma WithoutKeeps(room: Room, id: string)
    requires RoomOk(room)
    ensures RoomOk(Without(room, id))
    ensures !room.active ==> Without(room, id) == room
    ensures forall u :: u in Without(room, id).users <==> u in room.users && LastSegment(u.name) != id
  {
    OthersAreSome(room.users, id);
    OthersDistinct(room.users, id);
    if room.pool.Some? {
      OthersMirror(room.users, room.pool.value.members, id);
    }
  }

  // ----- visibility -----

  predicate SomeFriend(users: seq<UserSession>, friends: set<string>) {
    exists i :: 0 <= i < |users| && LastSegment(users[i].user) in friends
  }

  predicate RoomVisible(room: Option<Room>, uid: string, friends: set<string>) {
    && room.Some? && room.value.active
    && (ListsUid(room.value.users, uid)
        || (FriendTag(room.value) == "" && (room.value.isPublic || SomeFriend(room.value.users, friends))))
  }
}
