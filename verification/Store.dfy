// The Gamesync store as a value, its steps, and the invariant they keep
// (gamesync_store.go: initializeFixedData, WriteDocuments, expireSession;
// gamesync.go: rememberSession, observedUserSessionDocument).

module Store {
  import opened Wrappers
  import opened Values
  import opened Text
  import opened Documents
  import opened Batch

  datatype Store = Store(
    sessions: map<string, Session>,
    nextSequence: map<string, int64>,
    documents: map<string, Docs>,
    owners: map<string, Owners>,
    globals: map<string, Fields>,
    deferments: map<string, map<string, Deferment>>)

  const EMPTY := Store(map[], map[], map[], map[], map[], map[])

  /** An inner map, which Go reads as empty when it was never made. */
  function Of<V>(m: map<string, map<string, V>>, key: string): map<string, V> {
    if key in m then m[key] else map[]
  }

  function Joined(st: Store, game: string): int64 {
    if game in st.nextSequence then st.nextSequence[game] else 0
  }

  // ----- fixed data -----

  datatype GameInfo = GameInfo(name: string, host: string, port: int64, config: string, maxParticipants: int64)

  function FixedDocument(g: GameInfo, seed: seq<int>, now: Time): Document {
    Document(FIXED,
             map["gsid" := String(LastSegment(g.name)), "addr" := String(g.host), "p" := Integer(g.port),
                 "mcn" := String(g.config), "maxu" := Integer(g.maxParticipants), "rs" := Bytes(seed)],
             now, now)
  }

  /** The seed policy refuses a length outside 16..64, once it is asked for. */
  predicate SeedRefused(st: Store, g: GameInfo, seed: seq<int>) {
    FIXED !in Of(st.documents, g.name) && (|seed| < 16 || |seed| > 64)
  }

  /** The fixed data is made once; afterwards, and when the seed is refused, only
      the empty collection is left behind. */
  function InitFixed(st: Store, g: GameInfo, seed: seq<int>, now: Time): Store {
    var docs := Of(st.documents, g.name);
    if FIXED in docs || SeedRefused(st, g, seed) then st.(documents := st.documents[g.name := docs])
    else PutDocument(st, g.name, FIXED, FixedDocument(g, seed, now))
  }

  function PutDocument(st: Store, game: string, name: string, d: Document): Store {
    st.(documents := st.documents[game := Of(st.documents, game)[name := d]])
  }

  // ----- joining -----

  /** What IssueToken passes on: the signed identity and the member's data. */
  datatype Binding = Binding(
    uid: string,
    gameSession: string,
    userSession: string,
    team: string,
    attributes: Option<Fields>,
    latency: string)

  const NO_LATENCY := "{\"latencies\":{}}"

  function Bind(b: Binding, sequence: int64, connection: int64, createdAt: Time): Session {
    Session(b.uid, b.gameSession, b.userSession, b.team, sequence, connection,
            if b.attributes.Some? then b.attributes.value else map[],
            if b.latency == "" then NO_LATENCY else b.latency,
            createdAt)
  }

  function TrimSlashes(s: string): string
    decreases |s|
  {
    if s != "" && s[0] == '/' then TrimSlashes(s[1..])
    else if s != "" && s[|s| - 1] == '/' then TrimSlashes(s[..|s| - 1])
    else s
  }

  function ObservedUserDocument(name: string, s: Session): Option<Document> {
    var parts := Split(TrimSlashes(name), '/');
    if |parts| != 3 || parts[0] != "docs" || parts[1] != "__us" || parts[2] != SessionId(s) then None
    else Some(UserDocument(s).(name := name))
  }

  /** The user document is recognized under the name the server gives it. */
  lemma UserDocumentRecognized(s: Session)
    requires SessionId(s) != ""
    ensures ObservedUserDocument(UsName(SessionId(s)), s) == Some(UserDocument(s))
  {
    hide TrimSlashes, Split, LastSegment;
    var id := SessionId(s);
    TrimmedUsName(id);
    UsNamePath(id);
  }

  lemma TrimmedUsName(id: string)
    requires id != "" && '/' !in id
    ensures TrimSlashes(UsName(id)) == UsName(id)
  {
    var name := UsName(id);
    assert name[0] == 'd' && name[|name| - 1] == id[|id| - 1];
    assert id[|id| - 1] in id;
  }

  /** The int64 counter of a game session's joins, which wraps around. */
  function Next(n: int64): int64 {
    if n == MAX_INT64 then MIN_INT64 else n + 1
  }

  /** The join does not wrap the counter around. */
  predicate Countable(st: Store, b: Binding) {
    LastSegment(b.userSession) in st.sessions || Joined(st, b.gameSession) < MAX_INT64
  }

  /** The session rememberSession stores: a known id keeps its sequence,
      connection and creation time, a new one takes the next sequence. */
  function Remembered(st: Store, b: Binding, now: Time): Session {
    var id := LastSegment(b.userSession);
    if id in st.sessions then
      var p := st.sessions[id];
      Bind(b, p.sequence, p.connection, p.createdAt)
    else
      var n := Next(Joined(st, b.gameSession));
      Bind(b, n, n, now)
  }

  function Remember(st: Store, b: Binding, now: Time): Store {
    var id, game := LastSegment(b.userSession), b.gameSession;
    var s := Remembered(st, b, now);
    PutDocument(st.(sessions := st.sessions[id := s],
                    nextSequence := if id in st.sessions then st.nextSequence
                                    else st.nextSequence[game := Next(Joined(st, game))]),
                game, UsName(id), UserDocument(s))
  }

  /** A binding the server may remember: its id is not empty, and a known id
      comes back with the data it had. */
  ghost predicate Reissues(st: Store, b: Binding, now: Time) {
    var id := LastSegment(b.userSession);
    && id != ""
    && (id in st.sessions ==> SameBinding(Remembered(st, b, now), st.sessions[id]))
  }

  // ----- writing -----

  predicate DefermentBelongs(name: string, s: Session) {
    "userSessions/current/deferments/" <= name || TrimEnd(s.userSession) + "/deferments/" <= name
  }

  /** strings.TrimSuffix(s, "/"). */
  function TrimEnd(s: string): string {
    if s != "" && s[|s| - 1] == '/' then s[..|s| - 1] else s
  }

  /** Every write of a deferment must be a delete the session may do now. */
  function CheckDeferred(c: Context, writes: seq<WriteOp>, docs: Docs, owners: Owners): Result<()> {
    if writes == [] then Ok(())
    else
      var _ :- CheckDeferred(c, writes[..|writes| - 1], docs, owners);
      var op := writes[|writes| - 1];
      if !op.Delete? then Err(Unimplemented)
      else WritableDocument(op.name, None, c.session, owners, op.name in docs, c.sessions)
  }

  function ApplyDeferment(c: Context, op: DefermentOp, defs: map<string, Deferment>, docs: Docs, owners: Owners)
    : Result<map<string, Deferment>>
  {
    match op
    case DeleteDeferment(name) =>
      if !DefermentBelongs(name, c.session) then Err(PermissionDenied) else Ok(defs - {name})
    case UpdateDeferment(Some(d)) =>
      if !DefermentBelongs(d.name, c.session) || d.writes == [] then Err(InvalidArgument)
      else
        var _ :- CheckDeferred(c, d.writes, docs, owners);
        Ok(defs[d.name := d])
    case _ => Err(InvalidArgument)
  }

  function ApplyDeferments(c: Context, ops: seq<DefermentOp>, defs: map<string, Deferment>, docs: Docs, owners: Owners)
    : Result<map<string, Deferment>>
  {
    if ops == [] then Ok(defs)
    else
      var front :- ApplyDeferments(c, ops[..|ops| - 1], defs, docs, owners);
      ApplyDeferment(c, ops[|ops| - 1], front, docs, owners)
  }

  datatype Request = Request(session: Session, ops: seq<WriteOp>, deferments: seq<DefermentOp>, now: Time)

  datatype Committed = Committed(store: Store, results: seq<WriteResult>, changed: set<string>)

  function WorkOn(st: Store, game: string): Work {
    Work(Of(st.documents, game), Of(st.owners, game), Of(st.globals, game))
  }

  function ContextOf(st: Store, r: Request): Context {
    Context(r.session, st.sessions, r.now)
  }

  function Install(st: Store, r: Request, w: Work, defs: map<string, Deferment>): Store {
    var game := r.session.gameSession;
    st.(documents := st.documents[game := w.docs],
        owners := st.owners[game := w.owners],
        globals := st.globals[game := w.globals],
        deferments := st.deferments[SessionId(r.session) := defs])
  }

  /** WriteDocuments up to the release of the store lock. */
  function Commit(st: Store, r: Request): Result<Committed> {
    var id, game := SessionId(r.session), r.session.gameSession;
    if |r.ops| + |r.deferments| > 256 then Err(ResourceExhausted)
    else if id !in st.sessions then Err(Unauthenticated)
    else
      var c := ContextOf(st, r);
      var (w, results) :- ApplyOps(c, r.ops, WorkOn(st, game));
      var defs :- ApplyDeferments(c, r.deferments, Of(st.deferments, id), w.docs, w.owners);
      Ok(Committed(Install(st, r, w, defs), results, NamesOf(r.ops)))
  }

  // ----- expiry -----

  /** The documents the stored deferments name, that the session owns and whose
      precondition still holds. */
  function Deferred(st: Store, id: string, game: string): set<string> {
    set k, i |
      && k in Of(st.deferments, id)
      && 0 <= i < |Of(st.deferments, id)[k].writes|
      && DeferredDelete(st, id, game, Of(st.deferments, id)[k].writes[i])
      :: Of(st.deferments, id)[k].writes[i].name
  }

  predicate DeferredDelete(st: Store, id: string, game: string, op: WriteOp)
    ensures DeferredDelete(st, id, game, op) ==> op.Delete?
  {
    && op.Delete?
    && OwnerOf(Of(st.owners, game), op.name) == id
    && CheckPrecondition(op.current, Get(Of(st.documents, game), op.name)).Ok?
  }

  function Owned(st: Store, id: string, game: string): set<string> {
    set n | n in Of(st.owners, game) && Of(st.owners, game)[n] == id
  }

  function Removed(st: Store, id: string): set<string>
    requires id in st.sessions
  {
    var game := st.sessions[id].gameSession;
    {UsName(id)} + Deferred(st, id, game) + Owned(st, id, game)
  }

  function Without<V>(m: map<string, map<string, V>>, key: string, names: set<string>): map<string, map<string, V>> {
    if key in m then m[key := m[key] - names] else m
  }

  function Expire(st: Store, id: string): Store
    requires id in st.sessions
  {
    var game, removed := st.sessions[id].gameSession, Removed(st, id);
    st.(sessions := st.sessions - {id},
        documents := Without(st.documents, game, removed),
        owners := Without(st.owners, game, removed),
        deferments := st.deferments - {id})
  }

  // ----- the invariant -----

  ghost predicate GameOkIn(st: Store, game: string) {
    GameOk(game, st.sessions, Of(st.documents, game), Of(st.owners, game))
  }

  /** Whoever joined a game session found its fixed data in place. */
  ghost predicate SequencesOk(st: Store) {
    && (forall id :: id in st.sessions ==> st.sessions[id].sequence <= Joined(st, st.sessions[id].gameSession))
    && (forall game :: game in st.nextSequence ==> st.nextSequence[game] >= 0)
    && (forall game :: Joined(st, game) > 0 ==> FIXED in Of(st.documents, game))
  }

  ghost predicate StoreOk(st: Store) {
    && RosterOk(st.sessions)
    && SequencesOk(st)
    && forall game :: GameOkIn(st, game)
  }

  lemma EmptyOk()
    ensures StoreOk(EMPTY)
  {
  }

  lemma NamedDocuments(st: Store, game: string)
    requires StoreOk(st)
    ensures forall n :: n in Of(st.documents, game) ==> Of(st.documents, game)[n].name == n
  {
    assert GameOkIn(st, game);
  }

  /** The members of a game session are the same in both rosters. */
  ghost predicate SameMembers(game: string, a: map<string, Session>, b: map<string, Session>) {
    && (forall id :: id in a && a[id].gameSession == game ==>
          id in b && b[id].gameSession == game && SameBinding(a[id], b[id]))
    && (forall id :: id in b && b[id].gameSession == game ==> id in a && a[id].gameSession == game)
  }

  lemma SameMembersKeepGame(game: string, a: map<string, Session>, b: map<string, Session>, docs: Docs, owners: Owners)
    requires SameMembers(game, a, b) && GameOk(game, a, docs, owners)
    ensures GameOk(game, b, docs, owners)
  {
    forall n | n in owners
      ensures owners[n] in b && b[owners[n]].gameSession == game && Attributed(n, docs[n].fields, b[owners[n]])
    {
      AttributedBinding(n, docs[n].fields, a[owners[n]], b[owners[n]]);
    }
    forall n | n in docs && US_PREFIX <= n
      ensures exists id :: id in b && b[id].gameSession == game && n == UsName(id)
    {
      var id :| id in a && a[id].gameSession == game && n == UsName(id);
      assert id in b;
    }
  }

  lemma InitFixedKeeps(st: Store, g: GameInfo, seed: seq<int>, now: Time)
    requires StoreOk(st)
    ensures StoreOk(InitFixed(st, g, seed, now))
    ensures !SeedRefused(st, g, seed) ==> FIXED in Of(InitFixed(st, g, seed, now).documents, g.name)
  {
    var next := InitFixed(st, g, seed, now);
    InitFixedSequences(st, g, seed, now);
    forall game ensures GameOkIn(next, game) {
      InitFixedGame(st, g, seed, now, game);
    }
  }

  lemma InitFixedSequences(st: Store, g: GameInfo, seed: seq<int>, now: Time)
    requires SequencesOk(st)
    ensures SequencesOk(InitFixed(st, g, seed, now))
    ensures !SeedRefused(st, g, seed) ==> FIXED in Of(InitFixed(st, g, seed, now).documents, g.name)
  {
    var next := InitFixed(st, g, seed, now);
    InitFixedFrame(st, g, seed, now, g.name);
    forall game | Joined(next, game) > 0 ensures FIXED in Of(next.documents, game) {
      assert Joined(st, game) > 0 && FIXED in Of(st.documents, game);
      InitFixedFrame(st, g, seed, now, game);
    }
  }

  lemma InitFixedGame(st: Store, g: GameInfo, seed: seq<int>, now: Time, game: string)
    requires GameOkIn(st, game)
    ensures GameOkIn(InitFixed(st, g, seed, now), game)
  {
    var docs, docs' := Of(st.documents, game), Of(InitFixed(st, g, seed, now).documents, game);
    InitFixedFrame(st, g, seed, now, game);
    FixedKeepsGame(game, st.sessions, docs, Of(st.owners, game), docs');
  }

  lemma FixedKeepsGame(game: string, sessions: map<string, Session>, docs: Docs, owners: Owners, docs': Docs)
    requires GameOk(game, sessions, docs, owners)
    requires InitFixedDocs(docs, docs')
    ensures GameOk(game, sessions, docs', owners)
  {
    FixedKeepsOwners(game, sessions, docs, owners, docs');
    FixedKeepsNames(docs, owners, docs');
    FixedKeepsUsers(game, sessions, docs, docs');
  }

  lemma FixedKeepsOwners(game: string, sessions: map<string, Session>, docs: Docs, owners: Owners, docs': Docs)
    requires OwnersOk(game, sessions, docs, owners) && InitFixedDocs(docs, docs')
    ensures OwnersOk(game, sessions, docs', owners)
  {
    forall n | n in owners ensures n in docs' && docs'[n] == docs[n] {
      ClientNamesOfOwners(game, sessions, docs, owners, n);
      assert Get(docs', n) == Get(docs, n);
    }
  }

  lemma FixedKeepsNames(docs: Docs, owners: Owners, docs': Docs)
    requires NamesOk(docs, owners) && InitFixedDocs(docs, docs')
    ensures NamesOk(docs', owners)
  {
    forall n | n in docs' ensures docs'[n].name == n && (n in owners || n == FIXED || US_PREFIX <= n) {
      assert n != FIXED ==> Get(docs', n) == Get(docs, n);
    }
  }

  lemma FixedKeepsUsers(game: string, sessions: map<string, Session>, docs: Docs, docs': Docs)
    requires UsersOk(game, sessions, docs) && InitFixedDocs(docs, docs')
    ensures UsersOk(game, sessions, docs')
  {
    FixedPath();
    forall id | id in sessions && sessions[id].gameSession == game
      ensures Get(docs', UsName(id)) == Some(UserDocument(sessions[id]))
    {
      UsNameInjective(id, id);
      assert UsName(id) != FIXED;
    }
    forall n | n in docs' && US_PREFIX <= n ensures n in docs {
      assert Get(docs', n) == Get(docs, n);
    }
  }

  lemma ClientNamesOfOwners(game: string, sessions: map<string, Session>, docs: Docs, owners: Owners, n: string)
    requires OwnersOk(game, sessions, docs, owners) && n in owners
    ensures ClientName(n) && n != FIXED && !(US_PREFIX <= n)
  {
    ClientNamesApart(n);
  }

  /** A join keeps the invariant exactly as long as the counter does not wrap
      around. */
  lemma RememberKeeps(st: Store, b: Binding, now: Time)
    requires StoreOk(st) && Reissues(st, b, now) && FIXED in Of(st.documents, b.gameSession)
    ensures StoreOk(Remember(st, b, now)) <==> Countable(st, b)
  {
    hide Remember, Reissues, GameOkIn;
    var next := Remember(st, b, now);
    if Countable(st, b) {
      RememberRoster(st, b, now);
      RememberSequences(st, b, now);
      forall game ensures GameOkIn(next, game) {
        RememberGame(st, b, now, game);
      }
    } else {
      RememberCounter(st, b, now);
      assert next.nextSequence[b.gameSession] < 0;
    }
  }

  lemma RememberRoster(st: Store, b: Binding, now: Time)
    requires RosterOk(st.sessions) && SequencesOk(st)
    requires Countable(st, b) && Reissues(st, b, now)
    ensures RosterOk(Remember(st, b, now).sessions)
  {
    var s := Remembered(st, b, now);
    assert SessionId(s) == LastSegment(b.userSession);
    RosterAdd(st.sessions, s);
  }

  lemma RosterAdd(sessions: map<string, Session>, s: Session)
    requires RosterOk(sessions) && SessionId(s) != "" && s.sequence >= 1
    requires forall id :: id in sessions && id != SessionId(s) && sessions[id].gameSession == s.gameSession ==>
               sessions[id].sequence != s.sequence
    ensures RosterOk(sessions[SessionId(s) := s])
  {
    hide SessionId;
  }

  lemma RememberSequences(st: Store, b: Binding, now: Time)
    requires SequencesOk(st) && FIXED in Of(st.documents, b.gameSession)
    requires Countable(st, b) && Reissues(st, b, now)
    ensures SequencesOk(Remember(st, b, now))
  {
    var next := Remember(st, b, now);
    RememberCounts(st, b, now);
    forall game | Joined(next, game) > 0 ensures FIXED in Of(next.documents, game) {
      RememberFrame(st, b, now, game);
      assert game != b.gameSession ==> Joined(next, game) == Joined(st, game);
    }
  }

  lemma RememberCounts(st: Store, b: Binding, now: Time)
    requires Countable(st, b) && Reissues(st, b, now)
    requires forall id :: id in st.sessions ==> st.sessions[id].sequence <= Joined(st, st.sessions[id].gameSession)
    requires forall game :: game in st.nextSequence ==> st.nextSequence[game] >= 0
    ensures var next := Remember(st, b, now);
            && (forall id :: id in next.sessions ==>
                  next.sessions[id].sequence <= Joined(next, next.sessions[id].gameSession))
            && (forall game :: game in next.nextSequence ==> next.nextSequence[game] >= 0)
            && (forall game :: game != b.gameSession ==> Joined(next, game) == Joined(st, game))
  {
    hide Remember, UserDocument, LastSegment, UsName;
    RememberFrame(st, b, now, "");
    RememberCounter(st, b, now);
  }

  lemma RememberCounter(st: Store, b: Binding, now: Time)
    ensures Remember(st, b, now).nextSequence
            == if LastSegment(b.userSession) in st.sessions then st.nextSequence
               else st.nextSequence[b.gameSession := Next(Joined(st, b.gameSession))]
  {
    hide UserDocument;
  }

  lemma RememberGame(st: Store, b: Binding, now: Time, game: string)
    requires GameOkIn(st, game) && Reissues(st, b, now)
    ensures GameOkIn(Remember(st, b, now), game)
  {
    var s := Remembered(st, b, now);
    assert SessionId(s) == LastSegment(b.userSession);
    RememberFrame(st, b, now, game);
    JoinGame(game, st.sessions, Of(st.documents, game), Of(st.owners, game), s);
  }

  /** A join seen from any game session, the joined one or another. */
  lemma JoinGame(game: string, sessions: map<string, Session>, docs: Docs, owners: Owners, s: Session)
    requires GameOk(game, sessions, docs, owners)
    requires SessionId(s) in sessions ==> SameBinding(s, sessions[SessionId(s)])
    ensures GameOk(game, sessions[SessionId(s) := s],
                   if game == s.gameSession then docs[UsName(SessionId(s)) := UserDocument(s)] else docs, owners)
  {
    hide GameOk, SameMembers, SameBinding, UserDocument, UsName, LastSegment;
    if game == s.gameSession {
      JoinKeepsGame(game, sessions, docs, owners, s);
    } else {
      JoinElsewhere(game, sessions, s);
      SameMembersKeepGame(game, sessions, sessions[SessionId(s) := s], docs, owners);
    }
  }

  lemma JoinElsewhere(game: string, sessions: map<string, Session>, s: Session)
    requires s.gameSession != game
    requires SessionId(s) in sessions ==> SameBinding(s, sessions[SessionId(s)])
    ensures SameMembers(game, sessions, sessions[SessionId(s) := s])
  {
    hide LastSegment;
  }

  lemma JoinKeepsGame(game: string, sessions: map<string, Session>, docs: Docs, owners: Owners, s: Session)
    requires GameOk(game, sessions, docs, owners) && s.gameSession == game
    requires SessionId(s) in sessions ==> SameBinding(s, sessions[SessionId(s)])
    ensures GameOk(game, sessions[SessionId(s) := s], docs[UsName(SessionId(s)) := UserDocument(s)], owners)
  {
    UsNamePath(SessionId(s));
    JoinKeepsOwners(game, sessions, docs, owners, s);
    JoinKeepsUsers(game, sessions, docs, s);
  }

  lemma JoinKeepsOwners(game: string, sessions: map<string, Session>, docs: Docs, owners: Owners, s: Session)
    requires OwnersOk(game, sessions, docs, owners) && s.gameSession == game
    requires SessionId(s) in sessions ==> SameBinding(s, sessions[SessionId(s)])
    ensures OwnersOk(game, sessions[SessionId(s) := s], docs[UsName(SessionId(s)) := UserDocument(s)], owners)
  {
    forall n | n in owners
      ensures n in docs && owners[n] in sessions && sessions[owners[n]].gameSession == game && n != UsName(SessionId(s))
      ensures Attributed(n, docs[n].fields, if owners[n] == SessionId(s) then s else sessions[owners[n]])
    {
      JoinKeepsOwner(n, sessions, docs[n].fields, owners[n], s);
    }
  }

  lemma JoinKeepsOwner(n: string, sessions: map<string, Session>, f: Fields, owner: string, s: Session)
    requires owner in sessions && Attributed(n, f, sessions[owner])
    requires SessionId(s) in sessions ==> SameBinding(s, sessions[SessionId(s)])
    ensures n != UsName(SessionId(s))
    ensures Attributed(n, f, if owner == SessionId(s) then s else sessions[owner])
  {
    ClientNamesApart(n);
    UsNameInjective(SessionId(s), "");
    AttributedBinding(n, f, sessions[owner], if owner == SessionId(s) then s else sessions[owner]);
  }

  lemma JoinKeepsUsers(game: string, sessions: map<string, Session>, docs: Docs, s: Session)
    requires UsersOk(game, sessions, docs) && s.gameSession == game
    ensures UsersOk(game, sessions[SessionId(s) := s], docs[UsName(SessionId(s)) := UserDocument(s)])
  {
    hide UserDocument;
    var id := SessionId(s);
    var sessions', docs' := sessions[id := s], docs[UsName(id) := UserDocument(s)];
    forall i | i in sessions' && sessions'[i].gameSession == game
      ensures Get(docs', UsName(i)) == Some(UserDocument(sessions'[i]))
    {
      UsNameInjective(i, id);
      assert i != id ==> Get(docs, UsName(i)) == Some(UserDocument(sessions[i]));
    }
    forall n | n in docs' && US_PREFIX <= n
      ensures exists i :: i in sessions' && sessions'[i].gameSession == game && n == UsName(i)
    {
      if n == UsName(id) {
        assert id in sessions';
      } else {
        var i :| i in sessions && sessions[i].gameSession == game && n == UsName(i);
        assert i in sessions';
      }
    }
  }

  lemma UsNameInjective(a: string, b: string)
    ensures UsName(a) == UsName(b) ==> a == b
    ensures US_PREFIX <= UsName(a)
  {
    assert UsName(a)[|US_PREFIX|..] == a && UsName(b)[|US_PREFIX|..] == b;
  }

  /** What a commit does to the store: one game session takes the working
      copies, everything else stays. */
  ghost predicate Moves(st: Store, next: Store, game: string, w: Work) {
    && next.sessions == st.sessions && next.nextSequence == st.nextSequence
    && Of(next.documents, game) == w.docs && Of(next.owners, game) == w.owners && Of(next.globals, game) == w.globals
    && forall g :: g != game ==> SameGame(st, next, g)
  }

  ghost predicate SameGame(st: Store, next: Store, g: string) {
    && Of(next.documents, g) == Of(st.documents, g)
    && Of(next.owners, g) == Of(st.owners, g)
    && Of(next.globals, g) == Of(st.globals, g)
  }

  lemma InstallMoves(st: Store, r: Request, w: Work, defs: map<string, Deferment>)
    ensures Moves(st, Install(st, r, w, defs), r.session.gameSession, w)
  {
    var next, game := Install(st, r, w, defs), r.session.gameSession;
    forall g | g != game ensures SameGame(st, next, g) {
      SetApart(st.documents, game, w.docs, g);
      SetApart(st.owners, game, w.owners, g);
      SetApart(st.globals, game, w.globals, g);
    }
  }

  lemma SetApart<V>(m: map<string, map<string, V>>, k: string, inner: map<string, V>, other: string)
    requires other != k
    ensures Of(m[k := inner], other) == Of(m, other)
  {
  }

  lemma CommitShape(st: Store, r: Request) returns (defs: map<string, Deferment>)
    requires Commit(st, r).Ok?
    ensures SessionId(r.session) in st.sessions
    ensures var applied := ApplyOps(ContextOf(st, r), r.ops, WorkOn(st, r.session.gameSession));
            && applied.Ok?
            && Commit(st, r).value
               == Committed(Install(st, r, applied.value.0, defs), applied.value.1, NamesOf(r.ops))
  {
    var c := ContextOf(st, r);
    var w := ApplyOps(c, r.ops, WorkOn(st, r.session.gameSession)).value.0;
    defs := ApplyDeferments(c, r.deferments, Of(st.deferments, SessionId(r.session)), w.docs, w.owners).value;
  }

  lemma CommitMoves(st: Store, r: Request)
    requires Commit(st, r).Ok?
    ensures var game := r.session.gameSession;
            var applied := ApplyOps(ContextOf(st, r), r.ops, WorkOn(st, game));
            && applied.Ok?
            && Moves(st, Commit(st, r).value.store, game, applied.value.0)
            && Commit(st, r).value.results == applied.value.1
            && Commit(st, r).value.changed == NamesOf(r.ops)
            && SessionId(r.session) in st.sessions
  {
    var defs := CommitShape(st, r);
    var w := ApplyOps(ContextOf(st, r), r.ops, WorkOn(st, r.session.gameSession)).value.0;
    InstallMoves(st, r, w, defs);
  }

  lemma CommitKeepsSessions(st: Store, r: Request)
    requires Commit(st, r).Ok?
    ensures Commit(st, r).value.store.sessions == st.sessions
    ensures Commit(st, r).value.store.nextSequence == st.nextSequence
  {
  }

  lemma MovesKeep(st: Store, next: Store, c: Context, ops: seq<WriteOp>, game: string)
    requires StoreOk(st) && c.sessions == st.sessions && Writer(c, game)
    requires ApplyOps(c, ops, WorkOn(st, game)).Ok?
    requires Moves(st, next, game, ApplyOps(c, ops, WorkOn(st, game)).value.0)
    ensures StoreOk(next)
  {
    assert GameOkIn(st, game);
    OpsKeepGame(c, ops, WorkOn(st, game), game);
    MovesKeepSequences(st, next, c, ops, game);
    forall g ensures GameOkIn(next, g) {
      assert GameOkIn(st, g);
      assert g != game ==> SameGame(st, next, g);
    }
  }

  lemma MovesKeepSequences(st: Store, next: Store, c: Context, ops: seq<WriteOp>, game: string)
    requires SequencesOk(st) && ApplyOps(c, ops, WorkOn(st, game)).Ok?
    requires Moves(st, next, game, ApplyOps(c, ops, WorkOn(st, game)).value.0)
    ensures SequencesOk(next)
  {
    OpsKeepFixed(c, ops, WorkOn(st, game));
    forall g | Joined(next, g) > 0 ensures FIXED in Of(next.documents, g) {
      assert Joined(st, g) > 0 && FIXED in Of(st.documents, g);
      assert g != game ==> SameGame(st, next, g);
      assert Get(WorkOn(st, game).docs, FIXED).Some? <==> FIXED in Of(st.documents, game);
    }
  }

  lemma CommitKeeps(st: Store, r: Request)
    requires StoreOk(st) && Commit(st, r).Ok?
    requires SameBinding(r.session, st.sessions[SessionId(r.session)])
    ensures StoreOk(Commit(st, r).value.store)
  {
    CommitMoves(st, r);
    MovesKeep(st, Commit(st, r).value.store, ContextOf(st, r), r.ops, r.session.gameSession);
  }

  lemma OpsKeepFixed(c: Context, ops: seq<WriteOp>, w: Work)
    requires ApplyOps(c, ops, w).Ok?
    ensures Get(ApplyOps(c, ops, w).value.0.docs, FIXED) == Get(w.docs, FIXED)
  {
    BatchTouchesOnlyItsNames(c, ops, w);
    if FIXED in NamesOf(ops) {
      ClientNamesApart(FIXED);
    }
  }

  /** Expiry is exact: whatever deferments are stored, what goes is the user
      document and the documents the session owns. */
  lemma ExpiryIsExact(st: Store, id: string)
    requires id in st.sessions && id != ""
    ensures Removed(st, id) == {UsName(id)} + Owned(st, id, st.sessions[id].gameSession)
  {
  }

  lemma ExpireKeeps(st: Store, id: string)
    requires StoreOk(st) && id in st.sessions
    ensures StoreOk(Expire(st, id))
  {
    var next := Expire(st, id);
    assert GameOkIn(st, st.sessions[id].gameSession);
    ExpireSequences(st, id);
    forall game ensures GameOkIn(next, game) {
      ExpireGame(st, id, game);
    }
  }

  lemma ExpireSequences(st: Store, id: string)
    requires SequencesOk(st) && id in st.sessions && id != "" && GameOkIn(st, st.sessions[id].gameSession)
    ensures SequencesOk(Expire(st, id))
  {
    var next, game := Expire(st, id), st.sessions[id].gameSession;
    ExpirySparesFixed(st, id);
    WithoutOf(st.documents, game, Removed(st, id));
    forall g | Joined(next, g) > 0 ensures FIXED in Of(next.documents, g) {
      assert Joined(st, g) > 0;
    }
  }

  lemma ExpirySparesFixed(st: Store, id: string)
    requires id in st.sessions && id != "" && GameOkIn(st, st.sessions[id].gameSession)
    ensures FIXED !in Removed(st, id)
  {
    var game := st.sessions[id].gameSession;
    ExpiryIsExact(st, id);
    FixedPath();
    UsNameInjective(id, id);
    if FIXED in Owned(st, id, game) {
      ClientNamesOfOwners(game, st.sessions, Of(st.documents, game), Of(st.owners, game), FIXED);
    }
  }

  lemma ExpireGame(st: Store, id: string, game: string)
    requires GameOkIn(st, game) && id in st.sessions && id != ""
    ensures GameOkIn(Expire(st, id), game)
  {
    var names := Removed(st, id);
    ExpiryIsExact(st, id);
    WithoutOf(st.documents, st.sessions[id].gameSession, names);
    WithoutOf(st.owners, st.sessions[id].gameSession, names);
    LeaveGame(game, st.sessions, Of(st.documents, game), Of(st.owners, game), id, names);
  }

  /** A departure seen from any game session, the left one or another. */
  lemma LeaveGame(game: string, sessions: map<string, Session>, docs: Docs, owners: Owners, id: string,
                  names: set<string>)
    requires GameOk(game, sessions, docs, owners) && id in sessions
    requires sessions[id].gameSession == game ==> names == {UsName(id)} + (set n | n in owners && owners[n] == id)
    ensures var here := sessions[id].gameSession == game;
            GameOk(game, sessions - {id}, if here then docs - names else docs, if here then owners - names else owners)
  {
    hide OwnersOk, NamesOk, UsersOk, SameMembers, UserDocument, UsName;
    if sessions[id].gameSession == game {
      LeaveKeepsUsers(game, sessions, docs, owners, id, names);
      LeaveKeepsOwners(game, sessions, docs, owners, id, names);
    } else {
      LeaveElsewhere(game, sessions, id);
      SameMembersKeepGame(game, sessions, sessions - {id}, docs, owners);
    }
  }

  lemma LeaveElsewhere(game: string, sessions: map<string, Session>, id: string)
    requires id in sessions && sessions[id].gameSession != game
    ensures SameMembers(game, sessions, sessions - {id})
  {
    hide LastSegment;
  }

  lemma WithoutOf<V>(m: map<string, map<string, V>>, key: string, names: set<string>)
    ensures Of(Without(m, key, names), key) == Of(m, key) - names
    ensures forall k :: k != key ==> Of(Without(m, key, names), k) == Of(m, k)
  {
  }

  lemma LeaveKeepsOwners(game: string, sessions: map<string, Session>, docs: Docs, owners: Owners, id: string,
                         names: set<string>)
    requires OwnersOk(game, sessions, docs, owners) && NamesOk(docs, owners)
    requires names == {UsName(id)} + (set n | n in owners && owners[n] == id)
    ensures OwnersOk(game, sessions - {id}, docs - names, owners - names)
    ensures NamesOk(docs - names, owners - names)
  {
  }

  lemma LeaveKeepsUsers(game: string, sessions: map<string, Session>, docs: Docs, owners: Owners, id: string,
                        names: set<string>)
    requires OwnersOk(game, sessions, docs, owners) && UsersOk(game, sessions, docs)
    requires names == {UsName(id)} + (set n | n in owners && owners[n] == id)
    ensures UsersOk(game, sessions - {id}, docs - names)
  {
    hide UserDocument;
    forall i | i in sessions - {id} && sessions[i].gameSession == game
      ensures Get(docs - names, UsName(i)) == Some(UserDocument(sessions[i]))
    {
      assert Get(docs, UsName(i)) == Some(UserDocument(sessions[i]));
      OthersUserDocument(game, sessions, docs, owners, id, names, i);
    }
    forall n | n in docs - names && US_PREFIX <= n
      ensures exists i :: i in sessions - {id} && sessions[i].gameSession == game && n == UsName(i)
    {
      var i :| i in sessions && sessions[i].gameSession == game && n == UsName(i);
      assert i in sessions - {id};
    }
  }

  lemma OthersUserDocument(game: string, sessions: map<string, Session>, docs: Docs, owners: Owners, id: string,
                           names: set<string>, i: string)
    requires OwnersOk(game, sessions, docs, owners) && i != id
    requires names == {UsName(id)} + (set n | n in owners && owners[n] == id)
    ensures UsName(i) !in names
  {
    UsNameInjective(i, id);
    if UsName(i) in owners {
      ClientNamesOfOwners(game, sessions, docs, owners, UsName(i));
    }
  }

  // ----- what each step leaves alone -----

  lemma PutFrame(st: Store, at: string, name: string, d: Document, game: string)
    ensures var next := PutDocument(st, at, name, d);
            && next == st.(documents := next.documents)
            && Of(next.documents, game) == (if game == at then Of(st.documents, at)[name := d] else Of(st.documents, game))
  {
  }

  lemma FixedDocumentName(g: GameInfo, seed: seq<int>, now: Time)
    ensures FixedDocument(g, seed, now).name == FIXED
  {
  }

  lemma InitFixedFrame(st: Store, g: GameInfo, seed: seq<int>, now: Time, game: string)
    ensures var next := InitFixed(st, g, seed, now);
            && next.sessions == st.sessions && next.owners == st.owners && next.globals == st.globals
            && next.nextSequence == st.nextSequence
            && InitFixedDocs(Of(st.documents, game), Of(next.documents, game))
            && (game != g.name ==> Of(next.documents, game) == Of(st.documents, game))
  {
    hide FixedDocument;
    var docs := Of(st.documents, g.name);
    var d := FixedDocument(g, seed, now);
    assert d.name == FIXED by {
      FixedDocumentName(g, seed, now);
    }
    PutFrame(st, g.name, FIXED, d, game);
    if FIXED in docs || SeedRefused(st, g, seed) {
      SameInner(st.documents, g.name, game);
    } else {
      SetDocument(docs, FIXED, d);
    }
  }

  lemma SameInner<V>(m: map<string, map<string, V>>, k: string, other: string)
    ensures Of(m[k := Of(m, k)], other) == Of(m, other)
  {
  }

  ghost predicate InitFixedDocs(docs: Docs, docs': Docs) {
    && (forall n :: n != FIXED ==> Get(docs', n) == Get(docs, n))
    && (FIXED in docs ==> docs' == docs)
    && (FIXED in docs' && FIXED !in docs ==> docs'[FIXED].name == FIXED)
  }

  lemma SetDocument(docs: Docs, name: string, d: Document)
    ensures forall n :: n != name ==> Get(docs[name := d], n) == Get(docs, n)
  {
  }

  lemma RememberFrame(st: Store, b: Binding, now: Time, game: string)
    ensures var next, id := Remember(st, b, now), LastSegment(b.userSession);
            && next.owners == st.owners && next.globals == st.globals
            && next.sessions == st.sessions[id := Remembered(st, b, now)]
            && (game != b.gameSession ==> Of(next.documents, game) == Of(st.documents, game))
            && (game == b.gameSession ==>
                  Of(next.documents, game) == Of(st.documents, game)[UsName(id) := UserDocument(Remembered(st, b, now))])
  {
    var s, id := Remembered(st, b, now), LastSegment(b.userSession);
    var joined := st.(sessions := st.sessions[id := s],
                      nextSequence := if id in st.sessions then st.nextSequence
                                      else st.nextSequence[b.gameSession := Next(Joined(st, b.gameSession))]);
    PutFrame(joined, b.gameSession, UsName(id), UserDocument(s), game);
  }

  lemma ExpireFrame(st: Store, id: string, game: string)
    requires id in st.sessions
    ensures var next, here := Expire(st, id), game == st.sessions[id].gameSession;
            && next.sessions == st.sessions - {id} && next.globals == st.globals && next.nextSequence == st.nextSequence
            && Of(next.documents, game) == (if here then Of(st.documents, game) - Removed(st, id) else Of(st.documents, game))
            && Of(next.owners, game) == (if here then Of(st.owners, game) - Removed(st, id) else Of(st.owners, game))
  {
    WithoutOf(st.documents, st.sessions[id].gameSession, Removed(st, id));
    WithoutOf(st.owners, st.sessions[id].gameSession, Removed(st, id));
  }

  /** A reissued token rewrites the user document with an equal one. */
  lemma ReissueRewritesEqual(st: Store, b: Binding, now: Time)
    requires Reissues(st, b, now) && LastSegment(b.userSession) in st.sessions
    requires UsersOk(b.gameSession, st.sessions, Of(st.documents, b.gameSession)) && RosterOk(st.sessions)
    ensures Of(Remember(st, b, now).documents, b.gameSession) == Of(st.documents, b.gameSession)
  {
    hide Remember, Remembered, UserDocument, RosterOk;
    var id, game, docs := LastSegment(b.userSession), b.gameSession, Of(st.documents, b.gameSession);
    RememberFrame(st, b, now, game);
    RememberedStays(st, b, now);
    var was := st.sessions[id];
    assert Get(docs, UsName(id)) == Some(UserDocument(was));
    EqualBindingsEqualDocuments(Remembered(st, b, now), was);
  }

  lemma RememberedStays(st: Store, b: Binding, now: Time)
    requires Reissues(st, b, now) && LastSegment(b.userSession) in st.sessions
    ensures var was := st.sessions[LastSegment(b.userSession)];
            SameBinding(Remembered(st, b, now), was) && was.gameSession == b.gameSession
  {
  }

  lemma EqualBindingsEqualDocuments(a: Session, b: Session)
    requires SameBinding(a, b)
    ensures UserDocument(a) == UserDocument(b)
  {
  }
}
