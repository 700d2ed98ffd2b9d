// The Gamesync server as a concurrent state machine. Each action is one
// critical section or one message of a stream; the publication lock is held
// from a commit until its changes have been published, and every step that does
// not need that lock may fall in between.

module Machine {
  import opened Wrappers
  import opened Values
  import opened Text
  import opened Documents
  import opened Batch
  import opened Store
  import opened Push
  import opened Lifecycle

  /** `roster` remembers every session ever joined, `clock` the latest commit
      time, `busy` whether the publication lock is held. */
  datatype Machine = Machine(
    store: Store,
    roster: map<string, Session>,
    clock: Time,
    busy: bool,
    subs: map<nat, Sub>,
    life: Life)

  const START := Machine(EMPTY, map[], 0, false, map[], IDLE)

  datatype Action =
    | InitFixedData(info: GameInfo, seed: seq<int>, now: Time)
    | RememberSession(binding: Binding, now: Time)
    | WriteDocuments(request: Request, order: seq<string>)
    | FireTimer(id: string, timer: nat, order: seq<string>)
    | Publish(sub: nat, walk: seq<string>)
    | Release
    | AddSubscriber(sub: nat, game: string)
    | RemoveSubscriber(sub: nat)
    | InstallTarget(sub: nat, target: Target, names: seq<string>)
    | DeleteTarget(sub: nat, name: string)
    | Heartbeat(sub: nat, text: string)
    | SendFails(sub: nat)
    | StartStream(stream: nat, id: string)
    | EndStream(stream: nat)
    | ScheduleExpiry(id: string, timer: nat)

  // ----- the steps, component by component -----

  predicate Expiring(m: Machine, a: Action) {
    a.FireTimer? && Expires(m.life, a.id, a.timer, a.id in m.store.sessions)
  }

  function StoreAfter(m: Machine, a: Action): Store {
    match a
    case InitFixedData(g, seed, now) => InitFixed(m.store, g, seed, now)
    case RememberSession(b, now) => Remember(m.store, b, now)
    case WriteDocuments(r, _) =>
      var c := Commit(m.store, r);
      if c.Ok? then c.value.store else m.store
    case FireTimer(id, _, _) => if Expiring(m, a) then Expire(m.store, id) else m.store
    case _ => m.store
  }

  function RosterAfter(m: Machine, a: Action): map<string, Session> {
    if a.RememberSession? && LastSegment(a.binding.userSession) !in m.roster
    then m.roster[LastSegment(a.binding.userSession) := Remembered(m.store, a.binding, a.now)]
    else m.roster
  }

  predicate Commits(m: Machine, a: Action) {
    a.WriteDocuments? && Commit(m.store, a.request).Ok?
  }

  /** The game session whose subscribers an action must tell, and in which order
      of names; None when it publishes nothing. */
  function Audience(m: Machine, a: Action): Option<(string, seq<string>)> {
    match a
    case RememberSession(b, _) =>
      var id := LastSegment(b.userSession);
      if id in m.store.sessions then None else Some((b.gameSession, [UsName(id)]))
    case WriteDocuments(r, order) => if Commits(m, a) then Some((r.session.gameSession, order)) else None
    case FireTimer(id, _, order) =>
      if Expiring(m, a) then Some((m.store.sessions[id].gameSession, order)) else None
    case _ => None
  }

  function Told(s: Sub, game: string, changes: seq<Change>): Sub {
    if s.game == game && s.live then s.(pending := changes) else s
  }

  function Broadcast(subs: map<nat, Sub>, game: string, changes: seq<Change>): map<nat, Sub> {
    map k | k in subs :: Told(subs[k], game, changes)
  }

  function SubsAfter(m: Machine, a: Action): map<nat, Sub> {
    var audience := Audience(m, a);
    if audience.Some? then
      var (game, order) := audience.value;
      Broadcast(m.subs, game, ChangesOf(Of(StoreAfter(m, a).documents, game), order))
    else
      match a
      case Publish(k, walk) =>
        if k in m.subs && m.subs[k].pending != [] then m.subs[k := Deliver(m.subs[k], walk)] else m.subs
      case AddSubscriber(k, game) => m.subs[k := Sub(game, map[], [], [], true)]
      case RemoveSubscriber(k) => m.subs - {k}
      case InstallTarget(k, target, names) =>
        if k in m.subs && forall n :: n in names ==> n in Of(m.store.documents, m.subs[k].game) then
          m.subs[k := UpdateTarget(m.subs[k], target, Of(m.store.documents, m.subs[k].game), names)]
        else m.subs
      case DeleteTarget(k, name) => if k in m.subs then m.subs[k := DropTarget(m.subs[k], name)] else m.subs
      case Heartbeat(k, text) => if k in m.subs then m.subs[k := SendEcho(m.subs[k], text)] else m.subs
      case SendFails(k) => if k in m.subs then m.subs[k := m.subs[k].(live := false, pending := [])] else m.subs
      case _ => m.subs
  }

  function LifeAfter(m: Machine, a: Action): Life {
    match a
    case RememberSession(b, _) => TokenIssued(m.life, LastSegment(b.userSession))
    case FireTimer(id, timer, _) => Fired(m.life, id, timer, id in m.store.sessions)
    case StartStream(stream, id) => StreamStarted(m.life, stream, id)
    case EndStream(stream) => if stream in m.life.open then StreamEnded(m.life, stream) else m.life
    case ScheduleExpiry(id, timer) => if Waiting(m.life, id) > 0 then Scheduled(m.life, id, timer) else m.life
    case _ => m.life
  }

  /** The wall clock may repeat a time or step back; `clock` is the latest time
      a commit has used. */
  function ClockAfter(m: Machine, a: Action): Time {
    if Commits(m, a) && a.request.now > m.clock then a.request.now else m.clock
  }

  function BusyAfter(m: Machine, a: Action): bool {
    if Audience(m, a).Some? then true else if a.Release? then false else m.busy
  }

  function Step(m: Machine, a: Action): Machine {
    Machine(StoreAfter(m, a), RosterAfter(m, a), ClockAfter(m, a), BusyAfter(m, a), SubsAfter(m, a), LifeAfter(m, a))
  }

  // ----- when an action can happen -----

  /** The signed identity may be remembered: the fixed data of its game session
      was initialized first, a known id comes back unchanged, and an id that
      left does not return. */
  ghost predicate MayRemember(m: Machine, b: Binding, now: Time) {
    var id := LastSegment(b.userSession);
    && Countable(m.store, b)
    && FIXED in Of(m.store.documents, b.gameSession)
    && Reissues(m.store, b, now)
    && (id in m.roster ==> id in m.store.sessions)
  }

  /** The writer was authorized at some time: its session was in the store. */
  ghost predicate Authorized(m: Machine, s: Session) {
    SessionId(s) in m.roster && SameBinding(s, m.roster[SessionId(s)])
  }

  ghost predicate Enabled(m: Machine, a: Action) {
    match a
    case InitFixedData(_, _, _) => true
    case RememberSession(b, now) => !m.busy && MayRemember(m, b, now)
    case WriteDocuments(r, order) =>
      && !m.busy && Authorized(m, r.session)
      && (Commits(m, a) ==> Distinct(order) && Elements(order) == Commit(m.store, r).value.changed)
    case FireTimer(id, timer, order) =>
      && !m.busy && timer in m.life.armed && m.life.armed[timer] == id && timer !in m.life.fired
      && (Expiring(m, a) ==> Distinct(order) && Elements(order) == Removed(m.store, id))
    case Publish(k, walk) =>
      m.busy && k in m.subs && m.subs[k].pending != [] && Walk(walk, m.subs[k].targets, m.subs[k].pending[0].name)
    case Release => m.busy && forall k :: k in m.subs ==> m.subs[k].pending == []
    case AddSubscriber(k, game) => k !in m.subs && Joined(m.store, game) > 0
    case RemoveSubscriber(k) => k in m.subs
    case InstallTarget(k, target, names) =>
      && !m.busy && k in m.subs
      && SnapshotNames(names, Of(m.store.documents, m.subs[k].game), target)
    case DeleteTarget(k, _) => k in m.subs
    case Heartbeat(k, _) => k in m.subs
    case SendFails(k) => k in m.subs
    case StartStream(stream, _) => stream !in m.life.open
    case EndStream(stream) => stream in m.life.open
    case ScheduleExpiry(id, timer) => Waiting(m.life, id) > 0 && timer !in m.life.armed
  }

  // ----- the invariant -----

  ghost predicate HistoryOk(m: Machine) {
    && RosterOk(m.roster)
    && Recorded(m.store.sessions, m.roster)
    && (forall id :: id in m.roster ==> m.roster[id].sequence <= Joined(m.store, m.roster[id].gameSession))
  }

  ghost predicate TimesIn(st: Store, game: string, clock: Time) {
    forall n :: n in Of(st.owners, game) && n in Of(st.documents, game) ==>
      Of(st.documents, game)[n].updateTime <= clock
  }

  ghost predicate TimesOk(m: Machine) {
    forall game :: TimesIn(m.store, game, m.clock)
  }

  ghost predicate SubsOk(m: Machine) {
    forall k :: k in m.subs ==>
      && SubOk(m.subs[k], Of(m.store.documents, m.subs[k].game))
      && (!m.busy ==> m.subs[k].pending == [])
      && Joined(m.store, m.subs[k].game) > 0
  }

  ghost predicate MachineOk(m: Machine) {
    && StoreOk(m.store)
    && HistoryOk(m)
    && TimesOk(m)
    && SubsOk(m)
    && LifeOk(m.life, m.store.sessions.Keys)
  }

  lemma StartOk()
    ensures MachineOk(START)
  {
    EmptyOk();
    IdleOk();
    assert EMPTY.sessions.Keys == {};
  }

  // ----- store -----

  lemma AuthorizedBinding(m: Machine, s: Session)
    requires HistoryOk(m) && Authorized(m, s) && SessionId(s) in m.store.sessions
    ensures SameBinding(s, m.store.sessions[SessionId(s)])
  {
  }

  lemma StoreKept(m: Machine, a: Action)
    requires StoreOk(m.store) && HistoryOk(m) && Enabled(m, a)
    ensures StoreOk(StoreAfter(m, a))
  {
    hide InitFixed, Remember, Commit, Expire, Removed;
    match a
    case InitFixedData(g, seed, now) => InitFixedKeeps(m.store, g, seed, now);
    case RememberSession(b, now) => RememberKeeps(m.store, b, now);
    case WriteDocuments(r, _) =>
      if Commit(m.store, r).Ok? {
        CommitMoves(m.store, r);
        AuthorizedBinding(m, r.session);
        CommitKeeps(m.store, r);
      }
    case FireTimer(id, _, _) =>
      if Expiring(m, a) {
        ExpireKeeps(m.store, id);
      }
    case _ =>
  }

  /** Sessions change only by joins and expiries, and join counters only grow. */
  lemma StoreMoves(m: Machine, a: Action)
    requires Enabled(m, a)
    ensures !a.RememberSession? && !a.FireTimer? ==> StoreAfter(m, a).sessions == m.store.sessions
    ensures forall game :: Joined(m.store, game) <= Joined(StoreAfter(m, a), game)
  {
    match a
    case InitFixedData(g, seed, now) => InitFixedFrame(m.store, g, seed, now, "");
    case WriteDocuments(r, _) =>
      if Commit(m.store, r).Ok? {
        CommitKeepsSessions(m.store, r);
      }
    case FireTimer(id, _, _) =>
      if Expiring(m, a) {
        ExpireFrame(m.store, id, "");
      }
    case _ =>
  }

  lemma FixedStays(m: Machine, a: Action, game: string)
    requires StoreOk(m.store) && Enabled(m, a) && FIXED in Of(m.store.documents, game)
    ensures Get(Of(StoreAfter(m, a).documents, game), FIXED) == Get(Of(m.store.documents, game), FIXED)
  {
    hide InitFixed, Remember, Commit, Expire, Removed;
    match a
    case InitFixedData(g, seed, now) => InitFixedFrame(m.store, g, seed, now, game);
    case WriteDocuments(r, _) =>
      if Commit(m.store, r).Ok? {
        CommitSparesFixed(m.store, r, game);
      }
    case FireTimer(id, _, _) =>
      if Expiring(m, a) {
        ExpireLeavesFixed(m.store, id, game);
      }
    case RememberSession(b, now) => RememberLeavesFixed(m.store, b, now, game);
    case _ =>
  }

  lemma CommitSparesFixed(st: Store, r: Request, game: string)
    requires Commit(st, r).Ok?
    ensures Get(Of(Commit(st, r).value.store.documents, game), FIXED) == Get(Of(st.documents, game), FIXED)
  {
    CommitMoves(st, r);
    OpsKeepFixed(ContextOf(st, r), r.ops, WorkOn(st, r.session.gameSession));
    assert game != r.session.gameSession ==> SameGame(st, Commit(st, r).value.store, game);
  }

  lemma ExpireLeavesFixed(st: Store, id: string, game: string)
    requires StoreOk(st) && id in st.sessions
    ensures Get(Of(Expire(st, id).documents, game), FIXED) == Get(Of(st.documents, game), FIXED)
  {
    assert GameOkIn(st, st.sessions[id].gameSession);
    ExpirySparesFixed(st, id);
    ExpireFrame(st, id, game);
  }

  lemma RememberLeavesFixed(st: Store, b: Binding, now: Time, game: string)
    ensures Get(Of(Remember(st, b, now).documents, game), FIXED) == Get(Of(st.documents, game), FIXED)
  {
    RememberFrame(st, b, now, game);
    FixedPath();
    UsNameInjective(LastSegment(b.userSession), "");
  }

  // ----- history -----

  lemma HistoryKept(m: Machine, a: Action)
    requires StoreOk(m.store) && HistoryOk(m) && Enabled(m, a)
    ensures HistoryOk(Step(m, a))
  {
    StoreMoves(m, a);
    if a.RememberSession? {
      RememberedInHistory(m, a.binding, a.now);
    }
  }

  lemma RememberedInHistory(m: Machine, b: Binding, now: Time)
    requires StoreOk(m.store) && HistoryOk(m) && Enabled(m, RememberSession(b, now))
    ensures HistoryOk(Step(m, RememberSession(b, now)))
  {
    hide LastSegment, UserDocument, StoreOk, HistoryOk;
    var s, id := Remembered(m.store, b, now), LastSegment(b.userSession);
    assert SessionId(s) == id;
    var m' := Step(m, RememberSession(b, now));
    StoreMoves(m, RememberSession(b, now));
    RememberFrame(m.store, b, now, "");
    if id in m.roster {
      KnownInHistory(m, m', s);
    } else {
      NewSequence(m, b, now);
      NewInHistory(m, m', s);
    }
  }

  /** A newcomer takes the next number, which nobody has had. */
  lemma NewSequence(m: Machine, b: Binding, now: Time)
    requires StoreOk(m.store) && HistoryOk(m) && MayRemember(m, b, now) && LastSegment(b.userSession) !in m.roster
    ensures var s, game := Remembered(m.store, b, now), b.gameSession;
            && s.gameSession == game && s.sequence >= 1
            && Joined(m.store, game) < s.sequence == Joined(Remember(m.store, b, now), game)
  {
    hide LastSegment, UserDocument, UsName, GameOkIn;
  }

  lemma KnownInHistory(m: Machine, m': Machine, s: Session)
    requires HistoryOk(m) && SessionId(s) in m.store.sessions && SameBinding(s, m.store.sessions[SessionId(s)])
    requires m'.roster == m.roster && m'.store.sessions == m.store.sessions[SessionId(s) := s]
    requires forall game :: Joined(m.store, game) <= Joined(m'.store, game)
    ensures HistoryOk(m')
  {
  }

  lemma NewInHistory(m: Machine, m': Machine, s: Session)
    requires HistoryOk(m) && SessionId(s) !in m.roster && SessionId(s) != ""
    requires m'.roster == m.roster[SessionId(s) := s] && m'.store.sessions == m.store.sessions[SessionId(s) := s]
    requires forall game :: Joined(m.store, game) <= Joined(m'.store, game)
    requires Joined(m.store, s.gameSession) < s.sequence <= Joined(m'.store, s.gameSession) && s.sequence >= 1
    ensures HistoryOk(m')
  {
    forall id | id in m.roster && m.roster[id].gameSession == s.gameSession
      ensures m.roster[id].sequence != s.sequence
    {
      assert m.roster[id].sequence <= Joined(m.store, s.gameSession);
    }
    RosterAdd(m.roster, s);
    BindingsAdd(m.store.sessions, m.roster, s);
    forall id | id in m'.roster
      ensures m'.roster[id].sequence <= Joined(m'.store, m'.roster[id].gameSession)
    {
      assert id != SessionId(s) ==> m.roster[id].sequence <= Joined(m.store, m.roster[id].gameSession);
    }
  }

  ghost predicate Recorded(sessions: map<string, Session>, roster: map<string, Session>) {
    forall id :: id in sessions ==> id in roster && SameBinding(sessions[id], roster[id])
  }

  lemma BindingsAdd(sessions: map<string, Session>, roster: map<string, Session>, s: Session)
    requires Recorded(sessions, roster)
    ensures Recorded(sessions[SessionId(s) := s], roster[SessionId(s) := s])
  {
  }

  // ----- times -----

  lemma TimesKept(m: Machine, a: Action)
    requires StoreOk(m.store) && TimesOk(m) && Enabled(m, a)
    ensures TimesOk(Step(m, a))
  {
    forall game ensures TimesIn(StoreAfter(m, a), game, ClockAfter(m, a)) {
      assert TimesIn(m.store, game, m.clock);
      assert GameOkIn(m.store, game);
      GameTimesKept(m, a, game);
    }
  }

  lemma GameTimesKept(m: Machine, a: Action, game: string)
    requires StoreOk(m.store) && TimesIn(m.store, game, m.clock) && GameOkIn(m.store, game) && Enabled(m, a)
    ensures TimesIn(StoreAfter(m, a), game, ClockAfter(m, a))
  {
    hide InitFixed, Remember, Commit, Expire, Removed, TimesIn, GameOkIn, StoreOk;
    match a
    case InitFixedData(g, seed, now) => InitFixedTimes(m.store, g, seed, now, game, m.clock);
    case RememberSession(b, now) => RememberTimes(m.store, b, now, game, m.clock);
    case WriteDocuments(r, _) =>
      if Commit(m.store, r).Ok? {
        CommitTimes(m, r, game);
      }
    case FireTimer(id, _, _) =>
      if Expiring(m, a) {
        ExpireTimes(m.store, id, game, m.clock);
      }
    case _ =>
  }

  lemma InitFixedTimes(st: Store, g: GameInfo, seed: seq<int>, now: Time, game: string, clock: Time)
    requires TimesIn(st, game, clock) && GameOkIn(st, game)
    ensures TimesIn(InitFixed(st, g, seed, now), game, clock)
  {
    var next := InitFixed(st, g, seed, now);
    InitFixedFrame(st, g, seed, now, game);
    forall n | n in Of(next.owners, game) && n in Of(next.documents, game)
      ensures Of(next.documents, game)[n].updateTime <= clock
    {
      ClientNamesOfOwners(game, st.sessions, Of(st.documents, game), Of(st.owners, game), n);
      assert Get(Of(next.documents, game), n) == Get(Of(st.documents, game), n);
    }
  }

  lemma OwnersAreNotUsers(st: Store, game: string, n: string, id: string)
    requires GameOkIn(st, game) && n in Of(st.owners, game)
    ensures n != UsName(id)
  {
    hide RosterOk, UserDocument, LastSegment, Attributed;
    ClientNamesOfOwners(game, st.sessions, Of(st.documents, game), Of(st.owners, game), n);
  }

  lemma RememberTimes(st: Store, b: Binding, now: Time, game: string, clock: Time)
    requires TimesIn(st, game, clock) && GameOkIn(st, game)
    ensures TimesIn(Remember(st, b, now), game, clock)
  {
    hide Remember, Remembered, UserDocument, LastSegment, GameOkIn, Joined, ClientName;
    var next, us := Remember(st, b, now), UsName(LastSegment(b.userSession));
    RememberFrame(st, b, now, game);
    forall n | n in Of(next.owners, game) && n in Of(next.documents, game)
      ensures Of(next.documents, game)[n].updateTime <= clock
    {
      OwnersAreNotUsers(st, game, n, LastSegment(b.userSession));
      assert n != us ==> Get(Of(next.documents, game), n) == Get(Of(st.documents, game), n);
    }
  }

  lemma ExpireTimes(st: Store, id: string, game: string, clock: Time)
    requires TimesIn(st, game, clock) && id in st.sessions
    ensures TimesIn(Expire(st, id), game, clock)
  {
    ExpireFrame(st, id, game);
  }

  lemma CommitTimes(m: Machine, r: Request, game: string)
    requires TimesIn(m.store, game, m.clock) && Commit(m.store, r).Ok?
    ensures TimesIn(Commit(m.store, r).value.store, game, if r.now > m.clock then r.now else m.clock)
  {
    var next := Commit(m.store, r).value.store;
    CommitMoves(m.store, r);
    if game == r.session.gameSession {
      var c, w := ContextOf(m.store, r), WorkOn(m.store, game);
      forall n | n in Of(next.owners, game) && n in Of(next.documents, game)
        ensures Of(next.documents, game)[n].updateTime <= if r.now > m.clock then r.now else m.clock
      {
        BatchTimes(c, r.ops, w, n);
        assert Get(Of(next.documents, game), n).Some? && Get(Of(next.owners, game), n).Some?;
      }
    } else {
      assert SameGame(m.store, next, game);
    }
  }

  lemma {:induction false} BatchTimes(c: Context, ops: seq<WriteOp>, w: Work, n: string)
    requires ApplyOps(c, ops, w).Ok?
    ensures var w' := ApplyOps(c, ops, w).value.0;
            || (Get(w'.docs, n) == Get(w.docs, n) && Get(w'.owners, n) == Get(w.owners, n))
            || (n in w'.docs ==> w'.docs[n].updateTime == c.now)
    decreases |ops|
  {
    if ops != [] {
      var front, last := ops[..|ops| - 1], ops[|ops| - 1];
      BatchTimes(c, front, w, n);
      AppliedOp(c, last, ApplyOps(c, front, w).value.0);
      assert Get(ApplyOps(c, ops, w).value.0.docs, n).Some? <==> n in ApplyOps(c, ops, w).value.0.docs;
    }
  }

  // ----- lifecycle -----

  ghost function LiveAfter(m: Machine, a: Action): set<string> {
    var live := m.store.sessions.Keys;
    if a.RememberSession? then live + {LastSegment(a.binding.userSession)}
    else if Expiring(m, a) then live - {a.id}
    else live
  }

  lemma LiveAfterIs(m: Machine, a: Action)
    requires Enabled(m, a)
    ensures StoreAfter(m, a).sessions.Keys == LiveAfter(m, a)
  {
    if a.RememberSession? {
      RememberFrame(m.store, a.binding, a.now, "");
    } else if a.FireTimer? {
      FiredLive(m, a);
    } else {
      StoreMoves(m, a);
    }
  }

  lemma FiredLive(m: Machine, a: Action)
    requires a.FireTimer?
    ensures StoreAfter(m, a).sessions.Keys == LiveAfter(m, a)
  {
    if Expiring(m, a) {
      ExpireFrame(m.store, a.id, "");
    }
  }

  lemma LifeKept(m: Machine, a: Action)
    requires LifeOk(m.life, m.store.sessions.Keys) && Enabled(m, a)
    ensures LifeOk(LifeAfter(m, a), LiveAfter(m, a))
  {
    var live := m.store.sessions.Keys;
    match a
    case RememberSession(b, _) => IssueKeeps(m.life, LastSegment(b.userSession), live);
    case FireTimer(id, timer, _) => FireKeeps(m.life, id, timer, live);
    case StartStream(stream, id) => StartKeeps(m.life, stream, id, live);
    case EndStream(stream) => EndKeeps(m.life, stream, live);
    case ScheduleExpiry(id, timer) => ScheduleKeeps(m.life, id, timer, live);
    case _ =>
  }

  // ----- subscriptions -----

  /** What an action does to the documents of a game session it does not
      announce to: nothing. */
  lemma QuietDocuments(m: Machine, a: Action, game: string)
    requires StoreOk(m.store) && Enabled(m, a)
    requires Audience(m, a).None? || Audience(m, a).value.0 != game
    requires FIXED in Of(m.store.documents, game)
    ensures Of(StoreAfter(m, a).documents, game) == Of(m.store.documents, game)
  {
    hide InitFixed, Remember, Commit, Expire, Removed, StoreOk, Countable, Reissues, SnapshotNames, Walk, Distinct, Elements, Authorized, LastSegment;
    match a
    case InitFixedData(g, seed, now) => InitFixedFrame(m.store, g, seed, now, game);
    case RememberSession(b, now) => QuietRemember(m, b, now, game);
    case WriteDocuments(r, _) =>
      if Commit(m.store, r).Ok? {
        CommitElsewhere(m.store, r, game);
      }
    case FireTimer(id, _, _) =>
      if Expiring(m, a) {
        ExpireFrame(m.store, id, game);
      }
    case _ =>
  }

  lemma CommitElsewhere(st: Store, r: Request, game: string)
    requires Commit(st, r).Ok? && game != r.session.gameSession
    ensures Of(Commit(st, r).value.store.documents, game) == Of(st.documents, game)
  {
    CommitMoves(st, r);
    assert SameGame(st, Commit(st, r).value.store, game);
  }

  lemma QuietRemember(m: Machine, b: Binding, now: Time, game: string)
    requires StoreOk(m.store) && MayRemember(m, b, now)
    requires LastSegment(b.userSession) in m.store.sessions || b.gameSession != game
    ensures Of(Remember(m.store, b, now).documents, game) == Of(m.store.documents, game)
  {
    if b.gameSession == game {
      assert GameOkIn(m.store, game);
      ReissueRewritesEqual(m.store, b, now);
    } else {
      RememberFrame(m.store, b, now, game);
    }
  }

  /** The names an action announces include every document it changed. */
  lemma AudienceExplains(m: Machine, a: Action, n: string)
    requires StoreOk(m.store) && Enabled(m, a) && Audience(m, a).Some?
    requires var game := Audience(m, a).value.0;
             Get(Of(m.store.documents, game), n) != Get(Of(StoreAfter(m, a).documents, game), n)
    ensures n in Audience(m, a).value.1
  {
    match a
    case RememberSession(b, now) =>
      assert n == UsName(LastSegment(b.userSession));
    case WriteDocuments(r, order) =>
      CommitMoves(m.store, r);
      BatchTouchesOnlyItsNames(ContextOf(m.store, r), r.ops, WorkOn(m.store, r.session.gameSession));
      assert n in Elements(order);
    case FireTimer(id, _, order) =>
      WithoutOf(m.store.documents, m.store.sessions[id].gameSession, Removed(m.store, id));
      assert n in Elements(order);
    case _ =>
  }

  lemma TellingKeepsSub(m: Machine, a: Action, k: nat)
    requires MachineOk(m) && Enabled(m, a) && Audience(m, a).Some? && k in m.subs
    ensures SubOk(SubsAfter(m, a)[k], Of(StoreAfter(m, a).documents, m.subs[k].game))
  {
    var (game, order) := Audience(m, a).value;
    var s := m.subs[k];
    StoreKept(m, a);
    if s.game == game {
      var docs, docs' := Of(m.store.documents, game), Of(StoreAfter(m, a).documents, game);
      NamedDocuments(StoreAfter(m, a), game);
      forall n | Get(docs, n) != Get(docs', n) ensures n in order {
        AudienceExplains(m, a, n);
      }
      ChangesExplain(docs, docs', order);
      QueueKeepsSub(s, ChangesOf(docs', order), docs, docs');
    } else {
      QuietDocuments(m, a, s.game);
    }
  }

  lemma QuietStepKeepsSub(m: Machine, a: Action, k: nat)
    requires MachineOk(m) && Enabled(m, a) && Audience(m, a).None? && k in m.subs && k in SubsAfter(m, a)
    ensures SubOk(SubsAfter(m, a)[k], Of(StoreAfter(m, a).documents, m.subs[k].game))
  {
    QuietDocuments(m, a, m.subs[k].game);
    NamedDocuments(m.store, m.subs[k].game);
    QuietSub(m, a, k, Of(m.store.documents, m.subs[k].game));
  }

  /** A subscriber's own steps, with the documents standing still. */
  lemma QuietSub(m: Machine, a: Action, k: nat, docs: Docs)
    requires k in m.subs && SubOk(m.subs[k], docs) && docs == Of(m.store.documents, m.subs[k].game)
    requires !m.busy ==> m.subs[k].pending == []
    requires forall n :: n in docs ==> docs[n].name == n
    requires Enabled(m, a) && Audience(m, a).None? && k in SubsAfter(m, a)
    ensures SubOk(SubsAfter(m, a)[k], docs)
  {
    var s := m.subs[k];
    match a
    case Publish(j, walk) =>
      if j == k {
        DeliverKeepsSub(s, walk, docs);
      }
    case InstallTarget(j, target, names) =>
      if j == k {
        assert forall n :: n in names <==> n in Elements(names);
        UpdateKeepsSub(s, target, docs, names);
      }
    case DeleteTarget(j, name) =>
      if j == k {
        DropKeepsSub(s, name, docs);
      }
    case Heartbeat(j, text) =>
      if j == k {
        EchoKeepsSub(s, text, docs);
      }
    case _ =>
  }

  lemma SubShape(m: Machine, a: Action, k: nat)
    requires Enabled(m, a) && k in m.subs && k in SubsAfter(m, a)
    requires !m.busy ==> m.subs[k].pending == []
    ensures SubsAfter(m, a)[k].game == m.subs[k].game
    ensures !BusyAfter(m, a) ==> SubsAfter(m, a)[k].pending == []
  {
    hide StoreAfter, Audience, Installed, Published, Snapshot, ChangesOf, Of;
    if Audience(m, a).None? {
      QuietShape(m, a, k);
    }
  }

  /** A step that announces nothing leaves a stream in its game session, with no
      more pending than before. */
  lemma QuietShape(m: Machine, a: Action, k: nat)
    requires Audience(m, a).None? && k in m.subs && k in SubsAfter(m, a)
    requires a.AddSubscriber? ==> a.sub != k
    ensures SubsAfter(m, a)[k].game == m.subs[k].game
    ensures m.subs[k].pending == [] ==> SubsAfter(m, a)[k].pending == []
  {
    hide StoreAfter, Audience, Installed, Published, Snapshot, ChangesOf, Of;
    match a
    case Publish(j, walk) =>
    case InstallTarget(j, target, names) =>
    case DeleteTarget(j, name) =>
    case Heartbeat(j, text) =>
    case SendFails(j) =>
    case _ =>
  }

  lemma SubsKept(m: Machine, a: Action)
    requires MachineOk(m) && Enabled(m, a)
    ensures SubsOk(Step(m, a))
  {
    StoreMoves(m, a);
    forall k | k in SubsAfter(m, a)
      ensures SubOk(SubsAfter(m, a)[k], Of(StoreAfter(m, a).documents, SubsAfter(m, a)[k].game))
      ensures !BusyAfter(m, a) ==> SubsAfter(m, a)[k].pending == []
      ensures Joined(StoreAfter(m, a), SubsAfter(m, a)[k].game) > 0
    {
      SubKept(m, a, k);
    }
  }

  lemma SubKept(m: Machine, a: Action, k: nat)
    requires MachineOk(m) && Enabled(m, a) && k in SubsAfter(m, a)
    requires Joined(m.store, SubsAfter(m, a)[k].game) <= Joined(StoreAfter(m, a), SubsAfter(m, a)[k].game)
    ensures SubOk(SubsAfter(m, a)[k], Of(StoreAfter(m, a).documents, SubsAfter(m, a)[k].game))
    ensures !BusyAfter(m, a) ==> SubsAfter(m, a)[k].pending == []
    ensures Joined(StoreAfter(m, a), SubsAfter(m, a)[k].game) > 0
  {
    if k in m.subs {
      SubShape(m, a, k);
      if Audience(m, a).Some? {
        TellingKeepsSub(m, a, k);
      } else {
        QuietStepKeepsSub(m, a, k);
      }
    } else {
      NewSub(m, a, k);
    }
  }

  lemma NewSub(m: Machine, a: Action, k: nat)
    requires Enabled(m, a) && k !in m.subs && k in SubsAfter(m, a)
    ensures a.AddSubscriber? && SubsAfter(m, a)[k] == Sub(a.game, map[], [], [], true)
  {
  }

  // ----- runs -----

  lemma StepKeeps(m: Machine, a: Action)
    requires MachineOk(m) && Enabled(m, a)
    ensures MachineOk(Step(m, a))
  {
    StoreKept(m, a);
    HistoryKept(m, a);
    TimesKept(m, a);
    SubsKept(m, a);
    LifeKept(m, a);
    LiveAfterIs(m, a);
  }

  /** The machine after the first i actions of a run. */
  ghost function At(m: Machine, run: seq<Action>, i: nat): Machine
    requires i <= |run|
  {
    if i == 0 then m else Step(At(m, run, i - 1), run[i - 1])
  }

  /** Every action of the run is possible where it is taken. */
  ghost predicate IsRun(m: Machine, run: seq<Action>) {
    forall i :: 0 <= i < |run| ==> Enabled(At(m, run, i), run[i])
  }

  lemma {:induction false} RunKeeps(m: Machine, run: seq<Action>, i: nat)
    requires MachineOk(m) && IsRun(m, run) && i <= |run|
    ensures MachineOk(At(m, run, i))
  {
    if i > 0 {
      RunKeeps(m, run, i - 1);
      StepKeeps(At(m, run, i - 1), run[i - 1]);
    }
  }
}
