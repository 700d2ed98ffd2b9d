// The Gamesync server object (gamesync.go and gamesync_store.go,
// gamesyncServer): its maps, updated in place, against the steps of the store
// and of the stream lifecycle. A method is one critical section under the
// publication lock, or one under the map lock where the code releases it.

module GamesyncServer {
  import opened Wrappers
  import opened Values
  import opened Text
  import opened Documents
  import opened Batch
  import opened Store
  import opened Push
  import opened Subscribers
  import opened Writes
  import Lifecycle

  class Server {
    var sessions: map<string, Session>
    var nextSequence: map<string, int64>
    var documents: map<string, Docs>
    var owners: map<string, Owners>
    var globalValues: map<string, Fields>
    var deferments: map<string, map<string, Deferment>>
    var subscribers: map<string, set<Subscriber>>
    var streamCounts: map<string, int>
    var disconnectTimers: map<string, nat>
    /** Timers are told apart by the order in which they were made. */
    var timersMade: nat
    /** All streams the server may send to. */
    ghost var audience: set<Subscriber>
    /** What the stream counts and timers are about. */
    ghost var life: Lifecycle.Life

    constructor ()
      ensures Valid() && State() == EMPTY && subscribers == map[] && life == Lifecycle.IDLE
    {
      sessions, nextSequence, documents, owners := map[], map[], map[], map[];
      globalValues, deferments, subscribers := map[], map[], map[];
      streamCounts, disconnectTimers, timersMade := map[], map[], 0;
      audience, life := {}, Lifecycle.IDLE;
      new;
      EmptyOk();
      Lifecycle.IdleOk();
      assert sessions.Keys == {};
    }

    function State(): Store
      reads this`sessions, this`nextSequence, this`documents, this`owners, this`globalValues, this`deferments
    {
      Store(sessions, nextSequence, documents, owners, globalValues, deferments)
    }

    function To(game: string): set<Subscriber>
      reads this`subscribers
    {
      if game in subscribers then subscribers[game] else {}
    }

    /** A stream belongs to one game session, which somebody has joined. */
    ghost predicate SubscribersOk()
      reads this`subscribers, this`audience, this`nextSequence
    {
      && (forall g :: g in subscribers ==> subscribers[g] <= audience)
      && (forall g :: g in subscribers ==> g in nextSequence && nextSequence[g] > 0)
      && (forall g, h :: g in subscribers && h in subscribers && g != h ==> subscribers[g] !! subscribers[h])
    }

    /** Every subscriber sees exactly the documents it asks for, of those given. */
    ghost predicate ViewsOf(docs: map<string, Docs>)
      reads this`subscribers, this`audience, audience
    {
      forall g, s :: g in subscribers && s in subscribers[g] && s in audience ==> s.Coherent(Of(docs, g))
    }

    ghost predicate LifeTied()
      reads this`streamCounts, this`disconnectTimers, this`timersMade, this`life, this`sessions
    {
      && streamCounts == life.counts && disconnectTimers == life.timers
      && Lifecycle.LifeOk(life, sessions.Keys)
      && forall t :: t in life.armed ==> t < timersMade
    }

    /** The part of the invariant the store's own steps keep. */
    ghost predicate StoreSide()
      reads this`sessions, this`nextSequence, this`documents, this`owners, this`globalValues, this`deferments,
            this`subscribers, this`audience, audience
    {
      StoreOk(State()) && SubscribersOk() && ViewsOf(documents)
    }

    ghost predicate Valid()
      reads this, audience
    {
      StoreSide() && LifeTied()
    }

    /** Publish names to a game session: views that matched the documents as they
        were come to match them as they are. */
    method Publish(game: string, names: seq<string>, ghost was: Docs)
      requires forall s :: s in To(game) ==> s.Coherent(was)
      requires forall n :: n in Of(documents, game) ==> Of(documents, game)[n].name == n
      requires forall n :: Get(was, n) != Get(Of(documents, game), n) ==> n in names
      modifies To(game)
      ensures forall s :: s in To(game) ==> s.Coherent(Of(documents, game)) && s.targets == old(s.targets)
    {
      var docs := Of(documents, game);
      PublishNames(To(game), docs, names);
      ChangesExplain(was, docs, names);
      forall s | s in To(game) && !s.broken ensures s.Coherent(docs) {
        forall tid | tid in s.targets ensures s.Seen(tid) == Restrict(docs, s.targets[tid]) {
          assert old(s.Seen(tid)) == Restrict(was, s.targets[tid]);
          ViewAfterIsCoherent(s.targets[tid], ChangesOf(docs, names), was, docs);
        }
      }
    }

    /** The same with an eye on every subscriber, when only one game session's
        documents have moved. */
    method Announce(game: string, names: seq<string>, ghost was: map<string, Docs>)
      requires SubscribersOk() && ViewsOf(was)
      requires Announces(game, names, was, documents)
      modifies To(game)
      ensures ViewsOf(documents)
    {
      Publish(game, names, Of(was, game));
      forall g, s | g in subscribers && s in subscribers[g] ensures s.Coherent(Of(documents, g)) {
        if g != game {
          assert s !in To(game);
          assert old(s.Coherent(Of(was, g)));
        }
      }
    }

    lemma SideIsOk()
      requires StoreSide()
      ensures StoreOk(State())
    {
    }

    /** Documents that nobody subscribed to may come and go unannounced. */
    lemma ViewsStay(was: map<string, Docs>)
      requires ViewsOf(was) && forall g :: g in subscribers ==> Of(documents, g) == Of(was, g)
      ensures ViewsOf(documents)
    {
    }

    // ----- fixed data and joining -----

    /** initializeFixedData while it holds the map lock. */
    method EnsureFixedData(gs: GameInfo, seed: seq<int>, now: Time) returns (r: Result<()>)
      modifies this`documents
      ensures State() == InitFixed(old(State()), gs, seed, now)
      ensures r == if SeedRefused(old(State()), gs, seed) then Err(Internal) else Ok(())
    {
      hide FixedDocument;
      var docs := Of(documents, gs.name);
      if gs.name !in documents {
        documents := documents[gs.name := map[]];
      }
      assert documents == old(documents)[gs.name := docs];
      if FIXED in docs {
        return Ok(());
      }
      if |seed| < 16 || |seed| > 64 {
        return Err(Internal);
      }
      documents := documents[gs.name := docs[FIXED := FixedDocument(gs, seed, now)]];
      assert documents == old(documents)[gs.name := docs[FIXED := FixedDocument(gs, seed, now)]];
      r := Ok(());
    }

    method InitializeFixedData(gs: GameInfo, seed: seq<int>, now: Time) returns (r: Result<()>)
      requires StoreSide()
      modifies this`documents
      ensures StoreSide()
      ensures State() == InitFixed(old(State()), gs, seed, now)
      ensures r == if SeedRefused(old(State()), gs, seed) then Err(Internal) else Ok(())
    {
      hide InitFixed, SeedRefused, StoreOk;
      ghost var st := State();
      InitFixedMoves(st, gs, seed, now);
      r := EnsureFixedData(gs, seed, now);
      ViewsStay(st.documents);
    }

    /** rememberSession while it holds the map lock. */
    method StoreSession(b: Binding, now: Time) returns (existed: bool)
      modifies this`sessions, this`nextSequence, this`documents
      ensures State() == Remember(old(State()), b, now)
      ensures existed <==> LastSegment(b.userSession) in old(sessions)
    {
      hide UserDocument, Bind, Remember, LastSegment, UsName;
      ghost var st := State();
      StoredSession(st, b, now);
      var id, game := LastSegment(b.userSession), b.gameSession;
      existed := id in sessions;
      var session: Session;
      if existed {
        var previous := sessions[id];
        session := Bind(b, previous.sequence, previous.connection, previous.createdAt);
      } else {
        nextSequence := nextSequence[game := Next(if game in nextSequence then nextSequence[game] else 0)];
        session := Bind(b, nextSequence[game], nextSequence[game], now);
      }
      assert session == Remembered(st, b, now);
      sessions := sessions[id := session];
      var docs := Of(documents, game);
      documents := documents[game := docs[UsName(id) := UserDocument(session)]];
    }

    /** A join is announced to the subscribers of its game session; a reissued
        token changes no document, so it need not be. */
    method RememberSession(b: Binding, now: Time)
      requires StoreSide()
      requires Countable(State(), b) && Reissues(State(), b, now)
      requires FIXED in Of(documents, b.gameSession)
      modifies this`sessions, this`nextSequence, this`documents, To(b.gameSession)
      ensures StoreSide() && State() == Remember(old(State()), b, now)
    {
      hide Remember, Countable, Reissues, StoreOk, Announces, LastSegment, UsName;
      ghost var st := State();
      var id := LastSegment(b.userSession);
      var existed := StoreSession(b, now);
      ghost var next := State();
      RememberMoves(st, b, now);
      if existed {
        ViewsStay(st.documents);
      } else {
        Announce(b.gameSession, [UsName(id)], st.documents);
      }
      assert State() == next;
    }

    /** IssueToken for a signed identity, up to where it will schedule the
        disconnect: fixed data first, then the session. */
    method IssueToken(gs: GameInfo, seed: seq<int>, b: Binding, now: Time) returns (r: Result<()>)
      requires Valid() && b.gameSession == gs.name
      requires Countable(State(), b) && Reissues(State(), b, now)
      modifies this`sessions, this`nextSequence, this`documents, this`life, To(gs.name)
      ensures Valid()
      ensures var ready := InitFixed(old(State()), gs, seed, now);
              if SeedRefused(old(State()), gs, seed) then r == Err(Internal) && State() == ready && life == old(life)
              else r == Ok(()) && State() == Remember(ready, b, now)
                   && life == Lifecycle.TokenIssued(old(life), LastSegment(b.userSession))
    {
      hide InitFixed, Remember, SeedRefused, Countable, Reissues, StoreOk, StoreSide, LastSegment, Lifecycle.LifeOk;
      SideIsOk();
      ReadyToJoin(State(), gs, seed, b, now);
      r := InitializeFixedData(gs, seed, now);
      if r.Ok? {
        JoinPending(b, now);
      }
    }

    /** The session joins, and its disconnect is still to be scheduled. */
    method JoinPending(b: Binding, now: Time)
      requires Valid() && FIXED in Of(documents, b.gameSession)
      requires Countable(State(), b) && Reissues(State(), b, now)
      modifies this`sessions, this`nextSequence, this`documents, this`life, To(b.gameSession)
      ensures Valid() && State() == Remember(old(State()), b, now)
      ensures life == Lifecycle.TokenIssued(old(life), LastSegment(b.userSession))
    {
      hide Remember, Countable, Reissues, StoreOk, StoreSide, LastSegment, Lifecycle.LifeOk;
      SideIsOk();
      RememberMoves(State(), b, now);
      Lifecycle.IssueKeeps(life, LastSegment(b.userSession), sessions.Keys);
      RememberSession(b, now);
      life := Lifecycle.TokenIssued(life, LastSegment(b.userSession));
    }

    // ----- writing -----

    /** WriteDocuments while it holds the map lock. */
    method CommitBatch(r: Request) returns (res: Result<seq<WriteResult>>, changed: set<string>)
      modifies this`documents, this`owners, this`globalValues, this`deferments
      ensures var c := Commit(old(State()), r);
              && (c.Ok? ==> State() == c.value.store && res == Ok(c.value.results) && changed == c.value.changed)
              && (c.Err? ==> State() == old(State()) && res == Err(c.code))
    {
      hide ApplyOps, ApplyDeferments;
      changed := {};
      if |r.ops| + |r.deferments| > 256 {
        return Err(ResourceExhausted), changed;
      }
      var owner, game := SessionId(r.session), r.session.gameSession;
      if owner !in sessions {
        return Err(Unauthenticated), changed;
      }
      var c := Context(r.session, sessions, r.now);
      var applied;
      applied, changed :=
        ApplyOperations(c, r.ops, Work(Of(documents, game), Of(owners, game), Of(globalValues, game)));
      if applied.Err? {
        return Err(applied.code), changed;
      }
      var (w, results) := applied.value;
      var deferred := ApplyDefermentsLoop(c, r.deferments, Of(deferments, owner), w.docs, w.owners);
      if deferred.Err? {
        return Err(deferred.code), changed;
      }
      documents := documents[game := w.docs];
      globalValues := globalValues[game := w.globals];
      owners := owners[game := w.owners];
      deferments := deferments[owner := deferred.value];
      res := Ok(results);
    }

    /** WriteDocuments for an authorized session: the batch's effect is exactly
        the store's commit, a failed batch changes nothing and sends nothing, and
        every view follows the committed documents. */
    method WriteDocuments(r: Request) returns (res: Result<seq<WriteResult>>)
      requires StoreSide()
      requires SessionId(r.session) in sessions ==> SameBinding(r.session, sessions[SessionId(r.session)])
      modifies this`documents, this`owners, this`globalValues, this`deferments, To(r.session.gameSession)
      ensures StoreSide()
      ensures var c := Commit(old(State()), r);
              && (c.Ok? ==> State() == c.value.store && res == Ok(c.value.results))
              && (c.Err? ==> State() == old(State()) && res == Err(c.code)
                             && forall s :: s in To(r.session.gameSession) ==> unchanged(s))
    {
      hide Commit, SameBinding, StoreOk, Announces;
      ghost var st := State();
      var game := r.session.gameSession;
      var changed;
      res, changed := CommitBatch(r);
      if res.Err? {
        return;
      }
      var names := SortNames(changed);
      CommittedBatch(st, r, names);
      ghost var next := State();
      Announce(game, names, st.documents);
      assert State() == next;
    }

    // ----- expiry -----

    method RemoveDocuments(game: string, names: set<string>)
      modifies this`documents, this`owners
      ensures documents == Without(old(documents), game, names) && owners == Without(old(owners), game, names)
    {
      var rest := names;
      WithoutNone(documents, game);
      WithoutNone(owners, game);
      assert names - names == {};
      while rest != {}
        invariant rest <= names
        invariant documents == Without(old(documents), game, names - rest)
        invariant owners == Without(old(owners), game, names - rest)
        decreases |rest|
      {
        var n :| n in rest;
        WithoutMore(old(documents), game, names - rest, n);
        WithoutMore(old(owners), game, names - rest, n);
        documents := Without(documents, game, {n});
        owners := Without(owners, game, {n});
        assert names - rest + {n} == names - (rest - {n});
        rest := rest - {n};
      }
      assert names - {} == names;
    }

    /** expireSession while it holds the map lock. */
    method RemoveSession(id: string) returns (deleted: set<string>)
      requires id in sessions
      modifies this`sessions, this`documents, this`owners, this`deferments
      ensures State() == Expire(old(State()), id) && deleted == Removed(old(State()), id)
    {
      var game := sessions[id].gameSession;
      var deferred := DeferredLoop(State(), id, game);
      var owned := OwnedLoop(Of(owners, game), id);
      deleted := {UsName(id)} + deferred + owned;
      RemoveDocuments(game, deleted);
      sessions := sessions - {id};
      deferments := deferments - {id};
    }

    /** What expireSession does to the store of a session that has to go. */
    method Depart(id: string)
      requires StoreSide() && id in sessions
      modifies this`sessions, this`documents, this`owners, this`deferments, To(sessions[id].gameSession)
      ensures StoreSide() && State() == Expire(old(State()), id)
    {
      hide Expire, Removed, StoreOk, Announces;
      ghost var st := State();
      var game := sessions[id].gameSession;
      var deleted := RemoveSession(id);
      ghost var next := State();
      var order := Walked(deleted);
      ExpiryMoves(st, id, order);
      Announce(game, order, st.documents);
      assert State() == next;
    }

    /** A timer runs: it expires the session exactly when it is still the
        session's current timer, no stream is open and the session is there.
        Otherwise nothing changes. */
    method ExpireSession(id: string, timer: nat)
      requires Valid()
      requires timer in life.armed && life.armed[timer] == id
      modifies this`sessions, this`documents, this`owners, this`deferments, this`disconnectTimers, this`streamCounts,
               this`life, if Lifecycle.Expires(life, id, timer, id in sessions) then To(sessions[id].gameSession) else {}
      ensures Valid()
      ensures var now := Lifecycle.Expires(old(life), id, timer, id in old(sessions));
              && life == Lifecycle.Fired(old(life), id, timer, id in old(sessions))
              && State() == (if now then Expire(old(State()), id) else old(State()))
    {
      hide Expire, StoreOk, StoreSide, Lifecycle.LifeOk;
      DueIsExpiring(id, timer);
      if Due(id, timer) {
        EndSession(id, timer);
      } else {
        Lifecycle.FireKeeps(life, id, timer, sessions.Keys);
        life := Lifecycle.Fired(life, id, timer, id in sessions);
      }
    }

    /** The session leaves the store, and its timer and count go with it. */
    method EndSession(id: string, timer: nat)
      requires Valid() && Due(id, timer) && timer in life.armed && life.armed[timer] == id
      modifies this`sessions, this`documents, this`owners, this`deferments, this`disconnectTimers, this`streamCounts,
               this`life, To(sessions[id].gameSession)
      ensures Valid() && State() == Expire(old(State()), id)
      ensures life == Lifecycle.Fired(old(life), id, timer, true)
    {
      hide Expire, StoreOk, StoreSide, Lifecycle.LifeOk;
      Lifecycle.FireKeeps(life, id, timer, sessions.Keys);
      ExpireKeepsSessions(State(), id);
      Depart(id);
      disconnectTimers := disconnectTimers - {id};
      streamCounts := streamCounts - {id};
      life := Lifecycle.Fired(life, id, timer, true);
      assert LifeTied();
    }

    lemma DueIsExpiring(id: string, timer: nat)
      requires Valid()
      ensures Due(id, timer) <==> Lifecycle.Expires(life, id, timer, id in sessions)
      ensures Due(id, timer) ==> id in sessions
    {
      hide StoreSide, Lifecycle.LifeOk;
    }

    predicate Due(id: string, timer: nat)
      reads this`streamCounts, this`disconnectTimers, this`sessions
    {
      !(id in streamCounts && streamCounts[id] > 0) && id in disconnectTimers && disconnectTimers[id] == timer && id in sessions
    }

    // ----- subscribing -----

    method AddSubscriber(game: string, s: Subscriber)
      requires StoreSide() && s !in audience && s.targets == map[]
      requires game in nextSequence && nextSequence[game] > 0
      modifies this`subscribers, this`audience
      ensures StoreSide() && audience == old(audience) + {s}
      ensures subscribers == old(subscribers)[game := old(To(game)) + {s}]
    {
      hide StoreOk;
      var was := To(game);
      subscribers := subscribers[game := was + {s}];
      audience := audience + {s};
    }

    method RemoveSubscriber(game: string, s: Subscriber)
      requires StoreSide()
      modifies this`subscribers
      ensures StoreSide() && forall g :: To(g) == if g == game then old(To(g)) - {s} else old(To(g))
    {
      hide StoreOk;
      if game in subscribers {
        var left := subscribers[game] - {s};
        subscribers := if left == {} then subscribers - {game} else subscribers[game := left];
      }
    }

    /** Under the publication lock a target is installed with the committed
        snapshot; its subscriber, still coherent, now follows it too. */
    method UpdateTarget(game: string, s: Subscriber, target: Target) returns (ok: bool)
      requires StoreSide() && s in To(game)
      modifies s
      ensures StoreSide()
      ensures s.targets == old(s.targets)[LastSegment(target.name) := target]
      ensures ok ==> s.broken == old(s.broken)
      ensures !ok ==> s.broken
    {
      hide StoreOk;
      var snapshot, names := CommittedSnapshot(Of(documents, game), target);
      NamedDocuments(State(), game);
      ok := s.InstallTarget(target, snapshot);
      if ok && !s.broken {
        forall tid | tid in s.targets ensures s.Seen(tid) == Restrict(Of(documents, game), s.targets[tid]) {
          InstalledView(old(s.log), target, Of(documents, game), names, tid);
        }
      }
      forall g, t | g in subscribers && t in subscribers[g] ensures t.Coherent(Of(documents, g)) {
        assert if t == s then g == game else old(t.Coherent(Of(documents, g)));
      }
    }

    method DropTarget(game: string, s: Subscriber, name: string) returns (ok: bool)
      requires StoreSide() && s in To(game)
      modifies s
      ensures StoreSide() && s.targets == old(s.targets) - {LastSegment(name)}
    {
      hide StoreOk;
      ok := s.DeleteTarget(name);
      if ok && !s.broken {
        forall tid | tid in s.targets ensures s.Seen(tid) == Restrict(Of(documents, game), s.targets[tid]) {
          ReplayOne(old(s.log), TargetDeleted(LastSegment(name)), tid);
        }
      }
      forall g, t | g in subscribers && t in subscribers[g] ensures t.Coherent(Of(documents, g)) {
        assert if t == s then g == game else old(t.Coherent(Of(documents, g)));
      }
    }

    // ----- streams and timers -----

    method StreamStarted(id: string, ghost stream: nat)
      requires Valid() && stream !in life.open
      modifies this`streamCounts, this`disconnectTimers, this`life
      ensures Valid() && life == Lifecycle.StreamStarted(old(life), stream, id)
    {
      hide StoreSide, Lifecycle.LifeOk;
      Lifecycle.StartKeeps(life, stream, id, sessions.Keys);
      streamCounts := streamCounts[id := (if id in streamCounts then streamCounts[id] else 0) + 1];
      if id in disconnectTimers {
        disconnectTimers := disconnectTimers - {id};
      }
      life := Lifecycle.StreamStarted(life, stream, id);
    }

    /** streamEnded up to where it releases the lock; the last stream must still
        schedule the disconnect. */
    method StreamEnded(id: string, ghost stream: nat) returns (last: bool)
      requires Valid() && stream in life.open && life.open[stream] == id
      modifies this`streamCounts, this`life
      ensures Valid() && life == Lifecycle.StreamEnded(old(life), stream)
      ensures last <==> Lifecycle.OpenOn(life, id) == {}
      ensures last ==> Lifecycle.Waiting(life, id) > 0
    {
      hide StoreSide;
      Lifecycle.EndKeeps(life, stream, sessions.Keys);
      streamCounts := streamCounts[id := (if id in streamCounts then streamCounts[id] else 0) - 1];
      last := streamCounts[id] <= 0;
      life := Lifecycle.StreamEnded(life, stream);
      assert Lifecycle.Count(life, id) == |Lifecycle.OpenOn(life, id)|;
    }

    method ScheduleDisconnect(id: string)
      requires Valid() && Lifecycle.Waiting(life, id) > 0
      modifies this`disconnectTimers, this`timersMade, this`life
      ensures Valid() && life == Lifecycle.Scheduled(old(life), id, old(timersMade))
    {
      hide StoreSide, Lifecycle.LifeOk;
      Lifecycle.ScheduleKeeps(life, id, timersMade, sessions.Keys);
      life := Lifecycle.Scheduled(life, id, timersMade);
      if id in streamCounts && streamCounts[id] > 0 {
        return;
      }
      disconnectTimers := disconnectTimers[id := timersMade];
      timersMade := timersMade + 1;
    }
  }

  /** Publishing these names tells one game session's subscribers everything
      that changed, and nothing else has changed. */
  ghost predicate Announces(game: string, names: seq<string>, was: map<string, Docs>, now: map<string, Docs>) {
    && (forall n :: n in Of(now, game) ==> Of(now, game)[n].name == n)
    && (forall n :: Get(Of(was, game), n) != Get(Of(now, game), n) ==> n in names)
    && (forall g :: g != game ==> Of(now, g) == Of(was, g))
  }

  /** What committing a batch leaves of the invariant's parts. */
  lemma CommittedBatch(st: Store, r: Request, names: seq<string>)
    requires StoreOk(st) && Commit(st, r).Ok? && Elements(names) == Commit(st, r).value.changed
    requires SessionId(r.session) in st.sessions ==> SameBinding(r.session, st.sessions[SessionId(r.session)])
    ensures var next := Commit(st, r).value.store;
            && StoreOk(next) && next.sessions == st.sessions && next.nextSequence == st.nextSequence
            && Announces(r.session.gameSession, names, st.documents, next.documents)
  {
    hide Commit, ApplyOps;
    var next, game := Commit(st, r).value.store, r.session.gameSession;
    CommitMoves(st, r);
    CommitKeeps(st, r);
    NamedDocuments(next, game);
    BatchTouchesOnlyItsNames(ContextOf(st, r), r.ops, WorkOn(st, game));
    forall n | Get(Of(st.documents, game), n) != Get(Of(next.documents, game), n) ensures n in names {
      assert n in Elements(names);
    }
    forall g | g != game ensures Of(next.documents, g) == Of(st.documents, g) {
      assert SameGame(st, next, g);
    }
  }

  lemma StoredSession(st: Store, b: Binding, now: Time)
    ensures var next, id, game := Remember(st, b, now), LastSegment(b.userSession), b.gameSession;
            var s := Remembered(st, b, now);
            && next == st.(sessions := next.sessions, nextSequence := next.nextSequence, documents := next.documents)
            && next.sessions == st.sessions[id := s]
            && next.documents == st.documents[game := Of(st.documents, game)[UsName(id) := UserDocument(s)]]
            && next.nextSequence
               == if id in st.sessions then st.nextSequence else st.nextSequence[game := Next(Joined(st, game))]
  {
    hide UserDocument, Remembered, LastSegment, UsName;
  }

  lemma StoreParts(st: Store, game: string)
    requires StoreOk(st)
    ensures RosterOk(st.sessions) && UsersOk(game, st.sessions, Of(st.documents, game))
  {
    assert GameOkIn(st, game);
  }

  /** What a join leaves of the invariant's parts. */
  lemma RememberMoves(st: Store, b: Binding, now: Time)
    requires StoreOk(st) && Countable(st, b) && Reissues(st, b, now)
    requires FIXED in Of(st.documents, b.gameSession)
    ensures var next, game, id := Remember(st, b, now), b.gameSession, LastSegment(b.userSession);
            && StoreOk(next) && next.sessions.Keys == st.sessions.Keys + {id}
            && CountersGrow(st.nextSequence, next.nextSequence)
            && Announces(game, [UsName(id)], st.documents, next.documents)
            && (id in st.sessions ==> forall g :: Of(next.documents, g) == Of(st.documents, g))
  {
    hide Remember, Reissues, StoreOk, UserDocument, UsersOk, RosterOk, Announces, Remembered, LastSegment, UsName;
    RememberKeeps(st, b, now);
    RememberCounter(st, b, now);
    RememberFrame(st, b, now, "");
    JoinAnnounces(st, b, now);
    if LastSegment(b.userSession) in st.sessions {
      ReissueMovesNothing(st, b, now);
    }
  }

  ghost predicate CountersGrow(was: map<string, int64>, now: map<string, int64>) {
    forall g :: g in was ==> g in now && was[g] <= now[g]
  }

  lemma JoinAnnounces(st: Store, b: Binding, now: Time)
    requires StoreOk(Remember(st, b, now))
    ensures Announces(b.gameSession, [UsName(LastSegment(b.userSession))], st.documents, Remember(st, b, now).documents)
  {
    hide Remember, Remembered, StoreOk, UserDocument, LastSegment, UsName;
    var next, game := Remember(st, b, now), b.gameSession;
    NamedDocuments(next, game);
    RememberFrame(st, b, now, game);
    forall g | g != game ensures Of(next.documents, g) == Of(st.documents, g) {
      RememberFrame(st, b, now, g);
    }
  }

  lemma ReissueMovesNothing(st: Store, b: Binding, now: Time)
    requires StoreOk(st) && Reissues(st, b, now)
    requires LastSegment(b.userSession) in st.sessions
    ensures forall g :: Of(Remember(st, b, now).documents, g) == Of(st.documents, g)
  {
    hide Remember, Remembered, StoreOk, Reissues, UserDocument, UsersOk, RosterOk, LastSegment, UsName;
    StoreParts(st, b.gameSession);
    ReissueRewritesEqual(st, b, now);
    forall g ensures Of(Remember(st, b, now).documents, g) == Of(st.documents, g) {
      if g != b.gameSession {
        RememberFrame(st, b, now, g);
      }
    }
  }

  /** Fixed data appears only where nobody has joined yet. */
  lemma InitFixedMoves(st: Store, g: GameInfo, seed: seq<int>, now: Time)
    requires StoreOk(st)
    ensures var next := InitFixed(st, g, seed, now);
            && StoreOk(next) && next.sessions == st.sessions && next.nextSequence == st.nextSequence
            && forall game :: Joined(st, game) > 0 ==> Of(next.documents, game) == Of(st.documents, game)
  {
    hide InitFixed, FixedDocument;
    InitFixedKeeps(st, g, seed, now);
    InitFixedFrame(st, g, seed, now, "");
    forall game | Joined(st, game) > 0 ensures Of(InitFixed(st, g, seed, now).documents, game) == Of(st.documents, game) {
      InitFixedFrame(st, g, seed, now, game);
    }
  }

  lemma WithoutNone<V>(m: map<string, map<string, V>>, key: string)
    ensures Without(m, key, {}) == m
  {
    if key in m {
      assert m[key] - {} == m[key];
    }
  }

  lemma WithoutMore<V>(m: map<string, map<string, V>>, key: string, names: set<string>, n: string)
    ensures Without(Without(m, key, names), key, {n}) == Without(m, key, names + {n})
  {
    if key in m {
      assert m[key] - names - {n} == m[key] - (names + {n});
    }
  }

  lemma InstalledView(was: Log, target: Target, docs: Docs, names: seq<string>, tid: string)
    requires SnapshotNames(names, docs, target) && forall n :: n in docs ==> docs[n].name == n
    requires forall n :: n in names ==> n in docs
    ensures var id := LastSegment(target.name);
            Replay(was + Installed(id, Snapshot(docs, names)), tid)
            == if tid == id then Restrict(docs, target) else Replay(was, tid)
  {
    ReplayAppend(map[], was, Installed(LastSegment(target.name), Snapshot(docs, names)), tid);
    ReplayInstalled(Replay(was, tid), LastSegment(target.name), target, docs, names, tid);
  }

  lemma ExpireKeepsSessions(st: Store, id: string)
    requires id in st.sessions
    ensures Expire(st, id).sessions == st.sessions - {id}
  {
  }

  /** Once the fixed data is there, whoever could join before still can. */
  lemma ReadyToJoin(st: Store, gs: GameInfo, seed: seq<int>, b: Binding, now: Time)
    requires StoreOk(st) && Countable(st, b) && Reissues(st, b, now)
    ensures var ready := InitFixed(st, gs, seed, now);
            && StoreOk(ready) && ready.sessions == st.sessions && ready.nextSequence == st.nextSequence
            && Countable(ready, b) && Reissues(ready, b, now)
            && (!SeedRefused(st, gs, seed) ==> FIXED in Of(ready.documents, gs.name))
  {
    InitFixedKeeps(st, gs, seed, now);
    InitFixedFrame(st, gs, seed, now, "");
  }

  /** What an expiry leaves of the invariant's parts. */
  lemma ExpiryMoves(st: Store, id: string, order: seq<string>)
    requires StoreOk(st) && id in st.sessions && Elements(order) == Removed(st, id)
    ensures var next := Expire(st, id);
            && StoreOk(next) && next.nextSequence == st.nextSequence && next.sessions == st.sessions - {id}
            && Announces(st.sessions[id].gameSession, order, st.documents, next.documents)
  {
    hide Expire, Removed;
    var next, game := Expire(st, id), st.sessions[id].gameSession;
    ExpireKeeps(st, id);
    NamedDocuments(next, game);
    ExpireFrame(st, id, game);
    forall n | Get(Of(st.documents, game), n) != Get(Of(next.documents, game), n) ensures n in order {
      assert n in Elements(order);
    }
    forall g | g != game ensures Of(next.documents, g) == Of(st.documents, g) {
      ExpireFrame(st, id, g);
    }
  }
}
