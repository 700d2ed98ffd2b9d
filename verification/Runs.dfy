// What every run of the Gamesync machine keeps, from the empty server on.

module Runs {
  import opened Wrappers
  import opened Values
  import opened Text
  import opened Documents
  import opened Batch
  import opened Store
  import opened Push
  import opened Lifecycle
  import opened Machine
  import Guards
  import Counters

  // ----- subscriptions -----

  /** Subscription coherence: in every reachable state whose publication lock is
      free, a live subscriber that replays its messages sees, for each installed
      target, exactly the committed documents of its game session that match
      it. */
  lemma SubscriptionsAreCoherent(run: seq<Action>, i: nat, k: nat, tid: string)
    requires IsRun(START, run) && i <= |run|
    requires !At(START, run, i).busy && k in At(START, run, i).subs && At(START, run, i).subs[k].live
    requires tid in At(START, run, i).subs[k].targets
    ensures var m := At(START, run, i);
            var s := m.subs[k];
            Replay(s.log, tid) == Restrict(Of(m.store.documents, s.game), s.targets[tid])
  {
    StartOk();
    RunKeeps(START, run, i);
    var m := At(START, run, i);
    var s := m.subs[k];
    assert SubOk(s, Of(m.store.documents, s.game));
    ConvergedView(Replay(s.log, tid), s.targets[tid], Of(m.store.documents, s.game));
  }

  /** A first member joins: the run predicate can be met. */
  lemma FirstMember(g: GameInfo, seed: seq<int>, b: Binding, now: Time) returns (run: seq<Action>)
    requires 16 <= |seed| <= 64 && b.gameSession == g.name && LastSegment(b.userSession) != ""
    ensures |run| == 3 && IsRun(START, run) && TimedRun(START, run)
    ensures var m, id := At(START, run, 3), LastSegment(b.userSession);
            && id in m.store.sessions && m.store.sessions[id].sequence == 1 && UsName(id) in Of(m.store.documents, g.name)
            && SessionId(m.store.sessions[id]) == id && m.store.sessions[id].gameSession == g.name
            && Authorized(m, m.store.sessions[id])
            && !m.busy && m.subs == map[] && m.clock == 0
  {
    hide FixedDocument, LastSegment, UserDocument, At, Step, Enabled;
    run := [InitFixedData(g, seed, now), RememberSession(b, now), Release];
    AtSteps(START, run);
    FirstSeeded(g, seed, now);
    FirstJoined(Step(START, run[0]).store, b, now);
    forall i | 0 <= i < |run| ensures Enabled(At(START, run, i), run[i]) && CommitsLater(At(START, run, i), run[i]) {
      assert i == 0 || i == 1 || i == 2;
    }
  }

  lemma FirstSeeded(g: GameInfo, seed: seq<int>, now: Time)
    requires 16 <= |seed| <= 64
    ensures var a := InitFixedData(g, seed, now);
            var m := Step(START, a);
            && Enabled(START, a) && m == START.(store := m.store) && FIXED in Of(m.store.documents, g.name)
            && m.store.sessions == map[] && m.store.nextSequence == map[]
  {
    hide FixedDocument;
    StartOk();
    InitFixedFrame(EMPTY, g, seed, now, g.name);
    InitFixedKeeps(EMPTY, g, seed, now);
  }

  lemma FirstJoined(st: Store, b: Binding, now: Time)
    requires st.sessions == map[] && st.nextSequence == map[] && FIXED in Of(st.documents, b.gameSession)
    requires LastSegment(b.userSession) != ""
    ensures var a, id := RememberSession(b, now), LastSegment(b.userSession);
            var m := Step(START.(store := st), a);
            && Enabled(START.(store := st), a) && m.subs == map[] && m.clock == 0 && m.busy
            && id in m.store.sessions && m.store.sessions[id].sequence == 1
            && SessionId(m.store.sessions[id]) == id && m.store.sessions[id].gameSession == b.gameSession
            && UsName(id) in Of(m.store.documents, b.gameSession) && Authorized(m, m.store.sessions[id])
            && Enabled(m, Release) && Step(m, Release) == m.(busy := false)
  {
    hide LastSegment, UserDocument;
    RememberFrame(st, b, now, b.gameSession);
  }

  lemma AtSteps(m: Machine, run: seq<Action>)
    requires |run| == 3
    ensures At(m, run, 0) == m && At(m, run, 1) == Step(m, run[0]) && At(m, run, 2) == Step(Step(m, run[0]), run[1])
    ensures At(m, run, 3) == Step(Step(Step(m, run[0]), run[1]), run[2])
  {
    hide Step;
  }

  /** A run continued by another from where it ended. */
  lemma {:induction false} AtAppend(m: Machine, xs: seq<Action>, ys: seq<Action>, i: nat)
    requires i <= |xs| + |ys|
    ensures At(m, xs + ys, i) == if i <= |xs| then At(m, xs, i) else At(At(m, xs, |xs|), ys, i - |xs|)
  {
    hide Step;
    if i > 0 {
      AtAppend(m, xs, ys, i - 1);
    }
  }

  lemma RunsAppend(m: Machine, xs: seq<Action>, ys: seq<Action>)
    requires IsRun(m, xs) && TimedRun(m, xs) && IsRun(At(m, xs, |xs|), ys) && TimedRun(At(m, xs, |xs|), ys)
    ensures IsRun(m, xs + ys) && TimedRun(m, xs + ys)
  {
    hide At, Enabled, CommitsLater;
    forall i | 0 <= i < |xs + ys|
      ensures Enabled(At(m, xs + ys, i), (xs + ys)[i]) && CommitsLater(At(m, xs + ys, i), (xs + ys)[i])
    {
      AtAppend(m, xs, ys, i);
      if i >= |xs| {
        StartsThere(At(m, xs, |xs|), ys);
      }
    }
  }

  lemma StartsThere(m: Machine, run: seq<Action>)
    ensures At(m, run, 0) == m
  {
  }

  // ----- identity -----

  lemma RunStep(m: Machine, run: seq<Action>, i: nat)
    requires IsRun(m, run) && i < |run|
    ensures Enabled(At(m, run, i), run[i]) && At(m, run, i + 1) == Step(At(m, run, i), run[i])
  {
    hide Enabled, Step;
  }

  lemma RosterStep(m: Machine, a: Action)
    ensures forall id :: id in m.roster ==> id in Step(m, a).roster && Step(m, a).roster[id] == m.roster[id]
  {
  }

  lemma {:induction false} RosterGrows(m: Machine, run: seq<Action>, i: nat, j: nat, id: string)
    requires IsRun(m, run) && i <= j <= |run| && id in At(m, run, i).roster
    ensures id in At(m, run, j).roster && At(m, run, j).roster[id] == At(m, run, i).roster[id]
    decreases j
  {
    hide *;
    if i < j {
      RosterGrows(m, run, i, j - 1, id);
      RunStep(m, run, j - 1);
      RosterStep(At(m, run, j - 1), run[j - 1]);
    }
  }

  /** While an id is live, whatever was read of its session earlier still holds:
      a write may use the session it was authorized with. */
  lemma BindingsAreStable(m: Machine, run: seq<Action>, i: nat, j: nat, id: string)
    requires MachineOk(m) && IsRun(m, run) && i <= j <= |run|
    requires id in At(m, run, i).store.sessions && id in At(m, run, j).store.sessions
    ensures SameBinding(At(m, run, i).store.sessions[id], At(m, run, j).store.sessions[id])
  {
    RunKeeps(m, run, i);
    RunKeeps(m, run, j);
    RosterGrows(m, run, i, j, id);
  }

  /** Sequences are never reused: two ids that were ever members of one game
      session, at whatever times, have different sequences. */
  lemma SequencesAreUnique(m: Machine, run: seq<Action>, i: nat, j: nat, a: string, b: string)
    requires MachineOk(m) && IsRun(m, run) && i <= j <= |run|
    requires a in At(m, run, i).store.sessions && b in At(m, run, j).store.sessions && a != b
    requires At(m, run, i).store.sessions[a].gameSession == At(m, run, j).store.sessions[b].gameSession
    ensures At(m, run, i).store.sessions[a].sequence != At(m, run, j).store.sessions[b].sequence
  {
    hide At, IsRun, TimesOk, SubsOk, LifeOk;
    RunKeeps(m, run, i);
    RunKeeps(m, run, j);
    RosterGrows(m, run, i, j, a);
  }

  lemma PlayerOwner(st: Store, game: string, collection: string, q: nat)
    requires StoreOk(st) && (collection == "p" || collection == "e")
    requires Name(collection, FormatInt(q)) in Of(st.owners, game)
    ensures var id := Of(st.owners, game)[Name(collection, FormatInt(q))];
            && id in st.sessions && st.sessions[id].gameSession == game && st.sessions[id].sequence == q
  {
    hide SequencesOk, DocumentPath, Attributed, Name;
    var n := Name(collection, FormatInt(q));
    assert GameOkIn(st, game);
    var s := st.sessions[Of(st.owners, game)[n]];
    OwnNumber(collection, FormatInt(q), Of(st.documents, game)[n].fields, s);
    DigitsInjective(q, s.sequence);
  }

  lemma OwnNumber(collection: string, id: string, f: Fields, s: Session)
    requires (collection == "p" || collection == "e") && '/' !in id && Attributed(Name(collection, id), f, s)
    ensures id == FormatInt(s.sequence)
  {
    hide FormatInt;
    SplitName(collection, id);
    assert DocumentPath(Name(collection, id)) == Some((collection, id));
  }

  /** docs/p/q and docs/e/q belong to the one session whose sequence is q, over
      the whole run: whoever owns one at any time owns the other at any other. */
  lemma PlayerDocumentsHaveOneOwner(m: Machine, run: seq<Action>, i: nat, j: nat, game: string, c: string, d: string,
                                    q: nat)
    requires MachineOk(m) && IsRun(m, run) && i <= j <= |run|
    requires c in {"p", "e"} && d in {"p", "e"}
    requires Name(c, FormatInt(q)) in Of(At(m, run, i).store.owners, game)
    requires Name(d, FormatInt(q)) in Of(At(m, run, j).store.owners, game)
    ensures Of(At(m, run, i).store.owners, game)[Name(c, FormatInt(q))]
            == Of(At(m, run, j).store.owners, game)[Name(d, FormatInt(q))]
  {
    hide At, IsRun, HistoryOk, TimesOk, SubsOk, LifeOk, FormatInt, Name;
    RunKeeps(m, run, i);
    RunKeeps(m, run, j);
    PlayerOwner(At(m, run, i).store, game, c, q);
    PlayerOwner(At(m, run, j).store, game, d, q);
    var a := Of(At(m, run, i).store.owners, game)[Name(c, FormatInt(q))];
    var b := Of(At(m, run, j).store.owners, game)[Name(d, FormatInt(q))];
    if a != b {
      SequencesAreUnique(m, run, i, j, a, b);
    }
  }

  lemma FixedIsThere(m: Machine, game: string)
    requires MachineOk(m)
    ensures FIXED in Of(m.store.documents, game)
            || !exists id :: id in m.roster && m.roster[id].gameSession == game
  {
    hide GameOkIn, TimesIn, SubsOk, LifeOk;
    forall id | id in m.roster && m.roster[id].gameSession == game ensures FIXED in Of(m.store.documents, game) {
      assert Joined(m.store, game) > 0;
    }
  }

  lemma FixedDataStep(m: Machine, a: Action, game: string)
    requires MachineOk(m) && Enabled(m, a) && FIXED in Of(m.store.documents, game)
    ensures Get(Of(Step(m, a).store.documents, game), FIXED) == Get(Of(m.store.documents, game), FIXED)
    ensures FIXED in Of(Step(m, a).store.documents, game)
  {
    hide Enabled, StoreAfter, StoreOk, HistoryOk, TimesOk, SubsOk, LifeOk;
    FixedStays(m, a, game);
  }

  /** The fixed data is there before the first member and never changes. */
  lemma {:induction false} FixedDataIsImmutable(m: Machine, run: seq<Action>, i: nat, j: nat, game: string)
    requires MachineOk(m) && IsRun(m, run) && i <= j <= |run|
    requires FIXED in Of(At(m, run, i).store.documents, game)
             || exists id :: id in At(m, run, i).roster && At(m, run, i).roster[id].gameSession == game
    ensures FIXED in Of(At(m, run, i).store.documents, game) && FIXED in Of(At(m, run, j).store.documents, game)
    ensures Get(Of(At(m, run, j).store.documents, game), FIXED) == Get(Of(At(m, run, i).store.documents, game), FIXED)
    decreases j
  {
    hide *;
    RunKeeps(m, run, i);
    FixedIsThere(At(m, run, i), game);
    if i < j {
      FixedDataIsImmutable(m, run, i, j - 1, game);
      RunKeeps(m, run, j - 1);
      RunStep(m, run, j - 1);
      FixedDataStep(At(m, run, j - 1), run[j - 1], game);
    }
  }

  // ----- streams and timers -----

  lemma StaysLive(m: Machine, a: Action, id: string)
    requires LifeOk(m.life, m.store.sessions.Keys) && id in m.store.sessions && OpenOn(m.life, id) != {}
    ensures id in LiveAfter(m, a)
  {
    var stream :| stream in OpenOn(m.life, id);
    if Expiring(m, a) {
      OpenStreamIsSafe(m.life, m.store.sessions.Keys, stream, a.timer);
    }
  }

  lemma StreamStep(m: Machine, a: Action, id: string)
    requires MachineOk(m) && Enabled(m, a) && id in m.store.sessions && OpenOn(m.life, id) != {}
    ensures id in Step(m, a).store.sessions
  {
    hide Enabled, StoreAfter, LiveAfter, StoreOk, HistoryOk, TimesOk, SubsOk, LifeOk, OpenOn;
    StaysLive(m, a, id);
    LiveAfterIs(m, a);
  }

  /** A session is never expired while it has an open stream. */
  lemma {:induction false} StreamKeepsSessionLive(m: Machine, run: seq<Action>, i: nat, j: nat, id: string)
    requires MachineOk(m) && IsRun(m, run) && i <= j <= |run| && id in At(m, run, i).store.sessions
    requires forall k :: i <= k < j ==> OpenOn(At(m, run, k).life, id) != {}
    ensures id in At(m, run, j).store.sessions
    decreases j
  {
    hide *;
    if i < j {
      StreamKeepsSessionLive(m, run, i, j - 1, id);
      RunKeeps(m, run, j - 1);
      RunStep(m, run, j - 1);
      StreamStep(At(m, run, j - 1), run[j - 1], id);
    }
  }

  /** In every reachable state the counts are the open streams, an open stream
      leaves no current timer, and a live session without stream or pending
      schedule call has a current timer that has not run, whose firing expires
      it. */
  lemma SessionsAreWatched(run: seq<Action>, i: nat, id: string)
    requires IsRun(START, run) && i <= |run|
    ensures var m := At(START, run, i);
            && Count(m.life, id) == |OpenOn(m.life, id)|
            && (OpenOn(m.life, id) != {} ==> id !in m.life.timers)
            && (id in m.store.sessions && OpenOn(m.life, id) == {} && Waiting(m.life, id) == 0 ==>
                  && HasTimer(m.life, id)
                  && Expires(m.life, id, m.life.timers[id], true))
  {
    StartOk();
    RunKeeps(START, run, i);
  }

  /** A timer that is no longer current changes neither the store, nor the
      subscribers, nor the counts and timers. */
  lemma LateTimerIsInert(m: Machine, a: Action)
    requires a.FireTimer? && !(a.id in m.life.timers && m.life.timers[a.id] == a.timer)
    ensures Step(m, a) == m.(life := m.life.(fired := m.life.fired + {a.timer}))
  {
  }

  // ----- optimistic concurrency -----

  /** Every commit of the run is later than all commits before it. */
  ghost predicate TimedRun(m: Machine, run: seq<Action>) {
    forall i :: 0 <= i < |run| ==> CommitsLater(At(m, run, i), run[i])
  }

  ghost predicate CommitsLater(m: Machine, a: Action) {
    Commits(m, a) ==> a.request.now > m.clock
  }

  lemma TimedStep(m: Machine, run: seq<Action>, i: nat)
    requires TimedRun(m, run) && i < |run|
    ensures Commits(At(m, run, i), run[i]) ==> run[i].request.now > At(m, run, i).clock
  {
    hide At, Commit;
  }

  lemma {:induction false} ClockAdvances(m: Machine, run: seq<Action>, i: nat, j: nat)
    requires IsRun(m, run) && i <= j <= |run|
    ensures At(m, run, i).clock <= At(m, run, j).clock
    decreases j
  {
    hide *;
    if i < j {
      ClockAdvances(m, run, i, j - 1);
      RunStep(m, run, j - 1);
      ClockStep(At(m, run, j - 1), run[j - 1]);
    }
  }

  lemma ClockStep(m: Machine, a: Action)
    requires Enabled(m, a)
    ensures m.clock <= Step(m, a).clock
  {
  }

  lemma SpentStep(m: Machine, a: Action, game: string, n: string, t: Time)
    requires StoreOk(m.store) && Enabled(m, a) && ClientName(n) && (Commits(m, a) ==> t < a.request.now)
    requires Guards.Spent(Of(m.store.documents, game), n, t)
    ensures Guards.Spent(Of(StoreAfter(m, a).documents, game), n, t)
  {
    hide InitFixed, Remember, Commit, Expire, Removed;
    ClientNamesApart(n);
    match a
    case InitFixedData(g, seed, now) =>
      InitFixedFrame(m.store, g, seed, now, game);
      assert Get(Of(StoreAfter(m, a).documents, game), n) == Get(Of(m.store.documents, game), n);
    case RememberSession(b, now) =>
      RememberFrame(m.store, b, now, game);
      UsNameInjective(LastSegment(b.userSession), "");
    case WriteDocuments(r, _) =>
      if Commit(m.store, r).Ok? {
        SpentCommit(m.store, r, game, n, t);
      }
    case FireTimer(id, _, _) =>
      if Expiring(m, a) {
        ExpireFrame(m.store, id, game);
      }
    case _ =>
  }

  lemma SpentRunStep(m: Machine, a: Action, game: string, n: string, t: Time)
    requires MachineOk(m) && Enabled(m, a) && ClientName(n) && (Commits(m, a) ==> t < a.request.now)
    requires Guards.Spent(Of(m.store.documents, game), n, t)
    ensures Guards.Spent(Of(Step(m, a).store.documents, game), n, t)
  {
    hide Enabled, StoreAfter, StoreOk, HistoryOk, TimesOk, SubsOk, LifeOk, Guards.Spent, Commit;
    SpentStep(m, a, game, n, t);
  }

  lemma SpentCommit(st: Store, r: Request, game: string, n: string, t: Time)
    requires Commit(st, r).Ok? && t < r.now && Guards.Spent(Of(st.documents, game), n, t)
    ensures Guards.Spent(Of(Commit(st, r).value.store.documents, game), n, t)
  {
    CommitMoves(st, r);
    if game == r.session.gameSession {
      Guards.OpsKeepSpent(ContextOf(st, r), r.ops, WorkOn(st, game), n, t);
    } else {
      assert SameGame(st, Commit(st, r).value.store, game);
    }
  }

  lemma {:induction false} SpentForever(m: Machine, run: seq<Action>, i: nat, j: nat, game: string, n: string, t: Time)
    requires MachineOk(m) && IsRun(m, run) && TimedRun(m, run)
    requires i <= j <= |run| && ClientName(n) && t <= At(m, run, i).clock
    requires Guards.Spent(Of(At(m, run, i).store.documents, game), n, t)
    ensures Guards.Spent(Of(At(m, run, j).store.documents, game), n, t)
    decreases j
  {
    hide *;
    if i < j {
      SpentForever(m, run, i, j - 1, game, n, t);
      RunKeeps(m, run, j - 1);
      ClockAdvances(m, run, i, j - 1);
      RunStep(m, run, j - 1);
      TimedStep(m, run, j - 1);
      SpentRunStep(At(m, run, j - 1), run[j - 1], game, n, t);
    }
  }

  /** The i-th action committed a batch in this game session guarded by update
      time t on document n. */
  ghost predicate CommittedGuarded(m: Machine, run: seq<Action>, i: nat, game: string, n: string, t: Time)
    requires i < |run|
  {
    && Commits(At(m, run, i), run[i])
    && run[i].request.session.gameSession == game
    && Guards.GuardedBy(run[i].request.ops, n, t)
  }

  lemma GuardSpentByCommit(m: Machine, a: Action, n: string, t: Time)
    requires MachineOk(m) && Enabled(m, a) && Commits(m, a) && a.request.now > m.clock
    requires Guards.GuardedBy(a.request.ops, n, t) && t != a.request.now
    ensures ClientName(n) && t < a.request.now
    ensures Guards.Spent(Of(Step(m, a).store.documents, a.request.session.gameSession), n, t)
  {
    var r, game := a.request, a.request.session.gameSession;
    var c, w := ContextOf(m.store, r), WorkOn(m.store, game);
    CommitMoves(m.store, r);
    BatchTouchesOnlyItsNames(c, r.ops, w);
    GuardNames(r.ops, n, t);
    Guards.GuardTimeWasStored(c, r.ops, w, n, t);
    StoredTime(m, game, n);
    Guards.GuardIsSpent(c, r.ops, w, n, t);
  }

  lemma CommittedClock(m: Machine, a: Action)
    requires Commits(m, a) && a.request.now > m.clock
    ensures Step(m, a).clock == a.request.now
  {
  }

  lemma GuardNames(ops: seq<WriteOp>, n: string, t: Time)
    requires Guards.GuardedBy(ops, n, t)
    ensures n in NamesOf(ops)
  {
    var i :| 0 <= i < |ops| && Guards.GuardsOn(ops[i], n, t);
    assert NameOf(ops[i]) == n;
  }

  lemma StoredTime(m: Machine, game: string, n: string)
    requires MachineOk(m) && ClientName(n) && n in Of(m.store.documents, game)
    ensures Of(m.store.documents, game)[n].updateTime <= m.clock
  {
    assert GameOkIn(m.store, game) && TimesIn(m.store, game, m.clock);
    ClientNamesApart(n);
  }

  /** Optimistic concurrency, with increasing commit times: of two committed
      batches guarded by the same update time on the same document, the second
      can only be there when the time they name is the first batch's own commit
      time, which no document carried before. */
  lemma GuardCommitsOnce(m: Machine, run: seq<Action>, i: nat, j: nat, game: string, n: string, t: Time)
    requires MachineOk(m) && IsRun(m, run) && TimedRun(m, run) && i < j < |run|
    requires CommittedGuarded(m, run, i, game, n, t) && CommittedGuarded(m, run, j, game, n, t)
    ensures t == run[i].request.now
  {
    hide At, IsRun, TimedRun, MachineOk, Step, Enabled, Commit, Guards.GuardedBy, Guards.Spent, ClientName;
    RunKeeps(m, run, i);
    if t != run[i].request.now {
      RunStep(m, run, i);
      RunStep(m, run, j);
      TimedStep(m, run, i);
      TimedStep(m, run, j);
      CommittedClock(At(m, run, i), run[i]);
      GuardSpentByCommit(At(m, run, i), run[i], n, t);
      SpentForever(m, run, i + 1, j, game, n, t);
      ClockAdvances(m, run, i + 1, j);
      SpentGuardRefuses(At(m, run, j), run[j], n, t);
    }
  }

  /** What a caller can check beforehand: a guard time not above the latest
      commit time, as every time it may have read is, lets at most one batch
      through. */
  lemma PastGuardCommitsOnce(m: Machine, run: seq<Action>, i: nat, j: nat, game: string, n: string, t: Time)
    requires MachineOk(m) && IsRun(m, run) && TimedRun(m, run) && i < j < |run|
    requires t <= At(m, run, i).clock && CommittedGuarded(m, run, i, game, n, t)
    ensures !CommittedGuarded(m, run, j, game, n, t)
  {
    hide At, IsRun, TimedRun, MachineOk, Commit, Guards.GuardedBy;
    TimedStep(m, run, i);
    if CommittedGuarded(m, run, j, game, n, t) {
      GuardCommitsOnce(m, run, i, j, game, n, t);
    }
  }

  // The failing pair: a batch that guards its second write by its own commit
  // time, and a later batch with the same guard.

  function OwnTimeBatch(s: Session, t: Time): Request {
    Request(s, [Guards.PlayerWrite(s, None), Guards.PlayerWrite(s, Some(t))], [], t)
  }

  function GuardedBatch(s: Session, t: Time, now: Time): Request {
    Request(s, [Guards.PlayerWrite(s, Some(t))], [], now)
  }

  function PlayerName(s: Session): string {
    Name("p", FormatInt(s.sequence))
  }

  lemma OwnTimeCommits(st: Store, s: Session, t: Time, now: Time)
    requires SessionId(s) in st.sessions && s.sequence >= 0
    ensures var first := Commit(st, OwnTimeBatch(s, t));
            && first.Ok? && first.value.changed == {PlayerName(s)}
            && Guards.GuardedBy(OwnTimeBatch(s, t).ops, PlayerName(s), t)
            && var second := Commit(first.value.store, GuardedBatch(s, t, now));
            && second.Ok? && second.value.changed == {PlayerName(s)}
            && Guards.GuardedBy(GuardedBatch(s, t, now).ops, PlayerName(s), t)
  {
    hide ApplyOps, ApplyOp, Guards.GuardedBy;
    var r, r2, game := OwnTimeBatch(s, t), GuardedBatch(s, t, now), s.gameSession;
    Guards.OwnTimeGuardsTwice(ContextOf(st, r), Context(s, st.sessions, now), WorkOn(st, game));
    assert ApplyDeferments(ContextOf(st, r), [], Of(st.deferments, SessionId(s)), map[], map[]).Ok?;
    CommitMoves(st, r);
    OwnTimeNames(s, t);
  }

  lemma OwnTimeNames(s: Session, t: Time)
    ensures NamesOf([Guards.PlayerWrite(s, None), Guards.PlayerWrite(s, Some(t))]) == {PlayerName(s)}
    ensures NamesOf([Guards.PlayerWrite(s, Some(t))]) == {PlayerName(s)}
  {
    var ops := [Guards.PlayerWrite(s, None), Guards.PlayerWrite(s, Some(t))];
    assert NameOf(ops[0]) == PlayerName(s) && NameOf([ops[1]][0]) == PlayerName(s);
  }

  /** Both batches of the failing pair, as a run from any quiet state with a live
      member and no streams. */
  lemma OwnTimePair(m: Machine, s: Session, t: Time, now: Time) returns (run: seq<Action>)
    requires !m.busy && m.subs == map[] && SessionId(s) in m.store.sessions && s.sequence >= 0 && Authorized(m, s)
    requires m.clock < t < now
    ensures |run| == 3 && IsRun(m, run) && TimedRun(m, run)
    ensures CommittedGuarded(m, run, 0, s.gameSession, PlayerName(s), t)
    ensures CommittedGuarded(m, run, 2, s.gameSession, PlayerName(s), t)
  {
    hide Commit, Guards.GuardedBy, At, OwnTimeBatch, GuardedBatch, PlayerName;
    var n := PlayerName(s);
    run := [WriteDocuments(OwnTimeBatch(s, t), [n]), Release, WriteDocuments(GuardedBatch(s, t, now), [n])];
    OwnTimeCommits(m.store, s, t, now);
    OwnTimeShapes(s, t, now);
    var m1 := Step(m, run[0]);
    var m2 := Step(m1, run[1]);
    CommitKeepsSessions(m.store, OwnTimeBatch(s, t));
    assert Elements([n]) == {n};
    assert m1.subs == map[];
    AtSteps(m, run);
    forall i | 0 <= i < |run| ensures Enabled(At(m, run, i), run[i]) && CommitsLater(At(m, run, i), run[i]) {
      assert i == 0 || i == 1 || i == 2;
    }
  }

  lemma OwnTimeShapes(s: Session, t: Time, now: Time)
    ensures OwnTimeBatch(s, t).session == s && OwnTimeBatch(s, t).now == t
    ensures GuardedBatch(s, t, now).session == s && GuardedBatch(s, t, now).now == now
  {
  }

  /** The failing pair as a run of the whole machine with increasing commit
      times: so single use of a guard needs the condition GuardCommitsOnce
      gives. */
  lemma GuardCommitsTwice(g: GameInfo, seed: seq<int>, b: Binding, joined: Time, t: Time, now: Time)
    returns (run: seq<Action>, n: string)
    requires 16 <= |seed| <= 64 && b.gameSession == g.name && LastSegment(b.userSession) != "" && 0 < t < now
    ensures |run| == 6 && IsRun(START, run) && TimedRun(START, run)
    ensures CommittedGuarded(START, run, 3, g.name, n, t) && CommittedGuarded(START, run, 5, g.name, n, t)
  {
    hide At, IsRun, TimedRun, Commit, Authorized, LastSegment, Guards.GuardedBy;
    var start := FirstMember(g, seed, b, joined);
    var m := At(START, start, 3);
    var s := m.store.sessions[LastSegment(b.userSession)];
    var pair := OwnTimePair(m, s, t, now);
    run, n := start + pair, PlayerName(s);
    RunsAppend(START, start, pair);
    AtAppend(START, start, pair, 3);
    AtAppend(START, start, pair, 5);
    StartsThere(m, pair);
  }

  lemma SpentGuardRefuses(m: Machine, a: Action, n: string, t: Time)
    requires Commits(m, a) && Guards.GuardedBy(a.request.ops, n, t) && t < a.request.now
    ensures !Guards.Spent(Of(m.store.documents, a.request.session.gameSession), n, t)
  {
    var r, game := a.request, a.request.session.gameSession;
    CommitMoves(m.store, r);
    if Guards.Spent(Of(m.store.documents, game), n, t) {
      Guards.SpentGuardFails(ContextOf(m.store, r), r.ops, WorkOn(m.store, game), n, t);
    }
  }

  // ----- create-only writes -----

  /** The action deletes document n of the game session: by a delete operation of
      a committed batch, or by expiring its owner. */
  ghost predicate Deletes(m: Machine, a: Action, game: string, n: string) {
    || (Commits(m, a) && a.request.session.gameSession == game
        && exists k :: 0 <= k < |a.request.ops| && a.request.ops[k].Delete? && a.request.ops[k].name == n)
    || (Expiring(m, a) && m.store.sessions[a.id].gameSession == game && n in Removed(m.store, a.id))
  }

  lemma OnlyDeletionRemoves(m: Machine, a: Action, game: string, n: string)
    requires Enabled(m, a) && n in Of(m.store.documents, game) && !Deletes(m, a, game, n)
    ensures n in Of(Step(m, a).store.documents, game)
  {
    hide InitFixed, Remember, Commit, Expire, Removed;
    match a
    case InitFixedData(g, seed, now) =>
      InitFixedFrame(m.store, g, seed, now, game);
      assert Get(Of(m.store.documents, game), n).Some?;
    case RememberSession(b, now) => RememberFrame(m.store, b, now, game);
    case WriteDocuments(r, _) =>
      if Commit(m.store, r).Ok? {
        CommitRemovesOnlyDeleted(m.store, r, game, n);
      }
    case FireTimer(id, _, _) =>
      if Expiring(m, a) {
        ExpireFrame(m.store, id, game);
      }
    case _ =>
  }

  lemma CommitRemovesOnlyDeleted(st: Store, r: Request, game: string, n: string)
    requires Commit(st, r).Ok? && n in Of(st.documents, game)
    requires game == r.session.gameSession ==> forall k :: 0 <= k < |r.ops| ==> !(r.ops[k].Delete? && r.ops[k].name == n)
    ensures n in Of(Commit(st, r).value.store.documents, game)
  {
    CommitMoves(st, r);
    var next := Commit(st, r).value.store;
    if game != r.session.gameSession {
      assert SameGame(st, next, game);
    } else if n !in Of(next.documents, game) {
      Guards.OnlyDeleteRemoves(ContextOf(st, r), r.ops, WorkOn(st, game), n);
    }
  }

  lemma {:induction false} DeletedInBetween(m: Machine, run: seq<Action>, i: nat, j: nat, game: string, n: string)
    requires IsRun(m, run) && i <= j <= |run|
    requires n in Of(At(m, run, i).store.documents, game) && n !in Of(At(m, run, j).store.documents, game)
    ensures exists k :: i <= k < j && Deletes(At(m, run, k), run[k], game, n)
    decreases j
  {
    hide At, IsRun, Step, Enabled, Deletes;
    RunStep(m, run, j - 1);
    if n in Of(At(m, run, j - 1).store.documents, game) {
      if !Deletes(At(m, run, j - 1), run[j - 1], game, n) {
        OnlyDeletionRemoves(At(m, run, j - 1), run[j - 1], game, n);
      }
    } else {
      DeletedInBetween(m, run, i, j - 1, game, n);
    }
  }

  ghost predicate DeletesWithin(ops: seq<WriteOp>, from: nat, to: nat, n: string)
    requires to <= |ops|
  {
    exists k :: from <= k < to && ops[k].Delete? && ops[k].name == n
  }

  /** The action commits a batch of this game session whose operation at `at`
      creates n. */
  ghost predicate CreatesAt(m: Machine, a: Action, at: nat, game: string, n: string) {
    && Commits(m, a) && a.request.session.gameSession == game
    && at < |a.request.ops| && Guards.CreatesOnly(a.request.ops[at], n)
  }

  lemma CreationLasts(m: Machine, a: Action, at: nat, game: string, n: string)
    requires CreatesAt(m, a, at, game, n)
    ensures n in Of(Step(m, a).store.documents, game) || DeletesWithin(a.request.ops, at + 1, |a.request.ops|, n)
  {
    hide Commit, ApplyOp;
    var r := a.request;
    CommitMoves(m.store, r);
    var c, w := ContextOf(m.store, r), WorkOn(m.store, game);
    Guards.StepOk(c, r.ops, at, w);
    Guards.CreateNeedsAbsence(c, r.ops[at], Guards.Before(c, r.ops, at, w), n);
    if n !in ApplyOps(c, r.ops, w).value.0.docs {
      assert r.ops[..|r.ops|] == r.ops;
      Guards.DeletedBetween(c, r.ops, at + 1, |r.ops|, w, n);
    }
  }

  lemma CreationFindsNothing(m: Machine, a: Action, at: nat, game: string, n: string)
    requires CreatesAt(m, a, at, game, n)
    ensures n !in Of(m.store.documents, game) || DeletesWithin(a.request.ops, 0, at, n)
  {
    hide Commit, ApplyOp, ApplyOps;
    var r := a.request;
    CommitMoves(m.store, r);
    if n in Of(m.store.documents, game) && !DeletesWithin(r.ops, 0, at, n) {
      Guards.CreateFailsWhilePresent(ContextOf(m.store, r), r.ops, WorkOn(m.store, game), n, at);
    }
  }

  /** Between two committed exists=false creates of one name there is a deletion
      of it: later in the first batch, by an action in between, or earlier in
      the second batch. (Two creates of one batch: Guards.CreatesAreSeparated.) */
  lemma CreationsAreSeparated(m: Machine, run: seq<Action>, i: nat, a: nat, j: nat, b: nat, game: string, n: string)
    requires IsRun(m, run) && i < j < |run|
    requires CreatesAt(At(m, run, i), run[i], a, game, n) && CreatesAt(At(m, run, j), run[j], b, game, n)
    ensures || DeletesWithin(run[i].request.ops, a + 1, |run[i].request.ops|, n)
            || (exists k :: i < k < j && Deletes(At(m, run, k), run[k], game, n))
            || DeletesWithin(run[j].request.ops, 0, b, n)
  {
    hide At, IsRun, Step, Enabled, Deletes, DeletesWithin, Commit;
    RunStep(m, run, i);
    CreationLasts(At(m, run, i), run[i], a, game, n);
    CreationFindsNothing(At(m, run, j), run[j], b, game, n);
    if n in Of(At(m, run, i + 1).store.documents, game) && n !in Of(At(m, run, j).store.documents, game) {
      DeletedInBetween(m, run, i + 1, j, game, n);
    }
  }

  // ----- allocation -----

  /** The numbers one action's transforms answered in a game session. */
  ghost function Numbers(m: Machine, a: Action, game: string): seq<int> {
    if Commits(m, a) && a.request.session.gameSession == game
    then Counters.DrawnIn(a.request.ops, Commit(m.store, a.request).value.results)
    else []
  }

  ghost function NumbersOf(m: Machine, run: seq<Action>, game: string, i: nat): seq<int>
    requires i <= |run|
  {
    if i == 0 then [] else NumbersOf(m, run, game, i - 1) + Numbers(At(m, run, i - 1), run[i - 1], game)
  }

  ghost predicate DisciplinedRun(run: seq<Action>) {
    forall i :: 0 <= i < |run| && run[i].WriteDocuments? ==> Counters.DisciplinedOps(run[i].request.ops)
  }

  lemma StepRunsCounter(m: Machine, a: Action, game: string)
    requires Enabled(m, a) && (a.WriteDocuments? ==> Counters.DisciplinedOps(a.request.ops))
    ensures Counters.CounterRan(Numbers(m, a, game), Of(m.store.globals, game), Of(Step(m, a).store.globals, game))
  {
    hide InitFixed, Commit, Expire, Removed, UserDocument;
    match a
    case InitFixedData(g, seed, now) => InitFixedFrame(m.store, g, seed, now, game);
    case WriteDocuments(r, _) =>
      if Commit(m.store, r).Ok? {
        CommitRunsCounter(m, a, game);
      }
    case FireTimer(id, _, _) =>
      if Expiring(m, a) {
        ExpireFrame(m.store, id, game);
      }
    case _ =>
  }

  lemma CommitRunsCounter(m: Machine, a: Action, game: string)
    requires Commits(m, a) && Counters.DisciplinedOps(a.request.ops)
    ensures Counters.CounterRan(Numbers(m, a, game), Of(m.store.globals, game), Of(StoreAfter(m, a).globals, game))
  {
    var r := a.request;
    CommitMoves(m.store, r);
    if game == r.session.gameSession {
      Counters.BatchRunsCounter(ContextOf(m.store, r), r.ops, WorkOn(m.store, game));
    } else {
      assert SameGame(m.store, StoreAfter(m, a), game);
    }
  }

  lemma NothingDrawn(m: Machine, run: seq<Action>, game: string)
    ensures Counters.CounterRan([], Of(m.store.globals, game), Of(At(m, run, 0).store.globals, game))
  {
  }

  /** Allocation is a fetch-and-add: over any run whose transforms draw from the
      counter only by load, increment and store, the numbers answered in one game
      session, to whatever members and across departures, strictly increase (so
      they are pairwise distinct), and the counter is the last of them. */
  lemma {:induction false} AllocationsIncrease(m: Machine, run: seq<Action>, game: string, i: nat)
    requires IsRun(m, run) && DisciplinedRun(run) && i <= |run|
    ensures Counters.CounterRan(NumbersOf(m, run, game, i), Of(m.store.globals, game), Of(At(m, run, i).store.globals, game))
  {
    hide At, IsRun, Step, Enabled, Numbers, Counters.CounterRan, Counters.DisciplinedOps;
    if i == 0 {
      NothingDrawn(m, run, game);
    } else {
      AllocationsIncrease(m, run, game, i - 1);
      RunStep(m, run, i - 1);
      var mid, last := At(m, run, i - 1), run[i - 1];
      StepRunsCounter(mid, last, game);
      Counters.CounterRanOn(NumbersOf(m, run, game, i - 1), Numbers(mid, last, game), Of(m.store.globals, game),
                            Of(mid.store.globals, game), Of(At(m, run, i).store.globals, game));
    }
  }
}
