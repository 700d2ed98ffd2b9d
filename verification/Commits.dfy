// What a committed batch and an expiry mean to the other parties of the store:
// composition, isolation, exactness.

module Commits {
  import opened Wrappers
  import opened Values
  import opened Text
  import opened Documents
  import opened Batch
  import opened Store
  import Guards

  // ----- composition -----

  /** Committing xs and then ys at one time value is committing xs + ys, with
      the answers appended and the touched names united; it fails as the batch
      does. */
  lemma CommitsCompose(st: Store, s: Session, xs: seq<WriteOp>, ys: seq<WriteOp>, defs: seq<DefermentOp>, now: Time)
    requires |xs| + |ys| + |defs| <= 256
    ensures var whole := Commit(st, Request(s, xs + ys, defs, now));
            var first := Commit(st, Request(s, xs, [], now));
            && (first.Err? ==> whole.Err? && whole.code == first.code)
            && (first.Ok? ==>
                  var second := Commit(first.value.store, Request(s, ys, defs, now));
                  && whole.Ok? == second.Ok?
                  && (whole.Err? ==> whole.code == second.code)
                  && (whole.Ok? ==>
                        && whole.value.store == second.value.store
                        && whole.value.results == first.value.results + second.value.results
                        && whole.value.changed == first.value.changed + second.value.changed))
  {
    OpsCompose(Context(s, st.sessions, now), xs, ys, WorkOn(st, s.gameSession));
    if Commit(st, Request(s, xs, [], now)).Ok? {
      FirstHalf(st, s, xs, now);
      SecondHalf(st, s, xs, ys, defs, now);
    }
  }

  lemma FirstHalf(st: Store, s: Session, xs: seq<WriteOp>, now: Time)
    requires Commit(st, Request(s, xs, [], now)).Ok?
    ensures var c, w := Context(s, st.sessions, now), WorkOn(st, s.gameSession);
            var first := Commit(st, Request(s, xs, [], now)).value;
            && ApplyOps(c, xs, w).Ok?
            && var mid := ApplyOps(c, xs, w).value.0;
            && first.store == Install(st, Request(s, xs, [], now), mid, Of(st.deferments, SessionId(s)))
            && first.results == ApplyOps(c, xs, w).value.1
            && WorkOn(first.store, s.gameSession) == mid
            && first.store.sessions == st.sessions
            && Of(first.store.deferments, SessionId(s)) == Of(st.deferments, SessionId(s))
  {
  }

  lemma SecondHalf(st: Store, s: Session, xs: seq<WriteOp>, ys: seq<WriteOp>, defs: seq<DefermentOp>, now: Time)
    requires |xs| + |ys| + |defs| <= 256 && Commit(st, Request(s, xs, [], now)).Ok?
    ensures var whole := Commit(st, Request(s, xs + ys, defs, now));
            var first := Commit(st, Request(s, xs, [], now)).value;
            var second := Commit(first.store, Request(s, ys, defs, now));
            && whole.Ok? == second.Ok?
            && (whole.Err? ==> whole.code == second.code)
            && (whole.Ok? ==>
                  && whole.value.store == second.value.store
                  && whole.value.results == first.results + second.value.results
                  && whole.value.changed == first.changed + second.value.changed)
  {
    FirstHalf(st, s, xs, now);
    var c, w := Context(s, st.sessions, now), WorkOn(st, s.gameSession);
    OpsCompose(c, xs, ys, w);
    var mid := ApplyOps(c, xs, w).value.0;
    if ApplyOps(c, ys, mid).Ok? {
      var v, d0 := ApplyOps(c, ys, mid).value.0, Of(st.deferments, SessionId(s));
      var d := ApplyDeferments(c, defs, d0, v.docs, v.owners);
      if d.Ok? {
        InstallTwice(st, s, mid, v, d0, d.value, xs, ys, xs + ys, [], defs, now);
        NamesAppend(xs, ys);
      }
    }
  }

  lemma NamesAppend(xs: seq<WriteOp>, ys: seq<WriteOp>)
    ensures NamesOf(xs + ys) == NamesOf(xs) + NamesOf(ys)
  {
    forall n | n in NamesOf(xs + ys) ensures n in NamesOf(xs) + NamesOf(ys) {
      var i :| 0 <= i < |xs + ys| && n == NameOf((xs + ys)[i]);
      assert if i < |xs| then n == NameOf(xs[i]) else n == NameOf(ys[i - |xs|]);
    }
    forall n | n in NamesOf(ys) ensures n in NamesOf(xs + ys) {
      var i :| 0 <= i < |ys| && n == NameOf(ys[i]);
      assert n == NameOf((xs + ys)[|xs| + i]);
    }
    forall n | n in NamesOf(xs) ensures n in NamesOf(xs + ys) {
      var i :| 0 <= i < |xs| && n == NameOf(xs[i]);
      assert n == NameOf((xs + ys)[i]);
    }
  }

  lemma InstallTwice(st: Store, s: Session, mid: Work, w: Work, d0: map<string, Deferment>, d: map<string, Deferment>,
                     xs: seq<WriteOp>, ys: seq<WriteOp>, zs: seq<WriteOp>, e0: seq<DefermentOp>, e: seq<DefermentOp>, now: Time)
    ensures Install(Install(st, Request(s, xs, e0, now), mid, d0), Request(s, ys, e, now), w, d)
            == Install(st, Request(s, zs, e, now), w, d)
  {
    SetTwice(st.documents, s.gameSession, mid.docs, w.docs);
    SetTwice(st.owners, s.gameSession, mid.owners, w.owners);
    SetTwice(st.globals, s.gameSession, mid.globals, w.globals);
    SetTwice(st.deferments, SessionId(s), d0, d);
  }

  lemma SetTwice<V>(m: map<string, V>, k: string, a: V, b: V)
    ensures m[k := a][k := b] == m[k := b]
  {
  }

  // ----- isolation -----

  lemma DefermentsApart(st: Store, r: Request)
    requires Commit(st, r).Ok?
    ensures forall id :: id != SessionId(r.session) ==>
              Get(Commit(st, r).value.store.deferments, id) == Get(st.deferments, id)
  {
    hide Commit, ApplyOps;
    var defs := CommitShape(st, r);
  }

  /** A commit touches no other game session and no other session's deferments,
      and in its own game session changes or deletes no document owned by
      another session unless it is a shared mailbox. */
  lemma CommitIsIsolated(st: Store, r: Request, game: string, n: string)
    requires StoreOk(st) && Commit(st, r).Ok?
    requires SameBinding(r.session, st.sessions[SessionId(r.session)])
    requires game != r.session.gameSession
             || (n in Of(st.owners, game) && Of(st.owners, game)[n] != SessionId(r.session) && !Mailbox(n))
             || !ClientName(n)
    ensures var next := Commit(st, r).value.store;
            && Get(Of(next.documents, game), n) == Get(Of(st.documents, game), n)
            && Get(Of(next.owners, game), n) == Get(Of(st.owners, game), n)
            && (game != r.session.gameSession ==> Of(next.globals, game) == Of(st.globals, game))
            && (forall id :: id != SessionId(r.session) ==> Get(next.deferments, id) == Get(st.deferments, id))
            && next.sessions == st.sessions && next.nextSequence == st.nextSequence
  {
    DefermentsApart(st, r);
    CommitMoves(st, r);
    assert GameOkIn(st, game);
    if game != r.session.gameSession {
      assert SameGame(st, Commit(st, r).value.store, game);
    } else {
      var c, w := ContextOf(st, r), WorkOn(st, game);
      BatchTouchesOnlyItsNames(c, r.ops, w);
      if ClientName(n) {
        BatchSparesOthers(c, r.ops, w, game, n);
      }
    }
  }

  // ----- optimistic concurrency -----

  /** After a commit guarded by update time t on document n, whatever the wall
      clock does, the same guard can be met again exactly when the document is
      still there and t was the commit's own time. */
  lemma CommitReusesGuardExactly(st: Store, r: Request, n: string, t: Time)
    requires Commit(st, r).Ok? && Guards.GuardedBy(r.ops, n, t)
    ensures var d := Get(Of(Commit(st, r).value.store.documents, r.session.gameSession), n);
            CheckPrecondition(Some(UpdateTime(Some(t))), d).Ok? <==> d.Some? && t == r.now
  {
    hide Commit, ApplyOps, Guards.GuardedBy;
    CommitMoves(st, r);
    Guards.GuardReuseExactly(ContextOf(st, r), r.ops, WorkOn(st, r.session.gameSession), n, t);
  }

  // ----- expiry -----

  /** Expiry removes precisely the user document and the owned documents, with
      their owners, whatever deferments were stored; every other document,
      owner, global and session stays. */
  lemma ExpiryEffect(st: Store, id: string, game: string, n: string)
    requires StoreOk(st) && id in st.sessions
    ensures var next := Expire(st, id);
            var gone := game == st.sessions[id].gameSession && (n == UsName(id) || Get(Of(st.owners, game), n) == Some(id));
            && Get(Of(next.documents, game), n) == (if gone then None else Get(Of(st.documents, game), n))
            && Get(Of(next.owners, game), n) == (if gone then None else Get(Of(st.owners, game), n))
            && next.globals == st.globals && next.nextSequence == st.nextSequence
            && next.sessions == st.sessions - {id} && next.deferments == st.deferments - {id}
  {
    hide Expire, UsName, StoreOk, Removed, Owned;
    IdIsNotEmpty(st, id);
    ExpiryIsExact(st, id);
    ExpireFrame(st, id, game);
    ExpireLeaves(st, id);
    OwnedIs(st, id, st.sessions[id].gameSession, n);
    Lacking(Of(st.documents, game), Removed(st, id), n);
    Lacking(Of(st.owners, game), Removed(st, id), n);
  }

  lemma IdIsNotEmpty(st: Store, id: string)
    requires StoreOk(st) && id in st.sessions
    ensures id != ""
  {
    hide GameOkIn, SequencesOk;
  }

  lemma OwnedIs(st: Store, id: string, game: string, n: string)
    ensures n in Owned(st, id, game) <==> Get(Of(st.owners, game), n) == Some(id)
  {
  }

  lemma Lacking<V>(m: map<string, V>, names: set<string>, n: string)
    ensures Get(m - names, n) == if n in names then None else Get(m, n)
  {
  }

  lemma ExpireLeaves(st: Store, id: string)
    requires id in st.sessions
    ensures Expire(st, id).deferments == st.deferments - {id}
  {
    hide Removed;
  }

  /** The document says of the session what a client reads there: its uid, its
      two numbers, its state, its team, its attributes and its latency, under
      these keys and no other. */
  predicate Presents(d: Document, s: Session) {
    && d.fields.Keys == {"uid", "ussid", "ucsid", "st", "tn", "att", "ltc"}
    && d.fields["uid"] == String(s.uid)
    && d.fields["ussid"] == Integer(s.sequence)
    && d.fields["ucsid"] == Integer(s.connection)
    && d.fields["st"] == Integer(2)
    && d.fields["tn"] == String(s.team)
    && d.fields["att"] == Map(s.attributes)
    && d.fields["ltc"] == String(s.latency)
    && d.createTime == d.updateTime == s.createdAt
  }

  lemma UserDocumentPresents(s: Session)
    ensures Presents(UserDocument(s), s)
  {
  }

  /** docs/__us is the live roster: docs/__us/id is there exactly for a live
      member of the game session, and presents it. */
  lemma UsersAreRoster(st: Store, game: string, id: string)
    requires StoreOk(st)
    ensures var docs, n := Of(st.documents, game), Name("__us", id);
            && (n in docs <==> id in st.sessions && st.sessions[id].gameSession == game)
            && (n in docs ==> docs[n].name == n && Presents(docs[n], st.sessions[id]))
  {
    hide UserDocument, LastSegment, OwnersOk, NamesOk, RosterOk, SequencesOk, Presents;
    assert GameOkIn(st, game);
    var docs, n := Of(st.documents, game), UsName(id);
    assert n == US_PREFIX + id;
    if n in docs {
      var other :| other in st.sessions && st.sessions[other].gameSession == game && n == UsName(other);
      assert UsName(other) == US_PREFIX + other;
      assert UsName(other)[|US_PREFIX|..] == other && UsName(id)[|US_PREFIX|..] == id;
    }
    if id in st.sessions && st.sessions[id].gameSession == game {
      UserDocumentPresents(st.sessions[id]);
      NamedDocuments(st, game);
      assert Get(docs, n) == Some(UserDocument(st.sessions[id]));
    }
  }

  /** A join stores the session the binding describes, with the next number of
      its game session, or the numbers it had before; its document presents it. */
  lemma JoinedPresents(st: Store, b: Binding, now: Time)
    ensures var next, id, n := Remember(st, b, now), LastSegment(b.userSession), UsName(LastSegment(b.userSession));
            && id in next.sessions && n in Of(next.documents, b.gameSession)
            && var s := next.sessions[id];
            && Presents(Of(next.documents, b.gameSession)[n], s)
            && s.uid == b.uid && s.gameSession == b.gameSession && s.userSession == b.userSession && s.team == b.team
            && s.attributes == (if b.attributes.Some? then b.attributes.value else map[])
            && s.latency == (if b.latency != "" then b.latency else "{\"latencies\":{}}")
            && (id in st.sessions ==>
                  && s.sequence == st.sessions[id].sequence && s.connection == st.sessions[id].connection
                  && s.createdAt == st.sessions[id].createdAt && next.nextSequence == st.nextSequence)
            && (id !in st.sessions && Joined(st, b.gameSession) < MAX_INT64 ==>
                  && s.sequence == s.connection == Joined(st, b.gameSession) + 1 == Joined(next, b.gameSession)
                  && s.createdAt == now)
  {
    hide UserDocument, LastSegment, Presents;
    UserDocumentPresents(Remembered(st, b, now));
  }

  /** The document describes the game session to its members, under these keys
      and no other. */
  predicate Describes(d: Document, g: GameInfo, seed: seq<int>) {
    && d.fields.Keys == {"gsid", "addr", "p", "mcn", "maxu", "rs"}
    && d.fields["gsid"] == String(LastSegment(g.name))
    && d.fields["addr"] == String(g.host)
    && d.fields["p"] == Integer(g.port)
    && d.fields["mcn"] == String(g.config)
    && d.fields["maxu"] == Integer(g.maxParticipants)
    && d.fields["rs"] == Bytes(seed)
  }

  lemma FixedDocumentDescribes(g: GameInfo, seed: seq<int>, now: Time)
    ensures var d := FixedDocument(g, seed, now);
            d.name == FIXED && d.createTime == d.updateTime == now && Describes(d, g, seed)
  {
    hide LastSegment;
  }

  lemma FixedName()
    ensures FIXED == "docs/__gs/f"
  {
    assert "docs/" + "__gs" + "/" + "f" == "docs/__gs/f";
  }

  /** Within the seed policy, the fixed data describes its game session. */
  lemma FixedDataSays(st: Store, g: GameInfo, seed: seq<int>, now: Time)
    requires FIXED !in Of(st.documents, g.name) && 16 <= |seed| <= 64
    ensures var docs := Of(InitFixed(st, g, seed, now).documents, g.name);
            && "docs/__gs/f" in docs
            && var d := docs["docs/__gs/f"];
            && d.name == "docs/__gs/f" && d.createTime == d.updateTime == now && Describes(d, g, seed)
  {
    hide FixedDocument, Describes, InitFixed;
    FixedName();
    FixedDocumentDescribes(g, seed, now);
    FixedDataStored(st, g, seed, now);
  }

  lemma FixedDataStored(st: Store, g: GameInfo, seed: seq<int>, now: Time)
    requires FIXED !in Of(st.documents, g.name) && !SeedRefused(st, g, seed)
    ensures Get(Of(InitFixed(st, g, seed, now).documents, g.name), FIXED) == Some(FixedDocument(g, seed, now))
  {
    hide FixedDocument, SeedRefused;
  }

  /** A refused seed, and fixed data that is there, leave every document. */
  lemma FixedDataOtherwise(st: Store, g: GameInfo, seed: seq<int>, now: Time, game: string)
    requires FIXED in Of(st.documents, g.name) || |seed| < 16 || |seed| > 64 || game != g.name
    ensures Of(InitFixed(st, g, seed, now).documents, game) == Of(st.documents, game)
  {
    hide FixedDocument;
  }

  /** Owners cover exactly the documents other than docs/__us/... and the fixed
      data; every owner is a live member of the game session, and the document
      is attributed to it. */
  lemma OwnersCover(st: Store, game: string, n: string)
    requires StoreOk(st)
    ensures n in Of(st.owners, game) <==> n in Of(st.documents, game) && n != FIXED && !(US_PREFIX <= n)
    ensures n in Of(st.owners, game) ==>
              var id := Of(st.owners, game)[n];
              && id in st.sessions && st.sessions[id].gameSession == game
              && Attributed(n, Of(st.documents, game)[n].fields, st.sessions[id])
  {
    assert GameOkIn(st, game);
    if n in Of(st.owners, game) {
      ClientNamesOfOwners(game, st.sessions, Of(st.documents, game), Of(st.owners, game), n);
    }
  }
}
