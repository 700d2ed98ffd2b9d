// One WriteDocuments batch over the working copies of a game session
// (gamesync_store.go, WriteDocuments): each operation, the whole list, and what
// every list keeps.

module Batch {
  import opened Wrappers
  import opened Values
  import opened FieldTree
  import opened Documents
  import Transforms

  type Owners = map<string, string>

  /** What stays fixed while a batch is applied. */
  datatype Context = Context(session: Session, sessions: map<string, Session>, now: Time)

  /** The copies a batch works on. */
  datatype Work = Work(docs: Docs, owners: Owners, globals: Fields)

  /** The fields an operation leaves (None: it deletes), the globals, and its
      answer. */
  datatype Edit = Edit(fields: Option<Fields>, globals: Fields, result: WriteResult)

  function Current(op: WriteOp): Option<Precondition> {
    match op
    case Update(_, _, _, current) => current
    case Delete(_, current) => current
    case _ => None
  }

  /** The document an operation starts editing: the stored one with the commit
      time, or a new empty one. */
  function Draft(name: string, existing: Option<Document>, now: Time): Document {
    match existing
    case None => Document(name, map[], now, now)
    case Some(d) => d.(updateTime := now)
  }

  function EditOf(op: WriteOp, existing: Option<Document>, draft: Document, globals: Fields, now: Time): Result<Edit> {
    match op
    case EmptyOp => Err(InvalidArgument)
    case Update(_, fields, mask, _) =>
      if fields.None? then Err(InvalidArgument)
      else
        var f :- CopyMask(draft.fields, fields.value, mask);
        Ok(Edit(Some(f), globals, UpdateResult))
    case Merge(_, fields) =>
      if fields.None? then Err(InvalidArgument)
      else Ok(Edit(Some(draft.fields + fields.value), globals, UpdateResult))
    case Transform(name, transforms) =>
      if existing.None? then Err(FailedPrecondition)
      else if !("docs/__pus/" <= name) then Err(Unimplemented)
      else
        var (t, values) :- Transforms.ApplyTransforms(Transforms.Cells(draft.fields, globals), transforms, now);
        Ok(Edit(Some(t.fields), t.globals, TransformResult(values)))
    case Delete(_, _) => Ok(Edit(None, globals, DeleteResult))
  }

  function Save(c: Context, name: string, draft: Document, e: Edit, w: Work): Work {
    match e.fields
    case None => Work(w.docs - {name}, w.owners - {name}, e.globals)
    case Some(f) =>
      Work(w.docs[name := draft.(fields := f)], w.owners[name := SessionId(c.session)], e.globals)
  }

  /** What an operation would leave, once every check has passed. */
  function Effect(c: Context, op: WriteOp, docs: Docs, owners: Owners, globals: Fields): Result<(Document, Edit)> {
    if op.EmptyOp? then Err(InvalidArgument)
    else
      var existing := Get(docs, op.name);
      var _ :- CheckPrecondition(Current(op), existing);
      var draft := Draft(op.name, existing, c.now);
      var e :- EditOf(op, existing, draft, globals, c.now);
      var _ :- WritableDocument(op.name, e.fields, c.session, owners, existing.Some?, c.sessions);
      Ok((draft, e))
  }

  function ApplyOp(c: Context, op: WriteOp, w: Work): Result<(Work, WriteResult)> {
    var (draft, e) :- Effect(c, op, w.docs, w.owners, w.globals);
    Ok((Save(c, op.name, draft, e, w), e.result))
  }

  /** The operations in order; the first failure is the batch's answer. */
  function ApplyOps(c: Context, ops: seq<WriteOp>, w: Work): Result<(Work, seq<WriteResult>)> {
    if ops == [] then Ok((w, []))
    else
      var (mid, results) :- ApplyOps(c, ops[..|ops| - 1], w);
      var (end, r) :- ApplyOp(c, ops[|ops| - 1], mid);
      Ok((end, results + [r]))
  }

  lemma {:induction false} OpsFail(c: Context, ops: seq<WriteOp>, i: nat, w: Work)
    requires i <= |ops| && ApplyOps(c, ops[..i], w).Err?
    ensures ApplyOps(c, ops, w) == Err(ApplyOps(c, ops[..i], w).code)
    decreases |ops|
  {
    if i < |ops| {
      assert ops[..|ops| - 1][..i] == ops[..i];
      OpsFail(c, ops[..|ops| - 1], i, w);
    } else {
      assert ops[..i] == ops;
    }
  }

  /** Continue a batch that went as far as r with more operations. */
  function Continue(c: Context, r: Result<(Work, seq<WriteResult>)>, ops: seq<WriteOp>)
    : Result<(Work, seq<WriteResult>)>
  {
    var (mid, first) :- r;
    var (end, second) :- ApplyOps(c, ops, mid);
    Ok((end, first + second))
  }

  function ContinueOne(c: Context, r: Result<(Work, seq<WriteResult>)>, op: WriteOp): Result<(Work, seq<WriteResult>)> {
    var (mid, results) :- r;
    var (end, x) :- ApplyOp(c, op, mid);
    Ok((end, results + [x]))
  }

  lemma OpsSnoc(c: Context, ops: seq<WriteOp>, op: WriteOp, w: Work)
    ensures ApplyOps(c, ops + [op], w) == ContinueOne(c, ApplyOps(c, ops, w), op)
  {
    assert (ops + [op])[..|ops|] == ops;
  }

  lemma ContinueSnoc(c: Context, r: Result<(Work, seq<WriteResult>)>, ops: seq<WriteOp>, op: WriteOp)
    ensures Continue(c, r, ops + [op]) == ContinueOne(c, Continue(c, r, ops), op)
  {
    if r.Ok? {
      var (mid, first) := r.value;
      OpsSnoc(c, ops, op, mid);
      if Continue(c, r, ops + [op]).Ok? {
        var (end, second) := ApplyOps(c, ops, mid).value;
        var x := ApplyOp(c, op, end).value.1;
        assert first + (second + [x]) == first + second + [x];
      }
    }
  }

  /** A list of writes is the composition of its halves: in what it leaves, in
      what it answers and in how it fails. */
  lemma {:induction false} OpsCompose(c: Context, xs: seq<WriteOp>, ys: seq<WriteOp>, w: Work)
    ensures ApplyOps(c, xs + ys, w) == Continue(c, ApplyOps(c, xs, w), ys)
    decreases |ys|
  {
    if ys == [] {
      assert xs + ys == xs;
      if ApplyOps(c, xs, w).Ok? {
        var first := ApplyOps(c, xs, w).value.1;
        assert first + [] == first;
      }
    } else {
      var front, last := ys[..|ys| - 1], ys[|ys| - 1];
      assert xs + ys == xs + front + [last] && ys == front + [last];
      OpsSnoc(c, xs + front, last, w);
      OpsCompose(c, xs, front, w);
      ContinueSnoc(c, ApplyOps(c, xs, w), front, last);
    }
  }

  // ----- what the working copies keep -----

  /** The user document a session is announced by. */
  function UserDocument(s: Session): Document {
    Document(UsName(SessionId(s)),
             map["uid" := String(s.uid), "ussid" := Integer(s.sequence), "ucsid" := Integer(s.connection),
                 "st" := Integer(2), "tn" := String(s.team), "att" := Map(s.attributes), "ltc" := String(s.latency)],
             s.createdAt, s.createdAt)
  }

  /** The sessions of the server: keyed by their id, with join sequences that
      tell the members of one game session apart. */
  ghost predicate RosterOk(sessions: map<string, Session>) {
    && (forall id :: id in sessions ==> id != "" && SessionId(sessions[id]) == id && sessions[id].sequence >= 1)
    && (forall a, b :: a in sessions && b in sessions && a != b && sessions[a].gameSession == sessions[b].gameSession
          ==> sessions[a].sequence != sessions[b].sequence)
  }

  ghost predicate OwnersOk(game: string, sessions: map<string, Session>, docs: Docs, owners: Owners) {
    forall n :: n in owners ==>
      && n in docs
      && owners[n] in sessions
      && sessions[owners[n]].gameSession == game
      && Attributed(n, docs[n].fields, sessions[owners[n]])
  }

  ghost predicate NamesOk(docs: Docs, owners: Owners) {
    forall n :: n in docs ==> docs[n].name == n && (n in owners || n == FIXED || US_PREFIX <= n)
  }

  ghost predicate UsersOk(game: string, sessions: map<string, Session>, docs: Docs) {
    && (forall id :: id in sessions && sessions[id].gameSession == game ==>
          Get(docs, UsName(id)) == Some(UserDocument(sessions[id])))
    && (forall n :: n in docs && US_PREFIX <= n ==>
          exists id :: id in sessions && sessions[id].gameSession == game && n == UsName(id))
  }

  /** What holds of one game session's documents and owners between operations. */
  ghost predicate GameOk(game: string, sessions: map<string, Session>, docs: Docs, owners: Owners) {
    && OwnersOk(game, sessions, docs, owners)
    && NamesOk(docs, owners)
    && UsersOk(game, sessions, docs)
  }

  /** Equal but for the spelling of the user-session name. */
  predicate SameBinding(a: Session, b: Session) {
    && SessionId(a) == SessionId(b)
    && a.uid == b.uid && a.gameSession == b.gameSession && a.team == b.team
    && a.sequence == b.sequence && a.connection == b.connection
    && a.attributes == b.attributes && a.latency == b.latency && a.createdAt == b.createdAt
  }

  /** The writing session is a live member of the game session. */
  ghost predicate Writer(c: Context, game: string) {
    && RosterOk(c.sessions)
    && c.session.gameSession == game
    && SessionId(c.session) in c.sessions
    && SameBinding(c.session, c.sessions[SessionId(c.session)])
  }

  lemma EditShape(op: WriteOp, existing: Option<Document>, draft: Document, globals: Fields, now: Time)
    requires EditOf(op, existing, draft, globals, now).Ok?
    ensures EditOf(op, existing, draft, globals, now).value.fields.None? <==> op.Delete?
  {
  }

  lemma SaveShape(c: Context, name: string, draft: Document, e: Edit, w: Work)
    ensures var w' := Save(c, name, draft, e, w);
            && (forall n :: n != name ==> Get(w'.docs, n) == Get(w.docs, n) && Get(w'.owners, n) == Get(w.owners, n))
            && Get(w'.docs, name) == (if e.fields.None? then None else Some(draft.(fields := e.fields.value)))
            && Get(w'.owners, name) == (if e.fields.None? then None else Some(SessionId(c.session)))
  {
  }

  /** What one successful operation does to the documents and owners. */
  lemma AppliedOp(c: Context, op: WriteOp, w: Work)
    requires ApplyOp(c, op, w).Ok?
    ensures !op.EmptyOp? && ClientName(op.name)
    ensures var w' := ApplyOp(c, op, w).value.0;
            && (forall n :: n != op.name ==> Get(w'.docs, n) == Get(w.docs, n) && Get(w'.owners, n) == Get(w.owners, n))
            && (op.Delete? ==> Get(w'.docs, op.name) == None && Get(w'.owners, op.name) == None)
            && (!op.Delete? ==> Get(w'.owners, op.name) == Some(SessionId(c.session)))
            && (!op.Delete? ==> WrittenBy(c, op.name, Get(w'.docs, op.name), Get(w.docs, op.name)))
  {
    var existing := Get(w.docs, op.name);
    var draft := Draft(op.name, existing, c.now);
    var e := EditOf(op, existing, draft, w.globals, c.now).value;
    EditShape(op, existing, draft, w.globals, c.now);
    SaveShape(c, op.name, draft, e, w);
    WritableNames(op.name, e.fields, c.session, w.owners, existing.Some?, c.sessions);
    if e.fields.Some? {
      WrittenIsAttributed(op.name, e.fields.value, c.session, w.owners, existing.Some?, c.sessions);
    }
  }

  /** A document just written by the batch's session. */
  predicate WrittenBy(c: Context, name: string, d: Option<Document>, was: Option<Document>) {
    && d.Some?
    && Attributed(name, d.value.fields, c.session)
    && d.value.updateTime == c.now
    && d.value.createTime == (if was.Some? then was.value.createTime else c.now)
    && d.value.name == (if was.Some? then was.value.name else name)
  }

  lemma AttributedBinding(name: string, f: Fields, a: Session, b: Session)
    requires SameBinding(a, b) && Attributed(name, f, a)
    ensures Attributed(name, f, b)
  {
  }

  lemma OpKeepsGame(c: Context, op: WriteOp, w: Work, game: string)
    requires Writer(c, game) && GameOk(game, c.sessions, w.docs, w.owners) && ApplyOp(c, op, w).Ok?
    ensures var w' := ApplyOp(c, op, w).value.0;
            GameOk(game, c.sessions, w'.docs, w'.owners)
  {
    hide ApplyOp, NamesOk, UsersOk, WrittenBy, Attributed;
    AppliedOp(c, op, w);
    ClientNamesApart(op.name);
    var w', id := ApplyOp(c, op, w).value.0, SessionId(c.session);
    forall n | n in w'.owners
      ensures n in w'.docs && w'.owners[n] in c.sessions && c.sessions[w'.owners[n]].gameSession == game
              && Attributed(n, w'.docs[n].fields, c.sessions[w'.owners[n]])
    {
      assert Get(w'.owners, n).Some?;
      if n == op.name {
        AttributedBinding(n, w'.docs[n].fields, c.session, c.sessions[id]);
      } else {
        assert Get(w'.owners, n) == Get(w.owners, n) && Get(w'.docs, n) == Get(w.docs, n);
      }
    }
    OpKeepsNames(c, op, w);
    OpKeepsUsers(c, op, w, game);
  }

  lemma OpKeepsNames(c: Context, op: WriteOp, w: Work)
    requires NamesOk(w.docs, w.owners) && ApplyOp(c, op, w).Ok?
    ensures var w' := ApplyOp(c, op, w).value.0;
            NamesOk(w'.docs, w'.owners)
  {
    AppliedOp(c, op, w);
    var w' := ApplyOp(c, op, w).value.0;
    forall n | n in w'.docs
      ensures w'.docs[n].name == n && (n in w'.owners || n == FIXED || US_PREFIX <= n)
    {
      assert Get(w'.docs, n).Some?;
      if n != op.name {
        assert Get(w'.owners, n) == Get(w.owners, n) && Get(w'.docs, n) == Get(w.docs, n);
      } else {
        assert Get(w'.owners, n).Some?;
      }
    }
  }

  lemma OpKeepsUsers(c: Context, op: WriteOp, w: Work, game: string)
    requires UsersOk(game, c.sessions, w.docs) && ApplyOp(c, op, w).Ok?
    ensures UsersOk(game, c.sessions, ApplyOp(c, op, w).value.0.docs)
  {
    AppliedOp(c, op, w);
    ClientNamesApart(op.name);
    var docs := ApplyOp(c, op, w).value.0.docs;
    forall id | id in c.sessions && c.sessions[id].gameSession == game
      ensures Get(docs, UsName(id)) == Some(UserDocument(c.sessions[id]))
    {
      assert US_PREFIX <= UsName(id);
    }
    forall n | n in docs && US_PREFIX <= n
      ensures exists id :: id in c.sessions && c.sessions[id].gameSession == game && n == UsName(id)
    {
      assert Get(docs, n) == Get(w.docs, n);
    }
  }

  lemma {:induction false} OpsKeepGame(c: Context, ops: seq<WriteOp>, w: Work, game: string)
    requires Writer(c, game) && GameOk(game, c.sessions, w.docs, w.owners) && ApplyOps(c, ops, w).Ok?
    ensures var w' := ApplyOps(c, ops, w).value.0;
            GameOk(game, c.sessions, w'.docs, w'.owners)
    decreases |ops|
  {
    if ops != [] {
      OpsKeepGame(c, ops[..|ops| - 1], w, game);
      OpKeepsGame(c, ops[|ops| - 1], ApplyOps(c, ops[..|ops| - 1], w).value.0, game);
    }
  }

  // ----- write isolation -----

  lemma AppliedIsWritable(c: Context, op: WriteOp, w: Work) returns (fields: Option<Fields>)
    requires ApplyOp(c, op, w).Ok?
    ensures WritableDocument(op.name, fields, c.session, w.owners, op.name in w.docs, c.sessions).Ok?
  {
    fields := Effect(c, op, w.docs, w.owners, w.globals).value.1.fields;
  }

  /** What a session may write is unowned, its own, or a shared mailbox. */
  lemma WritableIsOwn(c: Context, name: string, fields: Option<Fields>, docs: Docs, owners: Owners, game: string)
    requires Writer(c, game) && OwnersOk(game, c.sessions, docs, owners)
    requires WritableDocument(name, fields, c.session, owners, name in docs, c.sessions).Ok?
    ensures name !in owners || owners[name] == SessionId(c.session) || Mailbox(name)
  {
    if name in owners && owners[name] != SessionId(c.session) && !Mailbox(name) {
      RivalWriteRefused(name, fields, c.session, owners, c.sessions, docs[name].fields, c.sessions[owners[name]]);
    }
  }

  lemma OpSparesOthers(c: Context, op: WriteOp, w: Work, game: string, n: string)
    requires Writer(c, game) && OwnersOk(game, c.sessions, w.docs, w.owners) && ApplyOp(c, op, w).Ok?
    requires n in w.owners && w.owners[n] != SessionId(c.session) && !Mailbox(n)
    ensures op.name != n
  {
    var fields := AppliedIsWritable(c, op, w);
    WritableIsOwn(c, op.name, fields, w.docs, w.owners, game);
  }

  lemma OpSpares(c: Context, op: WriteOp, w: Work, game: string, n: string)
    requires Writer(c, game) && OwnersOk(game, c.sessions, w.docs, w.owners) && ApplyOp(c, op, w).Ok?
    requires n in w.owners && w.owners[n] != SessionId(c.session) && !Mailbox(n)
    ensures var w' := ApplyOp(c, op, w).value.0;
            Get(w'.docs, n) == Get(w.docs, n) && Get(w'.owners, n) == Get(w.owners, n)
  {
    OpSparesOthers(c, op, w, game, n);
    AppliedOp(c, op, w);
  }

  /** A batch leaves every unshared document of another session, and its owner,
      exactly as they were. */
  lemma {:induction false} BatchSparesOthers(c: Context, ops: seq<WriteOp>, w: Work, game: string, n: string)
    requires Writer(c, game) && GameOk(game, c.sessions, w.docs, w.owners) && ApplyOps(c, ops, w).Ok?
    requires n in w.owners && w.owners[n] != SessionId(c.session) && !Mailbox(n)
    ensures var w' := ApplyOps(c, ops, w).value.0;
            Get(w'.docs, n) == Get(w.docs, n) && Get(w'.owners, n) == Get(w.owners, n)
    decreases |ops|
  {
    hide ApplyOp, Writer, OwnersOk, NamesOk, UsersOk, Mailbox;
    if ops != [] {
      var front := ops[..|ops| - 1];
      BatchSparesOthers(c, front, w, game, n);
      OpsKeepGame(c, front, w, game);
      var mid := ApplyOps(c, front, w).value.0;
      assert Get(mid.owners, n).Some?;
      OpSpares(c, ops[|ops| - 1], mid, game, n);
    }
  }

  /** Deleting a mailbox needs its ownership at that moment; the monitoring
      report can never be deleted by a client. */
  lemma MailboxDeletionNeedsOwnership(c: Context, op: WriteOp, w: Work)
    requires op.Delete? && Mailbox(op.name) && ApplyOp(c, op, w).Ok?
    ensures OwnerOf(w.owners, op.name) == SessionId(c.session)
    ensures DocumentPath(op.name).value.0 != "__mt"
  {
  }

  function NameOf(op: WriteOp): string {
    if op.EmptyOp? then "" else op.name
  }

  /** The names a batch touches: WriteDocuments publishes each once. */
  function NamesOf(ops: seq<WriteOp>): set<string> {
    set i | 0 <= i < |ops| :: NameOf(ops[i])
  }

  lemma NamesOfNone()
    ensures NamesOf([]) == {}
  {
  }

  lemma NamesSnoc(ops: seq<WriteOp>)
    requires ops != []
    ensures NamesOf(ops) == NamesOf(ops[..|ops| - 1]) + {NameOf(ops[|ops| - 1])}
  {
    var front := ops[..|ops| - 1];
    forall n | n in NamesOf(ops) ensures n in NamesOf(front) + {NameOf(ops[|ops| - 1])} {
      var i :| 0 <= i < |ops| && n == NameOf(ops[i]);
      if i < |front| {
        assert front[i] == ops[i];
      }
    }
    forall n | n in NamesOf(front) ensures n in NamesOf(ops) {
      var i :| 0 <= i < |front| && n == NameOf(front[i]);
      assert front[i] == ops[i];
    }
  }

  /** The names a batch changes are the names of its operations, all of them
      client names; nothing else moves. */
  lemma {:induction false} BatchTouchesOnlyItsNames(c: Context, ops: seq<WriteOp>, w: Work)
    requires ApplyOps(c, ops, w).Ok?
    ensures var w' := ApplyOps(c, ops, w).value.0;
            && (forall n :: n in NamesOf(ops) ==> ClientName(n))
            && forall n :: n !in NamesOf(ops) ==>
                 Get(w'.docs, n) == Get(w.docs, n) && Get(w'.owners, n) == Get(w.owners, n)
    decreases |ops|
  {
    if ops != [] {
      var front, last := ops[..|ops| - 1], ops[|ops| - 1];
      BatchTouchesOnlyItsNames(c, front, w);
      AppliedOp(c, last, ApplyOps(c, front, w).value.0);
      NamesSnoc(ops);
    }
  }
}
