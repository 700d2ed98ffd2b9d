// What a committed operation leaves in its document, read path by path and key
// by key (gamesync_store.go, WriteDocuments): masked and whole updates, merges,
// transforms and deletions, and the last operation on a name in a batch.

module Effects {
  import opened Wrappers
  import opened Values
  import opened FieldPath
  import opened FieldTree
  import opened Documents
  import opened Batch
  import opened Store
  import Rules
  import Transforms

  /** The fields stored under a name; none when there is no document. */
  function FieldsAt(docs: Docs, name: string): Fields {
    if name in docs then docs[name].fields else map[]
  }

  // ----- one operation -----

  /** An operation leaves what its edit of the stored fields came to. */
  lemma EditLeaves(c: Context, op: WriteOp, w: Work)
    requires ApplyOp(c, op, w).Ok?
    ensures !op.EmptyOp?
    ensures var existing := Get(w.docs, op.name);
            var draft := Draft(op.name, existing, c.now);
            var e := EditOf(op, existing, draft, w.globals, c.now);
            var (w', r) := ApplyOp(c, op, w).value;
            && draft.fields == FieldsAt(w.docs, op.name)
            && e.Ok? && w'.globals == e.value.globals && r == e.value.result
            && (e.value.fields.Some? ==> FieldsAt(w'.docs, op.name) == e.value.fields.value)
  {
    hide EditOf, WritableDocument, CheckPrecondition, Save, Draft, FieldsAt;
    var existing := Get(w.docs, op.name);
    var draft := Draft(op.name, existing, c.now);
    DraftFields(op.name, w.docs, c.now);
    SaveLeaves(c, op.name, draft, EditOf(op, existing, draft, w.globals, c.now).value, w);
  }

  lemma DraftFields(name: string, docs: Docs, now: Time)
    ensures Draft(name, Get(docs, name), now).fields == FieldsAt(docs, name)
  {
  }

  lemma SaveLeaves(c: Context, name: string, draft: Document, e: Edit, w: Work)
    ensures var w' := Save(c, name, draft, e, w);
            w'.globals == e.globals && (e.fields.Some? ==> FieldsAt(w'.docs, name) == e.fields.value)
  {
  }

  /** An update is refused unless its mask denotes key paths. Whatever is
      incomparable with all of them reads as before (absent in a new document),
      and under a faithful mask each of them reads as supplied. */
  lemma MaskedUpdateIs(c: Context, op: WriteOp, w: Work) returns (paths: seq<Path>)
    requires op.Update? && op.mask.Some? && op.mask.value != ["*"] && ApplyOp(c, op, w).Ok?
    ensures op.fields.Some? && Denotes(op.mask.value, paths) && KeyPaths(paths)
    ensures var was, now := FieldsAt(w.docs, op.name), FieldsAt(ApplyOp(c, op, w).value.0.docs, op.name);
            && (forall q :: Untouched(paths, q) ==> ReadField(now, q) == ReadField(was, q))
            && (Faithful(paths) ==> Agrees(now, op.fields.value, paths))
  {
    hide ParseFieldPath, ApplyOp, Faithful, ReadField, CopyPaths, ParseMask;
    EditLeaves(c, op, w);
    paths := ParseMask(op.mask.value).value;
    MaskDenotes(op.mask.value);
    ParsedMaskIsKeyPaths(op.mask.value);
    var was, src := FieldsAt(w.docs, op.name), op.fields.value;
    forall q | Untouched(paths, q) ensures ReadField(CopyPaths(was, src, paths), q) == ReadField(was, q) {
      MaskLeavesApart(was, src, paths, q);
    }
    if Faithful(paths) {
      forall i | 0 <= i < |paths| ensures ReadField(CopyPaths(was, src, paths), paths[i]) == ReadField(src, paths[i]) {
        FaithfulMaskAgrees(was, src, paths, i);
      }
    }
  }

  /** Without a mask, or under the lone wildcard, an update leaves exactly what
      was supplied. */
  lemma WholeUpdateIs(c: Context, op: WriteOp, w: Work)
    requires op.Update? && (op.mask.None? || op.mask.value == ["*"]) && ApplyOp(c, op, w).Ok?
    ensures op.fields == Some(FieldsAt(ApplyOp(c, op, w).value.0.docs, op.name))
  {
    hide ApplyOp, ParseMask, CopyPaths;
    EditLeaves(c, op, w);
  }

  /** A merge overrides the supplied keys and leaves the others. */
  lemma MergeIs(c: Context, op: WriteOp, w: Work, k: string)
    requires op.Merge? && ApplyOp(c, op, w).Ok?
    ensures op.fields.Some?
    ensures var was, now := FieldsAt(w.docs, op.name), FieldsAt(ApplyOp(c, op, w).value.0.docs, op.name);
            Get(now, k) == if k in op.fields.value then Some(op.fields.value[k]) else Get(was, k)
  {
    hide ApplyOp;
    EditLeaves(c, op, w);
  }

  /** Transforms work on the participant state that is there, and only they
      reach the game session's globals. */
  lemma TransformIs(c: Context, op: WriteOp, w: Work)
    requires ApplyOp(c, op, w).Ok?
    ensures var (w', r) := ApplyOp(c, op, w).value;
            && (op.Transform? ==>
                  && op.name in w.docs && "docs/__pus/" <= op.name
                  && var t := Transforms.ApplyTransforms(Transforms.Cells(w.docs[op.name].fields, w.globals),
                                                         op.transforms, c.now);
                  && t.Ok? && w'.globals == t.value.0.globals && r == TransformResult(t.value.1)
                  && FieldsAt(w'.docs, op.name) == t.value.0.fields)
            && (!op.Transform? ==> w'.globals == w.globals)
            && (op.Update? || op.Merge? ==> r == UpdateResult) && (op.Delete? ==> r == DeleteResult)
  {
    hide ApplyOp, Transforms.ApplyTransforms, CopyMask;
    EditLeaves(c, op, w);
  }

  /** What a single operation on missing input answers. */
  lemma MissingInput(c: Context, op: WriteOp, w: Work)
    requires !op.EmptyOp? && CheckPrecondition(Current(op), Get(w.docs, op.name)).Ok?
    ensures (op.Update? || op.Merge?) && op.fields.None? ==> ApplyOp(c, op, w) == Err(InvalidArgument)
    ensures op.Transform? && op.name !in w.docs ==> ApplyOp(c, op, w) == Err(FailedPrecondition)
    ensures op.Transform? && op.name in w.docs && !("docs/__pus/" <= op.name) ==>
              ApplyOp(c, op, w) == Err(Unimplemented)
  {
    hide WritableDocument, Transforms.ApplyTransforms;
  }

  /** May the writer leave these fields under the operation's name? */
  predicate MayLeave(c: Context, op: WriteOp, w: Work, fields: Option<Fields>)
    requires !op.EmptyOp?
  {
    WritableDocument(op.name, fields, c.session, w.owners, op.name in w.docs, c.sessions).Ok?
  }

  /** The input is complete, and the writer may leave what it comes to: what is
      supplied, the masked paths of it over what was there, the merged or
      transformed fields, or nothing. */
  ghost predicate Acceptable(c: Context, op: WriteOp, w: Work) {
    var was := FieldsAt(w.docs, NameOf(op));
    match op
    case Update(_, fields, mask, _) =>
      && fields.Some?
      && if mask.None? || mask.value == ["*"] then MayLeave(c, op, w, fields)
         else exists paths :: Denotes(mask.value, paths)
                              && MayLeave(c, op, w, Some(CopyPaths(was, fields.value, paths)))
    case Merge(_, fields) => fields.Some? && MayLeave(c, op, w, Some(was + fields.value))
    case Transform(_, transforms) =>
      && op.name in w.docs && "docs/__pus/" <= op.name
      && var t := Transforms.ApplyTransforms(Transforms.Cells(was, w.globals), transforms, c.now);
      && t.Ok? && MayLeave(c, op, w, Some(t.value.0.fields))
    case Delete(_, _) => MayLeave(c, op, w, None)
    case EmptyOp => false
  }

  /** An operation is accepted exactly when its precondition holds and it is
      acceptable. */
  lemma AcceptedExactly(c: Context, op: WriteOp, w: Work)
    ensures ApplyOp(c, op, w).Ok? <==>
              Acceptable(c, op, w) && (Current(op).Some? ==> Rules.Holds(Current(op).value, Get(w.docs, NameOf(op))))
  {
    hide WritableDocument, Acceptable, EditOf;
    if !op.EmptyOp? {
      EditAccepted(c, op, w);
    } else {
      NothingAccepted(c, op, w);
    }
  }

  lemma NothingAccepted(c: Context, op: WriteOp, w: Work)
    requires op.EmptyOp?
    ensures !Acceptable(c, op, w)
  {
  }

  lemma EditAccepted(c: Context, op: WriteOp, w: Work)
    requires !op.EmptyOp?
    ensures var existing := Get(w.docs, op.name);
            var e := EditOf(op, existing, Draft(op.name, existing, c.now), w.globals, c.now);
            Acceptable(c, op, w) <==> e.Ok? && MayLeave(c, op, w, e.value.fields)
  {
    hide MayLeave, Transforms.ApplyTransforms, CopyMask, CopyPaths, Denotes;
    match op
    case Update(_, fields, mask, _) =>
      if fields.Some? {
        MaskedAccepted(FieldsAt(w.docs, op.name), fields.value, mask);
      }
    case _ =>
  }

  lemma MaskedAccepted(was: Fields, src: Fields, mask: Option<seq<string>>)
    ensures mask.None? || mask.value == ["*"] ==> CopyMask(was, src, mask) == Ok(src)
    ensures mask.Some? && mask.value != ["*"] ==>
              && (CopyMask(was, src, mask).Ok? <==> exists paths :: Denotes(mask.value, paths))
              && forall paths :: Denotes(mask.value, paths) ==> CopyMask(was, src, mask) == Ok(CopyPaths(was, src, paths))
  {
    hide Denotes, ParseMask, CopyPaths;
    if mask.Some? {
      if ParseMask(mask.value).Ok? {
        MaskDenotes(mask.value);
      }
      forall paths | Denotes(mask.value, paths) ensures ParseMask(mask.value) == Ok(paths) {
        DenotedMask(mask.value, paths);
      }
    }
  }

  // ----- the last operation on a name -----

  predicate LastOn(ops: seq<WriteOp>, i: nat) {
    i < |ops| && !ops[i].EmptyOp? && forall j :: i < j < |ops| ==> NameOf(ops[j]) != ops[i].name
  }

  predicate FirstOn(ops: seq<WriteOp>, i: nat) {
    i < |ops| && !ops[i].EmptyOp? && forall j :: 0 <= j < i ==> NameOf(ops[j]) != ops[i].name
  }

  /** The working copies the i-th operation of a committed batch starts from. */
  function Before(st: Store, r: Request, i: nat): Work
    requires i <= |r.ops| && ApplyOps(ContextOf(st, r), r.ops[..i], WorkOn(st, r.session.gameSession)).Ok?
  {
    ApplyOps(ContextOf(st, r), r.ops[..i], WorkOn(st, r.session.gameSession)).value.0
  }

  lemma PrefixApplies(c: Context, ops: seq<WriteOp>, w: Work, i: nat)
    requires i <= |ops| && ApplyOps(c, ops, w).Ok?
    ensures ApplyOps(c, ops[..i], w).Ok?
  {
    hide ApplyOps;
    if ApplyOps(c, ops[..i], w).Err? {
      OpsFail(c, ops, i, w);
    }
  }

  lemma {:induction false} AnswersGrow(c: Context, ops: seq<WriteOp>, w: Work, i: nat)
    requires i < |ops| && ApplyOps(c, ops, w).Ok? && ApplyOps(c, ops[..i + 1], w).Ok?
    ensures |ApplyOps(c, ops[..i + 1], w).value.1| == i + 1 && |ApplyOps(c, ops, w).value.1| == |ops|
    ensures ApplyOps(c, ops, w).value.1[i] == ApplyOps(c, ops[..i + 1], w).value.1[i]
    decreases |ops|
  {
    hide ApplyOp;
    OneAnswerEach(c, ops[..i + 1], w);
    OneAnswerEach(c, ops, w);
    if i + 1 == |ops| {
      assert ops[..i + 1] == ops;
    } else {
      var front := ops[..|ops| - 1];
      assert front[..i + 1] == ops[..i + 1];
      AnswersGrow(c, front, w, i);
    }
  }

  lemma {:induction false} OneAnswerEach(c: Context, ops: seq<WriteOp>, w: Work)
    requires ApplyOps(c, ops, w).Ok?
    ensures |ApplyOps(c, ops, w).value.1| == |ops|
    decreases |ops|
  {
    hide ApplyOp;
    if ops != [] {
      OneAnswerEach(c, ops[..|ops| - 1], w);
    }
  }

  /** A commit stores what the last operation on a name left, and answers each
      operation in its place. */
  lemma CommittedByLast(st: Store, r: Request, i: nat)
    requires Commit(st, r).Ok? && LastOn(r.ops, i)
    ensures ApplyOps(ContextOf(st, r), r.ops[..i], WorkOn(st, r.session.gameSession)).Ok?
    ensures var done := ApplyOp(ContextOf(st, r), r.ops[i], Before(st, r, i));
            && done.Ok? && |Commit(st, r).value.results| == |r.ops| && Commit(st, r).value.results[i] == done.value.1
            && Get(Of(Commit(st, r).value.store.documents, r.session.gameSession), r.ops[i].name)
               == Get(done.value.0.docs, r.ops[i].name)
    ensures FirstOn(r.ops, i) ==>
              Get(Before(st, r, i).docs, r.ops[i].name) == Get(Of(st.documents, r.session.gameSession), r.ops[i].name)
  {
    hide ApplyOp, ApplyDeferments, NamesOf;
    var c, w, ops := ContextOf(st, r), WorkOn(st, r.session.gameSession), r.ops;
    var n := ops[i].name;
    CommitMoves(st, r);
    PrefixApplies(c, ops, w, i + 1);
    PrefixApplies(c, ops, w, i);
    assert ops[..i + 1][..i] == ops[..i];
    AnswersGrow(c, ops, w, i);
    TailLeaves(c, ops, w, i + 1, n);
    if FirstOn(ops, i) {
      assert n !in NamesOf(ops[..i]) by {
        NotNamed(ops[..i], n);
      }
      BatchTouchesOnlyItsNames(c, ops[..i], w);
    }
  }

  lemma NotNamed(ops: seq<WriteOp>, n: string)
    requires forall j :: 0 <= j < |ops| ==> NameOf(ops[j]) != n
    ensures n !in NamesOf(ops)
  {
  }

  /** Operations on other names leave a document alone. */
  lemma TailLeaves(c: Context, ops: seq<WriteOp>, w: Work, i: nat, n: string)
    requires i <= |ops| && ApplyOps(c, ops, w).Ok? && ApplyOps(c, ops[..i], w).Ok?
    requires forall j :: i <= j < |ops| ==> NameOf(ops[j]) != n
    ensures Get(ApplyOps(c, ops, w).value.0.docs, n) == Get(ApplyOps(c, ops[..i], w).value.0.docs, n)
  {
    hide ApplyOps, NamesOf;
    assert ops == ops[..i] + ops[i..];
    OpsCompose(c, ops[..i], ops[i..], w);
    var mid := ApplyOps(c, ops[..i], w).value.0;
    assert ApplyOps(c, ops[i..], mid).Ok?;
    NotNamed(ops[i..], n);
    BatchTouchesOnlyItsNames(c, ops[i..], mid);
  }

  /** The fields a commit stores under a name. */
  function FieldsCommitted(st: Store, r: Request, n: string): Fields
    requires Commit(st, r).Ok?
  {
    FieldsAt(Of(Commit(st, r).value.store.documents, r.session.gameSession), n)
  }

  /** The fields that the last operation on its name found: those of the store,
      when it is the first as well. */
  function FieldsFound(st: Store, r: Request, i: nat): Fields
    requires Commit(st, r).Ok? && LastOn(r.ops, i)
  {
    CommittedByLast(st, r, i);
    FieldsAt(Before(st, r, i).docs, r.ops[i].name)
  }

  lemma FoundIsStored(st: Store, r: Request, i: nat)
    requires Commit(st, r).Ok? && LastOn(r.ops, i) && FirstOn(r.ops, i)
    ensures FieldsFound(st, r, i) == FieldsAt(Of(st.documents, r.session.gameSession), r.ops[i].name)
  {
    hide Commit, Before;
    CommittedByLast(st, r, i);
    SameFields(Before(st, r, i).docs, Of(st.documents, r.session.gameSession), r.ops[i].name);
  }

  lemma SameFields(a: Docs, b: Docs, n: string)
    requires Get(a, n) == Get(b, n)
    ensures FieldsAt(a, n) == FieldsAt(b, n)
  {
  }

  /** Of a commit: a masked update, the last on its name, changes no path
      incomparable with its mask and, if the mask is faithful, copies each. */
  lemma CommittedMask(st: Store, r: Request, i: nat) returns (paths: seq<Path>)
    requires Commit(st, r).Ok? && LastOn(r.ops, i)
    requires r.ops[i].Update? && r.ops[i].mask.Some? && r.ops[i].mask.value != ["*"]
    ensures r.ops[i].fields.Some? && Denotes(r.ops[i].mask.value, paths) && KeyPaths(paths)
    ensures var was, now := FieldsFound(st, r, i), FieldsCommitted(st, r, r.ops[i].name);
            && (forall q :: Untouched(paths, q) ==> ReadField(now, q) == ReadField(was, q))
            && (Faithful(paths) ==> Agrees(now, r.ops[i].fields.value, paths))
  {
    hide Commit, ApplyOp, Before, Denotes, Untouched, Faithful, Agrees, KeyPaths, FieldsAt;
    CommittedByLast(st, r, i);
    var done := ApplyOp(ContextOf(st, r), r.ops[i], Before(st, r, i)).value.0;
    SameFields(Of(Commit(st, r).value.store.documents, r.session.gameSession), done.docs, r.ops[i].name);
    paths := MaskedUpdateIs(ContextOf(st, r), r.ops[i], Before(st, r, i));
  }

  /** Of a commit: a whole update, the last on its name, leaves what was
      supplied, and a merge overrides the supplied keys. */
  lemma CommittedWholeOrMerge(st: Store, r: Request, i: nat, k: string)
    requires Commit(st, r).Ok? && LastOn(r.ops, i)
    ensures var op, now := r.ops[i], FieldsCommitted(st, r, r.ops[i].name);
            && (op.Update? && (op.mask.None? || op.mask.value == ["*"]) ==> op.fields == Some(now))
            && (op.Merge? ==>
                  && op.fields.Some?
                  && Get(now, k) == if k in op.fields.value then Some(op.fields.value[k])
                                    else Get(FieldsFound(st, r, i), k))
  {
    hide Commit, ApplyOp, Before, FieldsAt;
    CommittedByLast(st, r, i);
    var c, w := ContextOf(st, r), Before(st, r, i);
    SameFields(Of(Commit(st, r).value.store.documents, r.session.gameSession), ApplyOp(c, r.ops[i], w).value.0.docs,
               r.ops[i].name);
    match r.ops[i]
    case Merge(_, _) => MergeIs(c, r.ops[i], w, k);
    case Update(_, _, mask, _) =>
      if mask.None? || mask.value == ["*"] {
        WholeUpdateIs(c, r.ops[i], w);
      }
    case _ =>
  }

  // ----- which requests are refused for themselves -----

  /** The errors a write or a deferment can answer with. */
  predicate OfContent(code: Code) {
    code in {InvalidArgument, PermissionDenied, FailedPrecondition, OutOfRange, Unimplemented}
  }

  /** More than 256 operations and deferments together, and only they, exhaust a
      request; a departed session, and only it, is unauthenticated. */
  lemma CommitAnswers(st: Store, r: Request)
    ensures Commit(st, r) == Err(ResourceExhausted) <==> |r.ops| + |r.deferments| > 256
    ensures Commit(st, r) == Err(Unauthenticated) <==>
              |r.ops| + |r.deferments| <= 256 && SessionId(r.session) !in st.sessions
  {
    hide ApplyOps, ApplyDeferments;
    var c, w := ContextOf(st, r), WorkOn(st, r.session.gameSession);
    OpsErrors(c, r.ops, w);
    if ApplyOps(c, r.ops, w).Ok? {
      var done := ApplyOps(c, r.ops, w).value.0;
      DefermentsErrors(c, r.deferments, Of(st.deferments, SessionId(r.session)), done.docs, done.owners);
    }
  }

  lemma {:induction false} OpsErrors(c: Context, ops: seq<WriteOp>, w: Work)
    ensures ApplyOps(c, ops, w).Err? ==> OfContent(ApplyOps(c, ops, w).code)
    decreases |ops|
  {
    hide ApplyOp;
    if ops != [] {
      OpsErrors(c, ops[..|ops| - 1], w);
      if ApplyOps(c, ops[..|ops| - 1], w).Ok? {
        OpErrors(c, ops[|ops| - 1], ApplyOps(c, ops[..|ops| - 1], w).value.0);
      }
    }
  }

  lemma OpErrors(c: Context, op: WriteOp, w: Work)
    ensures ApplyOp(c, op, w).Err? ==> OfContent(ApplyOp(c, op, w).code)
  {
    hide EditOf, WritableDocument;
    if !op.EmptyOp? {
      var existing := Get(w.docs, op.name);
      var draft := Draft(op.name, existing, c.now);
      EditErrors(op, existing, draft, w.globals, c.now);
      var e := EditOf(op, existing, draft, w.globals, c.now);
      if e.Ok? {
        WriteErrors(op.name, e.value.fields, c.session, w.owners, existing.Some?, c.sessions);
      }
    }
  }

  lemma EditErrors(op: WriteOp, existing: Option<Document>, draft: Document, globals: Fields, now: Time)
    ensures var e := EditOf(op, existing, draft, globals, now);
            e.Err? ==> OfContent(e.code)
  {
    hide Transforms.ApplyTransforms, ParseMask;
    if op.Update? && op.mask.Some? {
      MaskErrors(op.mask.value);
    }
    if op.Transform? {
      TransformsErrors(Transforms.Cells(draft.fields, globals), op.transforms, now);
    }
  }

  lemma {:induction false} MaskErrors(mask: seq<string>)
    ensures ParseMask(mask).Err? ==> OfContent(ParseMask(mask).code)
    decreases |mask|
  {
    hide ParseFieldPath;
    if mask != [] {
      MaskErrors(mask[..|mask| - 1]);
      PathErrors(mask[|mask| - 1]);
    }
  }

  lemma PathErrors(path: string)
    ensures ParseFieldPath(path).Err? ==> ParseFieldPath(path).code == InvalidArgument
  {
    ScanErrors(START, path);
  }

  lemma {:induction false} ScanErrors(st: Scan, path: string)
    ensures ScanAll(st, path).Err? ==> ScanAll(st, path).code == InvalidArgument
    decreases |path|
  {
    if path != "" && ScanChar(st, path[0]).Ok? {
      ScanErrors(ScanChar(st, path[0]).value, path[1..]);
    }
  }

  lemma {:induction false} TransformsErrors(t: Transforms.Cells, fts: seq<FieldTransform>, now: Time)
    ensures Transforms.ApplyTransforms(t, fts, now).Err? ==> OfContent(Transforms.ApplyTransforms(t, fts, now).code)
    decreases |fts|
  {
    hide ParseFieldPath, ReadField, SetField;
    if fts != [] {
      TransformsErrors(t, fts[..|fts| - 1], now);
      PathErrors(fts[|fts| - 1].fieldPath);
    }
  }

  lemma WriteErrors(name: string, fields: Option<Fields>, s: Session, owners: map<string, string>, present: bool,
                    sessions: map<string, Session>)
    ensures var r := WritableDocument(name, fields, s, owners, present, sessions);
            r.Err? ==> OfContent(r.code)
  {
    hide DocumentPath, WritablePlayer, WritableConnection, WritableState, WritableBlocklist, WritableEnvelope,
         WritableMonitoring, OfContent;
    CodesOfContent();
    var path := DocumentPath(name);
    if path.Some? {
      var id := path.value.1;
      NumberedErrors(id, fields, s);
      ConnectionErrors(name, s, owners, present);
      NamedErrors(id, fields, s);
      EnvelopeErrors(name, fields, s, owners);
      MonitoringErrors(id, fields, s, sessions);
    }
  }

  lemma CodesOfContent()
    ensures OfContent(InvalidArgument) && OfContent(PermissionDenied) && OfContent(Unimplemented)
  {
  }

  lemma NumberedErrors(id: string, fields: Option<Fields>, s: Session)
    ensures WritablePlayer(id, fields, s).Err? ==> OfContent(WritablePlayer(id, fields, s).code)
  {
  }

  lemma ConnectionErrors(name: string, s: Session, owners: map<string, string>, present: bool)
    ensures WritableConnection(name, s, owners, present).Err? ==> OfContent(WritableConnection(name, s, owners, present).code)
  {
    hide ConnectionName;
  }

  lemma NamedErrors(id: string, fields: Option<Fields>, s: Session)
    ensures WritableState(id, fields, s).Err? ==> OfContent(WritableState(id, fields, s).code)
    ensures WritableBlocklist(id, fields, s).Err? ==> OfContent(WritableBlocklist(id, fields, s).code)
  {
  }

  lemma EnvelopeErrors(name: string, fields: Option<Fields>, s: Session, owners: map<string, string>)
    ensures WritableEnvelope(name, fields, s, owners).Err? ==> OfContent(WritableEnvelope(name, fields, s, owners).code)
  {
  }

  lemma MonitoringErrors(id: string, fields: Option<Fields>, s: Session, sessions: map<string, Session>)
    ensures WritableMonitoring(id, fields, s, sessions).Err? ==> OfContent(WritableMonitoring(id, fields, s, sessions).code)
  {
    hide WritableEntries;
    if fields.Some? && "a" in fields.value && fields.value["a"].Array? {
      EntriesErrors(fields.value["a"].items, s, sessions);
    }
  }

  lemma {:induction false} EntriesErrors(entries: seq<Value>, s: Session, sessions: map<string, Session>)
    ensures WritableEntries(entries, s, sessions).Err? ==> OfContent(WritableEntries(entries, s, sessions).code)
    decreases |entries|
  {
    if entries != [] {
      EntriesErrors(entries[1..], s, sessions);
    }
  }

  lemma {:induction false} DefermentsErrors(c: Context, ops: seq<DefermentOp>, defs: map<string, Deferment>, docs: Docs,
                                            owners: Owners)
    ensures ApplyDeferments(c, ops, defs, docs, owners).Err? ==> OfContent(ApplyDeferments(c, ops, defs, docs, owners).code)
    decreases |ops|
  {
    hide CheckDeferred, DefermentBelongs;
    if ops != [] {
      DefermentsErrors(c, ops[..|ops| - 1], defs, docs, owners);
      match ops[|ops| - 1]
      case UpdateDeferment(Some(d)) => DeferredErrors(c, d.writes, docs, owners);
      case _ =>
    }
  }

  lemma {:induction false} DeferredErrors(c: Context, writes: seq<WriteOp>, docs: Docs, owners: Owners)
    ensures CheckDeferred(c, writes, docs, owners).Err? ==> OfContent(CheckDeferred(c, writes, docs, owners).code)
    decreases |writes|
  {
    hide WritableDocument;
    if writes != [] {
      DeferredErrors(c, writes[..|writes| - 1], docs, owners);
      var op := writes[|writes| - 1];
      if op.Delete? {
        WriteErrors(op.name, None, c.session, owners, op.name in docs, c.sessions);
      }
    }
  }

  // ----- deferments -----

  /** A deferment is taken in under its own name exactly when that name belongs
      to the session and it holds at least one write, each a delete the session
      may do now; a withdrawn one goes; no other changes. */
  lemma DefermentIs(c: Context, op: DefermentOp, defs: map<string, Deferment>, docs: Docs, owners: Owners)
    ensures var r := ApplyDeferment(c, op, defs, docs, owners);
            match op
            case DeleteDeferment(name) =>
              if Own(name, c.session)
              then r.Ok? && name !in r.value && forall k :: k != name ==> Get(r.value, k) == Get(defs, k)
              else r == Err(PermissionDenied)
            case UpdateDeferment(Some(d)) =>
              && (r.Ok? <==> Own(d.name, c.session) && d.writes != []
                             && forall i :: 0 <= i < |d.writes| ==> MayDelete(c, d.writes[i], docs, owners))
              && (r.Ok? ==> Get(r.value, d.name) == Some(d) && forall k :: k != d.name ==> Get(r.value, k) == Get(defs, k))
            case _ => r == Err(InvalidArgument)
  {
    hide CheckDeferred, DefermentBelongs, Own;
    match op
    case DeleteDeferment(name) => OwnIsBelonging(name, c.session);
    case UpdateDeferment(Some(d)) =>
      OwnIsBelonging(d.name, c.session);
      DeferredIs(c, d.writes, docs, owners);
    case _ =>
  }

  /** The two spellings of the session's own deferments. */
  predicate Own(name: string, s: Session) {
    var us := s.userSession;
    || "userSessions/current/deferments/" <= name
    || (if us != "" && us[|us| - 1] == '/' then us + "deferments/" <= name else us + "/deferments/" <= name)
  }

  lemma OwnIsBelonging(name: string, s: Session)
    ensures DefermentBelongs(name, s) <==> Own(name, s)
  {
    var us := s.userSession;
    if us != "" && us[|us| - 1] == '/' {
      assert us[..|us| - 1] + "/deferments/" == us + "deferments/";
    }
  }

  predicate MayDelete(c: Context, op: WriteOp, docs: Docs, owners: Owners) {
    op.Delete? && WritableDocument(op.name, None, c.session, owners, op.name in docs, c.sessions).Ok?
  }

  lemma {:induction false} DeferredIs(c: Context, writes: seq<WriteOp>, docs: Docs, owners: Owners)
    ensures CheckDeferred(c, writes, docs, owners).Ok? <==>
              forall i :: 0 <= i < |writes| ==> MayDelete(c, writes[i], docs, owners)
    decreases |writes|
  {
    hide WritableDocument;
    if writes != [] {
      var front := writes[..|writes| - 1];
      DeferredIs(c, front, docs, owners);
      assert forall i :: 0 <= i < |front| ==> front[i] == writes[i];
    }
  }
}
