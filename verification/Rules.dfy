// The rules of the document families spelled out (gamesync_store.go:
// documentPath, checkPrecondition, writableDocument; gamesync.go:
// targetMatchesDocument): which names are documents, exactly which writes and
// deletions each family accepts, when a precondition holds, and which documents
// a subscription target asks for.

module Rules {
  import opened Wrappers
  import opened Values
  import opened Text
  import opened Documents
  import opened Batch

  // ----- names -----

  /** An id that may end a document name. */
  predicate Usable(id: string) {
    id != "" && id != "." && id != ".."
  }

  /** docs/c/i is a document of collection c exactly when neither part is empty
      and i is not a dot or two; NameOfPath says that no other name is one. */
  lemma PathOfName(c: string, i: string)
    requires '/' !in c && '/' !in i
    ensures DocumentPath(Name(c, i)) == if c != "" && Usable(i) then Some((c, i)) else None
  {
    hide Split;
    SplitName(c, i);
  }

  // ----- preconditions -----

  /** A precondition holds of a document, or of its absence. */
  predicate Holds(p: Precondition, d: Option<Document>) {
    match p
    case Exists(wanted) => wanted <==> d.Some?
    case UpdateTime(t) => d.Some? && t == Some(d.value.updateTime)
    case EmptyCondition => false
  }

  /** An operation goes through only when its precondition holds; otherwise it
      fails as a precondition, or as an argument when it asks for nothing. */
  lemma PreconditionDecides(c: Context, op: WriteOp, w: Work)
    requires (op.Update? || op.Delete?) && op.current.Some?
    ensures ApplyOp(c, op, w).Ok? ==> Holds(op.current.value, Get(w.docs, op.name))
    ensures !Holds(op.current.value, Get(w.docs, op.name)) ==>
              ApplyOp(c, op, w) == Err(if op.current.value.EmptyCondition? then InvalidArgument else FailedPrecondition)
  {
    hide EditOf, WritableDocument;
  }

  // ----- families -----

  /** The recorded owner is the session. */
  predicate Owns(owners: map<string, string>, name: string, s: Session) {
    if name in owners then owners[name] == SessionId(s) else SessionId(s) == ""
  }

  predicate Says(f: Fields, key: string, v: Value) {
    key in f && f[key] == v
  }

  /** docs/p/i and docs/e/i: the writer's own number, and no foreign uid. */
  lemma PlayerRule(c: string, id: string, fields: Option<Fields>, s: Session, owners: map<string, string>, present: bool,
                   sessions: map<string, Session>)
    requires c in {"p", "e"} && '/' !in id
    ensures var r := WritableDocument(Name(c, id), fields, s, owners, present, sessions);
            && (r.Ok? <==> id == FormatInt(s.sequence)
                           && (fields.Some? && "uid" in fields.value ==> fields.value["uid"] == String(s.uid)))
            && (r.Err? && Usable(id) ==> r.code == PermissionDenied)
  {
    hide FormatInt, DocumentPath, Name;
    PathOfName(c, id);
    NumbersAreUsable(s.sequence);
  }

  lemma NumbersAreUsable(n: int)
    ensures Usable(FormatInt(n))
  {
    var d := Digits(if n < 0 then -n else n);
    assert d[0] != '.';
  }

  /** docs/c/i: sixteen lower-case hexadecimal digits, and nobody else's. */
  lemma ConnectionRule(id: string, fields: Option<Fields>, s: Session, owners: map<string, string>, present: bool,
                       sessions: map<string, Session>)
    requires '/' !in id
    ensures var name := Name("c", id);
            var r := WritableDocument(name, fields, s, owners, present, sessions);
            && (r.Ok? <==> |id| == 16 && (forall k :: 0 <= k < |id| ==> id[k] in "0123456789abcdef")
                           && (present ==> Owns(owners, name, s)))
            && (r.Err? && |id| == 16 && (forall k :: 0 <= k < |id| ==> id[k] in "0123456789abcdef") ==>
                  r.code == PermissionDenied)
  {
    hide DocumentPath, LastSegment, Name, ConnectionName;
    PathOfName("c", id);
    HexName(id);
  }

  lemma HexName(id: string)
    ensures ConnectionName(Name("c", id)) <==> |id| == 16 && forall k :: 0 <= k < |id| ==> id[k] in "0123456789abcdef"
  {
    var name := Name("c", id);
    assert name == "docs/c/" + id;
    assert forall k :: 0 <= k < |id| ==> name[k + 7] == id[k];
    if ConnectionName(name) {
      forall k | 0 <= k < |id| ensures id[k] in "0123456789abcdef" {
        assert HexDigit(name[k + 7]);
      }
    }
  }

  /** docs/__pus/i: the writer's own id, saying its uid, sequence and connection. */
  lemma StateRule(id: string, fields: Option<Fields>, s: Session, owners: map<string, string>, present: bool,
                  sessions: map<string, Session>)
    requires '/' !in id
    ensures var r := WritableDocument(Name("__pus", id), fields, s, owners, present, sessions);
            && (r.Ok? <==> id == SessionId(s) && Usable(id)
                           && (fields.Some? ==>
                                 && Says(fields.value, "uid", String(s.uid))
                                 && Says(fields.value, "ussid", Integer(s.sequence))
                                 && Says(fields.value, "ucsid", Integer(s.connection))))
            && (r.Err? && Usable(id) ==> r.code == PermissionDenied)
  {
    hide DocumentPath, LastSegment, Name;
    PathOfName("__pus", id);
  }

  /** docs/__bl/i: the writer's own id, saying its uid. */
  lemma BlocklistRule(id: string, fields: Option<Fields>, s: Session, owners: map<string, string>, present: bool,
                      sessions: map<string, Session>)
    requires '/' !in id
    ensures var r := WritableDocument(Name("__bl", id), fields, s, owners, present, sessions);
            && (r.Ok? <==> id == SessionId(s) && Usable(id) && (fields.Some? ==> Says(fields.value, "id", String(s.uid))))
            && (r.Err? && Usable(id) ==> r.code == PermissionDenied)
  {
    hide DocumentPath, LastSegment, Name;
    PathOfName("__bl", id);
  }

  /** A signalling envelope in the writer's name; deleting one needs its
      ownership. */
  predicate Sealed(name: string, fields: Option<Fields>, s: Session, owners: map<string, string>) {
    match fields
    case None => Owns(owners, name, s)
    case Some(f) =>
      && "suscid" in f && f["suscid"].Integer?
      && Says(f, "suid", String(s.uid)) && Says(f, "susid", String(SessionId(s))) && Says(f, "sussid", Integer(s.sequence))
      && "pl" in f && f["pl"].Bytes?
      && ("mp" in f ==> f["mp"].Map?)
  }

  /** docs/__stu/i: an envelope to a live member of the writer's game session. */
  lemma StationRule(id: string, fields: Option<Fields>, s: Session, owners: map<string, string>, present: bool,
                    sessions: map<string, Session>)
    requires '/' !in id
    ensures var name := Name("__stu", id);
            var r := WritableDocument(name, fields, s, owners, present, sessions);
            var there := id in sessions && sessions[id].gameSession == s.gameSession;
            && (r.Ok? <==> Usable(id) && there && Sealed(name, fields, s, owners))
            && (Usable(id) && !there ==> r == Err(PermissionDenied))
  {
    hide DocumentPath, LastSegment, Name;
    PathOfName("__stu", id);
  }

  /** docs/__stg/i: an envelope to everybody. */
  lemma GroupRule(id: string, fields: Option<Fields>, s: Session, owners: map<string, string>, present: bool,
                  sessions: map<string, Session>)
    requires '/' !in id
    ensures var name := Name("__stg", id);
            var r := WritableDocument(name, fields, s, owners, present, sessions);
            && (r.Ok? <==> id == "All" && Sealed(name, fields, s, owners))
            && (Usable(id) && id != "All" ==> r == Err(Unimplemented))
  {
    hide DocumentPath, LastSegment, Name;
    PathOfName("__stg", id);
  }

  /** One entry of the traversal report: by the writer, about a live member of
      its game session. */
  predicate Reports(entry: Value, s: Session, sessions: map<string, Session>) {
    && entry.Map?
    && var f := entry.fields;
    && Says(f, "lu", String(s.uid))
    && (exists id :: id in sessions && sessions[id].gameSession == s.gameSession
          && sessions[id].uid == if "ru" in f && f["ru"].String? then f["ru"].text else "")
    && Says(f, "p2p", String("nn::pia::npln::NplnPlugin"))
    && "rc" in f && f["rc"].Integer? && "re" in f && f["re"].Boolean?
  }

  /** docs/__mt/i: a traversal report with at least one entry; it is never
      deleted. */
  lemma MonitoringRule(id: string, fields: Option<Fields>, s: Session, owners: map<string, string>, present: bool,
                       sessions: map<string, Session>)
    requires '/' !in id
    ensures var r := WritableDocument(Name("__mt", id), fields, s, owners, present, sessions);
            && (r.Ok? <==> id == "nat_traversal" && fields.Some? && "a" in fields.value && fields.value["a"].Array?
                           && fields.value["a"].items != []
                           && forall k :: 0 <= k < |fields.value["a"].items| ==> Reports(fields.value["a"].items[k], s, sessions))
            && (fields.None? ==> r == Err(InvalidArgument))
  {
    hide DocumentPath, WritableEntries, Reports, LastSegment, Name;
    PathOfName("__mt", id);
    if fields.Some? && "a" in fields.value && fields.value["a"].Array? {
      EntriesRule(fields.value["a"].items, s, sessions);
    }
  }

  lemma {:induction false} EntriesRule(entries: seq<Value>, s: Session, sessions: map<string, Session>)
    ensures WritableEntries(entries, s, sessions).Ok? <==>
              forall k :: 0 <= k < |entries| ==> Reports(entries[k], s, sessions)
    decreases |entries|
  {
    hide WritableEntry, Reports;
    if entries != [] {
      EntriesRule(entries[1..], s, sessions);
      EntryRule(entries[0], s, sessions);
      assert forall k :: 1 <= k < |entries| ==> entries[k] == entries[1..][k - 1];
    }
  }

  lemma EntryRule(entry: Value, s: Session, sessions: map<string, Session>)
    ensures WritableEntry(FieldsOf(Some(entry)), s, sessions).Ok? <==> Reports(entry, s, sessions)
  {
  }

  /** No other collection is written by clients. */
  lemma OtherFamilies(c: string, id: string, fields: Option<Fields>, s: Session, owners: map<string, string>,
                      present: bool, sessions: map<string, Session>)
    requires '/' !in c && '/' !in id && c !in {"p", "e", "c", "__pus", "__bl", "__stu", "__stg", "__mt"}
    ensures WritableDocument(Name(c, id), fields, s, owners, present, sessions)
            == Err(if c != "" && Usable(id) then Unimplemented else InvalidArgument)
  {
    hide DocumentPath;
    PathOfName(c, id);
  }

  // ----- subscription targets -----

  /** A collection target asks for docs/c/i exactly when it names docs/c, and a
      documents target for exactly the names it lists. */
  lemma TargetAsks(target: Target, c: string, i: string)
    requires '/' !in c && '/' !in i
    ensures target.kind.CollectionTarget? ==>
              (TargetMatches(target, Name(c, i)) <==> target.kind.collection == "docs/" + c)
    ensures target.kind.DocumentsTarget? ==> (TargetMatches(target, Name(c, i)) <==> Name(c, i) in target.kind.names)
    ensures target.kind.NoTarget? ==> !TargetMatches(target, Name(c, i))
  {
    ParentIs("docs/" + c, i);
    assert Name(c, i) == ("docs/" + c) + "/" + i;
  }

  lemma ParentIs(parent: string, i: string)
    requires '/' !in i
    ensures ParentOf(parent + "/" + i) == parent
  {
    var s := parent + "/" + i;
    assert s[|parent|] == '/';
    assert forall j :: |parent| < j < |s| ==> s[j] == i[j - |parent| - 1];
    assert LastSlash(s) == |parent|;
  }

  /** The same of any name: a collection is what stands before the last slash,
      or the whole name when there is none. */
  lemma CollectionAsks(target: Target, parent: string, i: string)
    requires target.kind.CollectionTarget? && '/' !in i
    ensures TargetMatches(target, parent + "/" + i) <==> target.kind.collection == parent
    ensures TargetMatches(target, i) <==> target.kind.collection == i
  {
    ParentIs(parent, i);
    assert LastSlash(i) == -1;
  }
}
