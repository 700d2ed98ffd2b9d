// Document names, session bindings and the rules that decide who may write
// which document (gamesync_store.go: documentPath, checkPrecondition,
// writableDocument; gamesync.go: targetMatchesDocument and the observed* checks).

module Documents {
  import opened Wrappers
  import opened Values
  import opened Text

  datatype Session = Session(
    uid: string,
    gameSession: string,
    userSession: string,
    team: string,
    sequence: int64,
    connection: int64,
    attributes: Fields,
    latency: string,
    createdAt: Time)

  /** The store keys sessions, owners and user documents by this id. */
  function SessionId(s: Session): string {
    LastSegment(s.userSession)
  }

  // ----- names -----

  function Name(collection: string, id: string): string {
    "docs/" + collection + "/" + id
  }

  /** The game session's fixed data, docs/__gs/f. */
  const FIXED := Name("__gs", "f")

  /** Every docs/__us document starts so. */
  const US_PREFIX := "docs/" + "__us" + "/"

  function UsName(id: string): string {
    Name("__us", id)
  }

  function DocumentPath(name: string): Option<(string, string)> {
    var parts := Split(name, '/');
    if |parts| != 3 || parts[0] != "docs" || parts[1] == "" || parts[2] == "" || parts[2] == "." || parts[2] == ".."
    then None
    else Some((parts[1], parts[2]))
  }

  lemma NameJoins(c: string, i: string)
    ensures Join(["docs", c, i], '/') == Name(c, i)
  {
    assert ["docs", c, i][1..] == [c, i] && [c, i][1..] == [i];
    assert Join([c, i], '/') == c + "/" + i;
    assert "docs" + "/" == "docs/";
    assert Join(["docs", c, i], '/') == "docs" + "/" + (c + "/" + i);
  }

  lemma SplitName(c: string, i: string)
    requires '/' !in c && '/' !in i
    ensures Split(Name(c, i), '/') == ["docs", c, i]
  {
    NameJoins(c, i);
    SplitJoin(["docs", c, i], '/');
  }

  lemma NameOfPath(name: string)
    requires DocumentPath(name).Some?
    ensures var (c, i) := DocumentPath(name).value;
            name == Name(c, i) && '/' !in c && '/' !in i
  {
    var parts := Split(name, '/');
    assert parts == ["docs", parts[1], parts[2]];
    JoinSplit(name, '/');
    NameJoins(parts[1], parts[2]);
  }

  lemma CollectionOfUsName(c: string, i: string)
    requires '/' !in c && US_PREFIX <= Name(c, i)
    ensures c == "__us"
  {
    var name := Name(c, i);
    assert name[5 + |c|] == '/' && name[9] == '/' && name[5..9] == "__us";
    assert forall j :: 0 <= j < |c| ==> name[5 + j] == c[j];
    assert forall j :: 5 <= j < 9 ==> name[j] == name[5..9][j - 5] != '/';
    assert c == name[5..9];
  }

  /** A name that parses into another collection is not a user document. */
  lemma OtherCollection(name: string)
    requires DocumentPath(name).Some? && DocumentPath(name).value.0 != "__us"
    ensures !(US_PREFIX <= name)
  {
    NameOfPath(name);
    if US_PREFIX <= name {
      CollectionOfUsName(DocumentPath(name).value.0, DocumentPath(name).value.1);
    }
  }

  lemma FixedPath()
    ensures DocumentPath(FIXED) == Some(("__gs", "f"))
    ensures !(US_PREFIX <= FIXED)
  {
    hide Split;
    SplitName("__gs", "f");
    OtherCollection(FIXED);
  }

  lemma UsNamePath(id: string)
    requires '/' !in id
    ensures Split(UsName(id), '/') == ["docs", "__us", id]
    ensures US_PREFIX <= UsName(id) && UsName(id)[|US_PREFIX|..] == id
  {
    SplitName("__us", id);
    assert UsName(id) == US_PREFIX + id;
  }

  // ----- values a rule looks for -----

  predicate IsString(v: Option<Value>, expected: string) {
    v == Some(String(expected))
  }

  predicate IsInteger(v: Option<Value>, expected: int64) {
    v == Some(Integer(expected))
  }

  predicate HexDigit(c: char) {
    c in "0123456789abcdef"
  }

  predicate ConnectionName(name: string) {
    "docs/c/" <= name && |name| == 7 + 16 && forall k :: 7 <= k < |name| ==> HexDigit(name[k])
  }

  function CheckPrecondition(p: Option<Precondition>, doc: Option<Document>): Result<()> {
    match p
    case None => Ok(())
    case Some(Exists(want)) => if want != doc.Some? then Err(FailedPrecondition) else Ok(())
    case Some(UpdateTime(t)) =>
      if doc.None? || t.None? || t.value != doc.value.updateTime then Err(FailedPrecondition) else Ok(())
    case Some(EmptyCondition) => Err(InvalidArgument)
  }

  // ----- who may write what -----

  /** The recorded owner; Go reads a missing entry as the empty string. */
  function OwnerOf(owners: map<string, string>, name: string): string {
    if name in owners then owners[name] else ""
  }

  /** p and e: one document per join sequence, carrying its writer's uid if any. */
  function WritablePlayer(id: string, fields: Option<Fields>, s: Session): Result<()> {
    if id != FormatInt(s.sequence) then Err(PermissionDenied)
    else if fields.Some? && "uid" in fields.value && !IsString(Get(fields.value, "uid"), s.uid)
    then Err(PermissionDenied)
    else Ok(())
  }

  function WritableConnection(name: string, s: Session, owners: map<string, string>, present: bool): Result<()> {
    if !ConnectionName(name) then Err(InvalidArgument)
    else if present && OwnerOf(owners, name) != SessionId(s) then Err(PermissionDenied)
    else Ok(())
  }

  function WritableState(id: string, fields: Option<Fields>, s: Session): Result<()> {
    if id != SessionId(s) then Err(PermissionDenied)
    else if fields.None? then Ok(())
    else if !IsString(Get(fields.value, "uid"), s.uid) then Err(PermissionDenied)
    else if !IsInteger(Get(fields.value, "ussid"), s.sequence) || !IsInteger(Get(fields.value, "ucsid"), s.connection)
    then Err(PermissionDenied)
    else Ok(())
  }

  function WritableBlocklist(id: string, fields: Option<Fields>, s: Session): Result<()> {
    if id != SessionId(s) then Err(PermissionDenied)
    else if fields.Some? && !IsString(Get(fields.value, "id"), s.uid) then Err(PermissionDenied)
    else Ok(())
  }

  /** The signalling envelope both mailbox families share. */
  function WritableEnvelope(name: string, fields: Option<Fields>, s: Session, owners: map<string, string>): Result<()> {
    if fields.None? then
      if OwnerOf(owners, name) != SessionId(s) then Err(PermissionDenied) else Ok(())
    else
      var f := fields.value;
      if !("suscid" in f && f["suscid"].Integer?) then Err(InvalidArgument)
      else if !IsString(Get(f, "suid"), s.uid) || !IsString(Get(f, "susid"), SessionId(s))
              || !IsInteger(Get(f, "sussid"), s.sequence)
      then Err(PermissionDenied)
      else if !("pl" in f && f["pl"].Bytes?) then Err(InvalidArgument)
      else if "mp" in f && !f["mp"].Map? then Err(InvalidArgument)
      else Ok(())
  }

  predicate HasPeer(sessions: map<string, Session>, game: string, uid: string) {
    exists id :: id in sessions && sessions[id].gameSession == game && sessions[id].uid == uid
  }

  function WritableEntry(entry: Fields, s: Session, sessions: map<string, Session>): Result<()> {
    if !IsString(Get(entry, "lu"), s.uid) then Err(PermissionDenied)
    else if !HasPeer(sessions, s.gameSession, StringOf(Get(entry, "ru"))) then Err(PermissionDenied)
    else if StringOf(Get(entry, "p2p")) != "nn::pia::npln::NplnPlugin" then Err(InvalidArgument)
    else if !("rc" in entry && entry["rc"].Integer?) then Err(InvalidArgument)
    else if !("re" in entry && entry["re"].Boolean?) then Err(InvalidArgument)
    else Ok(())
  }

  function WritableEntries(entries: seq<Value>, s: Session, sessions: map<string, Session>): Result<()> {
    if entries == [] then Ok(())
    else
      var _ :- WritableEntry(FieldsOf(Some(entries[0])), s, sessions);
      WritableEntries(entries[1..], s, sessions)
  }

  function WritableMonitoring(id: string, fields: Option<Fields>, s: Session, sessions: map<string, Session>)
    : Result<()>
  {
    if id != "nat_traversal" || fields.None? then Err(InvalidArgument)
    else
      var a := Get(fields.value, "a");
      if !(a.Some? && a.value.Array?) || a.value.items == [] then Err(InvalidArgument)
      else WritableEntries(a.value.items, s, sessions)
  }

  /** May session s leave `fields` under `name` (None: delete it)? `present`
      tells whether a document is there now. */
  function WritableDocument(name: string, fields: Option<Fields>, s: Session, owners: map<string, string>,
                            present: bool, sessions: map<string, Session>): Result<()> {
    var path := DocumentPath(name);
    if path.None? then Err(InvalidArgument)
    else
      var (collection, id) := path.value;
      if collection == "p" || collection == "e" then WritablePlayer(id, fields, s)
      else if collection == "c" then WritableConnection(name, s, owners, present)
      else if collection == "__pus" then WritableState(id, fields, s)
      else if collection == "__bl" then WritableBlocklist(id, fields, s)
      else if collection == "__stu" then
        if id !in sessions || sessions[id].gameSession != s.gameSession then Err(PermissionDenied)
        else WritableEnvelope(name, fields, s, owners)
      else if collection == "__stg" then
        if id != "All" then Err(Unimplemented) else WritableEnvelope(name, fields, s, owners)
      else if collection == "__mt" then WritableMonitoring(id, fields, s, sessions)
      else Err(Unimplemented)
  }

  // ----- what a stored document says about its owner -----

  /** The collections clients write. */
  predicate ClientCollection(c: string) {
    c in {"p", "e", "c", "__pus", "__bl", "__stu", "__stg", "__mt"}
  }

  predicate ClientName(name: string) {
    DocumentPath(name).Some? && ClientCollection(DocumentPath(name).value.0)
  }

  /** The shared mailboxes, which any member may overwrite. */
  predicate Mailbox(name: string) {
    var path := DocumentPath(name);
    path.Some? && (path.value.0 == "__stu" || path.value == ("__stg", "All") || path.value == ("__mt", "nat_traversal"))
  }

  predicate Envelope(f: Fields, s: Session) {
    && IsString(Get(f, "suid"), s.uid)
    && IsString(Get(f, "susid"), SessionId(s))
    && IsInteger(Get(f, "sussid"), s.sequence)
  }

  predicate ReportsOf(f: Fields, s: Session) {
    && "a" in f && f["a"].Array? && |f["a"].items| > 0
    && forall k :: 0 <= k < |f["a"].items| ==> IsString(Get(FieldsOf(Some(f["a"].items[k])), "lu"), s.uid)
  }

  /** The document names the session as its author in the way its family
      demands. */
  predicate Attributed(name: string, f: Fields, s: Session) {
    var path := DocumentPath(name);
    && path.Some?
    && var (c, id) := path.value;
    && ClientCollection(c)
    && (c == "p" || c == "e" ==> id == FormatInt(s.sequence) && ("uid" in f ==> IsString(Get(f, "uid"), s.uid)))
    && (c == "c" ==> ConnectionName(name))
    && (c == "__pus" ==> id == SessionId(s) && IsString(Get(f, "uid"), s.uid)
                         && IsInteger(Get(f, "ussid"), s.sequence) && IsInteger(Get(f, "ucsid"), s.connection))
    && (c == "__bl" ==> id == SessionId(s) && IsString(Get(f, "id"), s.uid))
    && (c == "__stu" ==> Envelope(f, s))
    && (c == "__stg" ==> id == "All" && Envelope(f, s))
    && (c == "__mt" ==> id == "nat_traversal" && ReportsOf(f, s))
  }

  lemma {:induction false} WritableEntriesAreOwn(entries: seq<Value>, s: Session, sessions: map<string, Session>,
                                                 k: nat)
    requires WritableEntries(entries, s, sessions).Ok? && k < |entries|
    ensures IsString(Get(FieldsOf(Some(entries[k])), "lu"), s.uid)
  {
    if k > 0 {
      WritableEntriesAreOwn(entries[1..], s, sessions, k - 1);
    }
  }

  /** Whatever passes the write rules is attributed to its writer. */
  lemma WrittenIsAttributed(name: string, f: Fields, s: Session, owners: map<string, string>, present: bool,
                            sessions: map<string, Session>)
    requires WritableDocument(name, Some(f), s, owners, present, sessions).Ok?
    ensures Attributed(name, f, s)
  {
    if DocumentPath(name).value.0 == "__mt" {
      var items := f["a"].items;
      forall k | 0 <= k < |items| ensures IsString(Get(FieldsOf(Some(items[k])), "lu"), s.uid) {
        WritableEntriesAreOwn(items, s, sessions, k);
      }
    }
  }

  lemma WritableNames(name: string, fields: Option<Fields>, s: Session, owners: map<string, string>, present: bool,
                      sessions: map<string, Session>)
    requires WritableDocument(name, fields, s, owners, present, sessions).Ok?
    ensures ClientName(name)
  {
  }

  lemma ClientNamesApart(name: string)
    requires ClientName(name)
    ensures name != FIXED && !(US_PREFIX <= name)
  {
    FixedPath();
    OtherCollection(name);
  }

  /** Two attributed owners of one unshared document are the same session:
      its name or the live ownership check pins it down. */
  lemma RivalWriteRefused(name: string, fields: Option<Fields>, s: Session, owners: map<string, string>,
                          sessions: map<string, Session>, was: Fields, other: Session)
    requires Attributed(name, was, other) && !Mailbox(name)
    requires name in owners && owners[name] == SessionId(other)
    requires SessionId(s) != SessionId(other) && s.sequence != other.sequence
    requires s.sequence >= 0 && other.sequence >= 0
    ensures WritableDocument(name, fields, s, owners, true, sessions).Err?
  {
    var (c, id) := DocumentPath(name).value;
    if c == "p" || c == "e" {
      if FormatInt(s.sequence) == FormatInt(other.sequence) {
        DigitsInjective(s.sequence, other.sequence);
      }
    }
  }

  // ----- subscription targets -----

  datatype TargetKind =
    | DocumentsTarget(names: seq<string>)
    | CollectionTarget(collection: string)
    | NoTarget

  datatype Target = Target(name: string, kind: TargetKind)

  function ParentOf(name: string): string {
    if LastSlash(name) >= 0 then name[..LastSlash(name)] else name
  }

  predicate TargetMatches(target: Target, name: string) {
    match target.kind
    case DocumentsTarget(names) => name in names
    case CollectionTarget(collection) => collection == ParentOf(name)
    case NoTarget => false
  }
}
