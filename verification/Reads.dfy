// The read side of the Gamesync store and the listings of the registry
// (gamesync_reads.go: ReadDocuments, ListDocuments; session_service.go:
// QueryGameSessions, ListUserSessions).

module Reads {
  import opened Wrappers
  import opened Values
  import opened Text
  import opened FieldTree
  import opened Documents
  import opened Paging
  import opened Rooms
  import opened Registry

  // ----- reading by name -----

  datatype ReadResult = Found(document: Document) | Missing(name: string)

  /** What ReadDocuments answers for one name. */
  function ReadOne(docs: Docs, name: string, mask: Option<seq<string>>): Result<ReadResult> {
    if DocumentPath(name).None? then Err(InvalidArgument)
    else if name !in docs then Ok(Missing(name))
    else
      var d :- MaskedDocument(docs[name], mask);
      Ok(Found(d))
  }

  /** Every name is answered in its place, or the first that cannot be answers
      for all. */
  method ReadDocuments(docs: Docs, names: seq<string>, mask: Option<seq<string>>) returns (r: Result<seq<ReadResult>>)
    ensures |names| > 256 ==> r == Err(ResourceExhausted)
    ensures |names| <= 256 && r.Ok? ==>
              |r.value| == |names| && forall i :: 0 <= i < |names| ==> ReadOne(docs, names[i], mask) == Ok(r.value[i])
    ensures |names| <= 256 && r.Err? ==>
              exists i :: 0 <= i < |names| && FirstFailure(docs, names, mask, i) && ReadOne(docs, names[i], mask) == Err(r.code)
  {
    if |names| > 256 {
      return Err(ResourceExhausted);
    }
    hide DocumentPath;
    var out := [];
    var i := 0;
    while i < |names|
      invariant 0 <= i <= |names| && |out| == i
      invariant forall j :: 0 <= j < i ==> ReadOne(docs, names[j], mask) == Ok(out[j])
    {
      if DocumentPath(names[i]).None? {
        assert FirstFailure(docs, names, mask, i);
        return Err(InvalidArgument);
      }
      if names[i] !in docs {
        out := out + [Missing(names[i])];
      } else {
        var fields := CopyMaskLoop(map[], docs[names[i]].fields, mask);
        if fields.Err? {
          assert FirstFailure(docs, names, mask, i);
          return Err(fields.code);
        }
        out := out + [Found(docs[names[i]].(fields := fields.value))];
      }
      i := i + 1;
    }
    r := Ok(out);
  }

  ghost predicate FirstFailure(docs: Docs, names: seq<string>, mask: Option<seq<string>>, i: nat)
    requires i < |names|
  {
    ReadOne(docs, names[i], mask).Err? && forall j :: 0 <= j < i ==> ReadOne(docs, names[j], mask).Ok?
  }

  // ----- listing a collection -----

  function Slashes(s: string): nat {
    if s == "" then 0 else Slashes(s[..|s| - 1]) + if s[|s| - 1] == '/' then 1 else 0
  }

  predicate InCollection(parent: string, name: string) {
    parent + "/" <= name && Slashes(name) == 2
  }

  function CollectionNames(docs: Docs, parent: string): set<string> {
    set n | n in docs && InCollection(parent, n)
  }

  /** The names ListDocuments pages through. */
  ghost function Collection(docs: Docs, parent: string): seq<string> {
    Sorted(CollectionNames(docs, parent))
  }

  function Limit(pageSize: int, whenZero: nat): nat
    requires pageSize >= 0 && 0 < whenZero <= 100
  {
    if pageSize == 0 then whenZero else if pageSize > 100 then 100 else pageSize
  }

  datatype ListRequest = ListRequest(parent: string, pageSize: int, token: string, mask: Option<seq<string>>, showMissing: bool)

  function CheckList(q: ListRequest): Result<()> {
    if !("docs/" <= q.parent) || Slashes(q.parent) != 1 || |q.parent| <= 5 || q.pageSize < 0 then Err(InvalidArgument)
    else if q.showMissing then Err(Unimplemented)
    else if q.token != "" && !(q.parent + "/" <= q.token) then Err(InvalidArgument)
    else Ok(())
  }

  /** The documents of a page, in order; the mask applies to each. */
  function Masked(docs: Docs, names: seq<string>, mask: Option<seq<string>>): Result<seq<Document>>
    requires forall n :: n in names ==> n in docs
  {
    if names == [] then Ok([])
    else
      var front :- Masked(docs, names[..|names| - 1], mask);
      var d :- MaskedDocument(docs[names[|names| - 1]], mask);
      Ok(front + [d])
  }

  lemma {:induction false} MaskedFails(docs: Docs, names: seq<string>, i: nat, mask: Option<seq<string>>)
    requires i <= |names| && forall n :: n in names ==> n in docs
    requires Masked(docs, names[..i], mask).Err?
    ensures Masked(docs, names, mask) == Err(Masked(docs, names[..i], mask).code)
    decreases |names|
  {
    if i < |names| {
      assert names[..|names| - 1][..i] == names[..i];
      MaskedFails(docs, names[..|names| - 1], i, mask);
    } else {
      assert names[..i] == names;
    }
  }

  lemma CollectionIs(docs: Docs, parent: string)
    ensures forall n :: n in Collection(docs, parent) <==> n in docs && InCollection(parent, n)
    ensures "" !in Collection(docs, parent)
  {
    hide Less;
    forall n ensures n in Collection(docs, parent) <==> n in docs && InCollection(parent, n) {
      assert n in Collection(docs, parent) <==> n in Elements(Collection(docs, parent));
    }
  }

  /** The names of a page are stored ones of the collection. */
  lemma PageIsStored(docs: Docs, q: ListRequest)
    requires q.pageSize >= 0
    ensures var page := PageOf(Collection(docs, q.parent), q.token, Limit(q.pageSize, 20));
            && (forall n :: n in page.keys ==> n in docs)
            && (page.next != "" ==> InCollection(q.parent, page.next))
  {
    hide InCollection;
    var rest := After(Collection(docs, q.parent), q.token);
    CollectionIs(docs, q.parent);
    AfterIs(Collection(docs, q.parent), q.token);
    var limit := Limit(q.pageSize, 20);
    if |rest| > limit {
      assert rest[limit - 1] in rest;
    }
  }

  /** What ListDocuments answers. */
  ghost function ListPage(docs: Docs, q: ListRequest): Result<(seq<Document>, string)> {
    var _ :- CheckList(q);
    var page := PageOf(Collection(docs, q.parent), q.token, Limit(q.pageSize, 20));
    PageIsStored(docs, q);
    var documents :- Masked(docs, page.keys, q.mask);
    Ok((documents, page.next))
  }

  /** One page of a collection: its documents and the next token. */
  method ListDocuments(docs: Docs, q: ListRequest) returns (r: Result<(seq<Document>, string)>)
    ensures r == ListPage(docs, q)
  {
    hide InCollection, Sorted, After, DocumentPath, MaskedDocument;
    var checked := CheckList(q);
    if checked.Err? {
      return Err(checked.code);
    }
    var limit := Limit(q.pageSize, 20);
    var matching := MatchingNames(docs, q.parent, q.token);
    var names := SortNames(matching);
    AscendingUnique(names, Sorted(matching));
    SortedAfter(CollectionNames(docs, q.parent), q.token);
    forall n | n in names ensures n in docs {
      assert n in Elements(names);
    }
    var page := if |names| > limit then names[..limit] else names;
    var documents := MaskAll(docs, page, q.mask);
    if documents.Err? {
      return Err(documents.code);
    }
    r := Ok((documents.value, if |names| > limit then names[limit - 1] else ""));
  }

  method MaskAll(docs: Docs, names: seq<string>, mask: Option<seq<string>>) returns (r: Result<seq<Document>>)
    requires forall n :: n in names ==> n in docs
    ensures r == Masked(docs, names, mask)
  {
    var out := [];
    var i := 0;
    while i < |names|
      invariant 0 <= i <= |names|
      invariant Masked(docs, names[..i], mask) == Ok(out)
    {
      assert names[..i + 1][..i] == names[..i];
      assert names[i] in names;
      var fields := CopyMaskLoop(map[], docs[names[i]].fields, mask);
      if fields.Err? {
        MaskedFails(docs, names, i + 1, mask);
        return Err(fields.code);
      }
      out := out + [docs[names[i]].(fields := fields.value)];
      i := i + 1;
    }
    assert names[..i] == names;
    r := Ok(out);
  }

  method MatchingNames(docs: Docs, parent: string, token: string) returns (names: set<string>)
    ensures names == Later(CollectionNames(docs, parent), token)
  {
    hide InCollection, Less;
    names := {};
    var rest := docs.Keys;
    while rest != {}
      invariant rest <= docs.Keys
      invariant names == set n | n in docs && n !in rest && InCollection(parent, n) && Less(token, n)
      decreases |rest|
    {
      var n :| n in rest;
      if InCollection(parent, n) && Less(token, n) {
        names := names + {n};
      }
      rest := rest - {n};
    }
  }

  /** A next token is accepted with the next request. */
  lemma NextTokenIsAccepted(docs: Docs, q: ListRequest)
    requires ListPage(docs, q).Ok?
    ensures CheckList(q.(token := ListPage(docs, q).value.1)).Ok?
  {
    hide Sorted, After, Masked;
    PageIsStored(docs, q);
  }

  /** Everything a client gets by asking again with each next token. */
  ghost function ListAll(docs: Docs, q: ListRequest): Result<seq<Document>>
    decreases |After(Collection(docs, q.parent), q.token)|
  {
    var page :- ListPage(docs, q);
    if page.1 == "" then Ok(page.0)
    else
      NextIsLater(Collection(docs, q.parent), q.token, Limit(q.pageSize, 20));
      var rest :- ListAll(docs, q.(token := page.1));
      Ok(page.0 + rest)
  }

  lemma {:induction false} MaskedAppend(docs: Docs, xs: seq<string>, ys: seq<string>, mask: Option<seq<string>>)
    requires forall n :: n in xs + ys ==> n in docs
    ensures forall n :: n in xs ==> n in docs
    ensures forall n :: n in ys ==> n in docs
    ensures Masked(docs, xs + ys, mask) == Joined(Masked(docs, xs, mask), Masked(docs, ys, mask))
    decreases |ys|
  {
    hide MaskedDocument;
    forall n | n in xs || n in ys ensures n in xs + ys {
    }
    if ys == [] {
      assert xs + ys == xs;
      if Masked(docs, xs, mask).Ok? {
        assert Masked(docs, xs, mask).value + [] == Masked(docs, xs, mask).value;
      }
    } else {
      var front, last := ys[..|ys| - 1], ys[|ys| - 1];
      assert (xs + ys)[..|xs + ys| - 1] == xs + front && (xs + ys)[|xs + ys| - 1] == last;
      forall n | n in xs + front ensures n in xs + ys {
        assert n in xs || n in front;
      }
      MaskedAppend(docs, xs, front, mask);
      if Masked(docs, xs + ys, mask).Ok? {
        var a, b, d := Masked(docs, xs, mask).value, Masked(docs, front, mask).value, MaskedDocument(docs[last], mask).value;
        assert a + (b + [d]) == a + b + [d];
      }
    }
  }

  function Joined(a: Result<seq<Document>>, b: Result<seq<Document>>): Result<seq<Document>> {
    var first :- a;
    var second :- b;
    Ok(first + second)
  }

  lemma {:induction false} ListsTheRest(docs: Docs, q: ListRequest)
    requires CheckList(q).Ok?
    ensures forall n :: n in After(Collection(docs, q.parent), q.token) ==> n in docs
    ensures ListAll(docs, q) == Masked(docs, After(Collection(docs, q.parent), q.token), q.mask)
    decreases |After(Collection(docs, q.parent), q.token)|
  {
    hide Sorted, After, Masked, InCollection;
    var names, limit := Collection(docs, q.parent), Limit(q.pageSize, 20);
    var rest, page := After(names, q.token), PageOf(names, q.token, limit);
    CollectionIs(docs, q.parent);
    AfterIs(names, q.token);
    PageIsStored(docs, q);
    assert |rest| > limit ==> rest[limit - 1] in rest;
    if page.next != "" {
      NextIsLater(names, q.token, limit);
      assert rest == page.keys + rest[limit..];
      MaskedAppend(docs, page.keys, rest[limit..], q.mask);
      if ListPage(docs, q).Ok? {
        NextTokenIsAccepted(docs, q);
        ListsTheRest(docs, q.(token := page.next));
      }
    }
  }

  /** Following ListDocuments from the empty token comes to an end and gets the
      masked documents of the collection, in order of their names, each once; or
      the error of the first that cannot be masked. */
  lemma ListingIsComplete(docs: Docs, q: ListRequest)
    requires CheckList(q).Ok? && q.token == ""
    ensures forall n :: n in Collection(docs, q.parent) <==> n in docs && InCollection(q.parent, n)
    ensures ListAll(docs, q) == Masked(docs, Collection(docs, q.parent), q.mask)
  {
    hide Sorted, Masked, InCollection, CheckList, ListAll;
    CollectionIs(docs, q.parent);
    ListsTheRest(docs, q);
    var names := Collection(docs, q.parent);
    if names != [] {
      assert names[0] in names;
      assert Less("", names[0]);
    }
  }

  // ----- querying sessions -----

  datatype Query = Query(
    tenant: string,
    searchConfig: string,
    pageSize: int,
    token: string,
    minVacancy: int,
    minParticipants: int,
    properties: Fields,
    users: seq<string>)

  function Wanted(user: string, uid: string): string {
    if LastSegment(user) == "current" then uid else LastSegment(user)
  }

  predicate SearchesFriends(users: seq<string>, uid: string, friends: set<string>) {
    forall i :: 0 <= i < |users| ==> Wanted(users[i], uid) != "" && Wanted(users[i], uid) in friends
  }

  /** validateGameSessionSearchConfig. */
  function CheckSearch(q: Query, uid: string, friends: set<string>): Result<()> {
    var config := LastSegment(q.searchConfig);
    if config == "" then Ok(())
    else if config != "FriendSearch" then Err(Unimplemented)
    else if q.users == [] then Err(InvalidArgument)
    else if !SearchesFriends(q.users, uid, friends) then Err(PermissionDenied)
    else Ok(())
  }

  /** What QueryGameSessions refuses before it looks at any session. */
  function CheckQuery(q: Query, uid: string, friends: set<string>): Result<()> {
    if q.tenant != "" && q.tenant != "tenants/current" && q.tenant != TENANT then Err(InvalidArgument)
    else if q.pageSize < 0 || q.minVacancy < 0 || q.minParticipants < 0 then Err(InvalidArgument)
    else CheckSearch(q, uid, friends)
  }

  /** One page of the sessions that match, of those behind the token. */
  ghost function QueryPage(rooms: map<string, Room>, q: Query, uid: string, friends: set<string>): Result<Page> {
    var _ :- CheckQuery(q, uid, friends);
    Ok(PageOf(Sorted(Matching(rooms, q, uid, friends)), q.token, Limit(q.pageSize, 20)))
  }

  /** The loop of validateGameSessionSearchConfig. */
  method CheckSearchLoop(q: Query, uid: string, friends: set<string>) returns (r: Result<()>)
    ensures r == CheckSearch(q, uid, friends)
  {
    hide LastSegment;
    var config := LastSegment(q.searchConfig);
    if config == "" {
      return Ok(());
    }
    if config != "FriendSearch" {
      return Err(Unimplemented);
    }
    if |q.users| == 0 {
      return Err(InvalidArgument);
    }
    var i := 0;
    while i < |q.users|
      invariant 0 <= i <= |q.users|
      invariant forall j :: 0 <= j < i ==> Wanted(q.users[j], uid) != "" && Wanted(q.users[j], uid) in friends
    {
      var target := LastSegment(q.users[i]);
      if target == "current" {
        target := uid;
      }
      if target == "" || target !in friends {
        return Err(PermissionDenied);
      }
      i := i + 1;
    }
    r := Ok(());
  }

  predicate WantsUser(room: Room, users: seq<string>, uid: string) {
    || users == []
    || exists i :: 0 <= i < |users| && ListsUid(room.users, Wanted(users[i], uid))
  }

  predicate HasProperties(room: Room, wanted: Fields) {
    forall k :: k in wanted ==> Get(room.properties, k) == Some(wanted[k])
  }

  predicate Matches(room: Room, q: Query, uid: string, friends: set<string>) {
    && RoomVisible(Some(room), uid, friends) && room.canParticipate
    && room.max - room.count >= q.minVacancy && room.count >= q.minParticipants
    && HasProperties(room, q.properties) && WantsUser(room, q.users, uid)
  }

  function Matching(rooms: map<string, Room>, q: Query, uid: string, friends: set<string>): set<string> {
    set id | id in rooms && Matches(rooms[id], q, uid, friends)
  }

  /** QueryGameSessions: the ids of one page, and the next token, which the code
      takes from the last session's name. */
  method QueryGameSessions(rooms: map<string, Room>, q: Query, uid: string, friends: set<string>)
    returns (r: Result<Page>)
    requires forall id :: id in rooms ==> LastSegment(rooms[id].name) == id
    ensures r == QueryPage(rooms, q, uid, friends)
  {
    if q.tenant != "" && q.tenant != "tenants/current" && q.tenant != TENANT {
      return Err(InvalidArgument);
    }
    if q.pageSize < 0 || q.minVacancy < 0 || q.minParticipants < 0 {
      return Err(InvalidArgument);
    }
    var searched := CheckSearchLoop(q, uid, friends);
    if searched.Err? {
      return Err(searched.code);
    }
    var names := SortNames(rooms.Keys);
    var page := QueryLoop(rooms, q, uid, friends, names, Limit(q.pageSize, 20));
    r := Ok(page);
  }

  method QueryLoop(rooms: map<string, Room>, q: Query, uid: string, friends: set<string>, names: seq<string>,
                   limit: nat)
    returns (page: Page)
    requires forall id :: id in rooms ==> LastSegment(rooms[id].name) == id
    requires Ascending(names) && Elements(names) == rooms.Keys && limit > 0
    ensures page == PageOf(Sorted(Matching(rooms, q, uid, friends)), q.token, limit)
  {
    hide Matches, LastSegment, PageOf, Sorted, Less, Kept, Ascending;
    ghost var matching := Matching(rooms, q, uid, friends);
    ghost var keep := Later(matching, q.token);
    var out := [];
    var i := 0;
    KeptNone(keep);
    assert names[..0] == [];
    while i < |names|
      invariant 0 <= i <= |names|
      invariant out == Kept(names[..i], keep) && |out| <= limit
      invariant forall n :: n in out ==> n in rooms
    {
      KeptSnoc(names, i, keep);
      assert names[i] in Elements(names);
      if Less(q.token, names[i]) && Matches(rooms[names[i]], q, uid, friends) {
        PageStops(names, i, matching, q.token, out, limit);
        if |out| == limit {
          assert out[limit - 1] in out;
          return Page(out, LastSegment(rooms[out[limit - 1]].name));
        }
        out := out + [names[i]];
      }
      i := i + 1;
    }
    PageStops(names, i, matching, q.token, out, limit);
    page := Page(out, "");
  }

  /** Following the tokens of a query from the empty one visits exactly the
      matching sessions, in order of their ids, each once. */
  lemma QueryIsComplete(rooms: map<string, Room>, q: Query, uid: string, friends: set<string>)
    requires q.pageSize >= 0 && "" !in rooms
    ensures var ids := Sorted(Matching(rooms, q, uid, friends));
            && "" !in ids
            && Collect(ids, "", Limit(q.pageSize, 20)) == ids
            && forall id :: id in ids <==> id in rooms && Matches(rooms[id], q, uid, friends)
  {
    var ids := Sorted(Matching(rooms, q, uid, friends));
    forall id ensures id in ids <==> id in rooms && Matches(rooms[id], q, uid, friends) {
      assert id in ids <==> id in Elements(ids);
    }
    PagesAreComplete(ids, Limit(q.pageSize, 20));
  }
}
