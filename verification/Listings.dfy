// What the reads and listings answer, said of the documents and sessions
// themselves (gamesync_reads.go: ReadDocuments, ListDocuments; gamesync_store.go:
// maskedDocument; session_service.go: QueryGameSessions).

module Listings {
  import opened Wrappers
  import opened Values
  import opened Text
  import opened FieldPath
  import opened FieldTree
  import opened Documents
  import opened Rules
  import opened Rooms
  import opened Registry
  import opened Paging
  import opened Reads
  import Admissions
  import Members

  // ----- masked reads -----

  /** A masked document keeps its name and times. Without a mask, or under the
      lone wildcard, it keeps its fields; under any other mask whatever is
      incomparable with the masked paths is absent, and under a faithful mask
      each masked path reads as stored. A mask with a bad path is refused. */
  lemma MaskedReadIs(d: Document, mask: Option<seq<string>>)
    ensures var r := MaskedDocument(d, mask);
            && (r.Ok? ==> r.value == d.(fields := r.value.fields))
            && (mask.None? || mask.value == ["*"] ==> r == Ok(d))
            && (mask.Some? && mask.value != ["*"] ==>
                  && (r.Ok? <==> forall i :: 0 <= i < |mask.value| ==> ParseFieldPath(mask.value[i]).Ok?)
                  && forall paths :: Denotes(mask.value, paths) ==>
                       && r.Ok?
                       && (forall q :: Untouched(paths, q) ==> ReadField(r.value.fields, q) == None)
                       && (Faithful(paths) ==> Agrees(r.value.fields, d.fields, paths)))
  {
    hide ParseFieldPath, Faithful, Agrees, Untouched, Denotes, CopyPaths;
    if mask.Some? && mask.value != ["*"] {
      MaskParses(mask.value);
      forall paths | Denotes(mask.value, paths)
        ensures var r := MaskedDocument(d, mask);
                && r.Ok?
                && (forall q :: Untouched(paths, q) ==> ReadField(r.value.fields, q) == None)
                && (Faithful(paths) ==> Agrees(r.value.fields, d.fields, paths))
      {
        DenotedMask(mask.value, paths);
        ParsedMaskIsKeyPaths(mask.value);
        CopiedIs(d.fields, paths);
      }
    }
  }

  lemma CopiedIs(src: Fields, paths: seq<Path>)
    requires KeyPaths(paths)
    ensures var out := CopyPaths(map[], src, paths);
            && (forall q :: Untouched(paths, q) ==> ReadField(out, q) == None)
            && (Faithful(paths) ==> Agrees(out, src, paths))
  {
    hide Faithful, Untouched, CopyPaths;
    forall q | Untouched(paths, q) ensures ReadField(CopyPaths(map[], src, paths), q) == None {
      MaskLeavesApart(map[], src, paths, q);
      NothingThere(q);
    }
    if Faithful(paths) {
      forall i | 0 <= i < |paths|
        ensures ReadField(CopyPaths(map[], src, paths), paths[i]) == ReadField(src, paths[i])
      {
        FaithfulMaskAgrees(map[], src, paths, i);
      }
    }
  }

  lemma {:induction false} NothingThere(q: Path)
    ensures ReadField(map[], q) == None
    decreases |q|
  {
    if |q| > 1 {
      NothingThere(q[1..]);
    }
  }

  lemma {:induction false} MaskParses(mask: seq<string>)
    ensures ParseMask(mask).Ok? <==> forall i :: 0 <= i < |mask| ==> ParseFieldPath(mask[i]).Ok?
    decreases |mask|
  {
    hide ParseFieldPath;
    if mask != [] {
      var front := mask[..|mask| - 1];
      MaskParses(front);
      assert forall i :: 0 <= i < |front| ==> front[i] == mask[i];
    }
  }

  /** A name is answered by its masked document, or as missing. */
  lemma ReadOneIs(docs: Docs, c: string, i: string, mask: Option<seq<string>>)
    requires '/' !in c && '/' !in i
    ensures var n := Name(c, i);
            ReadOne(docs, n, mask)
            == if c == "" || !Usable(i) then Err(InvalidArgument)
               else if n !in docs then Ok(Missing(n))
               else if MaskedDocument(docs[n], mask).Err? then Err(MaskedDocument(docs[n], mask).code)
               else Ok(Found(MaskedDocument(docs[n], mask).value))
  {
    hide MaskedDocument, DocumentPath;
    PathOfName(c, i);
  }

  // ----- collections -----

  lemma {:induction false} SlashesOf(a: string, b: string)
    ensures Slashes(a + b) == Slashes(a) + Slashes(b)
    decreases |b|
  {
    if b == "" {
      assert a + b == a;
    } else {
      assert (a + b)[..|a + b| - 1] == a + b[..|b| - 1];
      SlashesOf(a, b[..|b| - 1]);
    }
  }

  lemma {:induction false} NoSlashes(s: string)
    ensures Slashes(s) == 0 <==> '/' !in s
    decreases |s|
  {
    if s != "" {
      NoSlashes(s[..|s| - 1]);
      assert s == s[..|s| - 1] + [s[|s| - 1]];
    }
  }

  /** The collection docs/d holds docs/c/i exactly when c is d. */
  lemma CollectionHolds(docs: Docs, d: string, c: string, i: string)
    requires '/' !in d && '/' !in c && '/' !in i
    ensures Name(c, i) in Collection(docs, "docs/" + d) <==> Name(c, i) in docs && c == d
  {
    hide Sorted, Slashes;
    CollectionIs(docs, "docs/" + d);
    var n := Name(c, i);
    assert n == "docs/" + (c + ("/" + i));
    SlashesOf("docs/", c + ("/" + i));
    SlashesOf(c, "/" + i);
    SlashesOf("/", i);
    NoSlashes(c);
    NoSlashes(i);
    OneSlash();
    SameCollection(d, c, i);
  }

  lemma OneSlash()
    ensures Slashes("/") == 1 && Slashes("docs/") == 1
  {
    SlashesOf("docs", "/");
    NoSlashes("docs");
    assert "docs" + "/" == "docs/";
    assert "/"[..0] == "";
  }

  lemma SameCollection(d: string, c: string, i: string)
    requires '/' !in d && '/' !in c
    ensures ("docs/" + d) + "/" <= Name(c, i) <==> c == d
  {
    var p, n := ("docs/" + d) + "/", Name(c, i);
    assert n == ("docs/" + c) + "/" + i;
    if p <= n {
      var rest := n[|p|..];
      assert n == "docs/" + (d + "/" + rest) && n == "docs/" + (c + "/" + i);
      assert n[5..] == d + "/" + rest && n[5..] == c + "/" + i;
      FirstPart(d, rest, c, i);
    }
  }

  lemma FirstPart(x: string, k: string, y: string, l: string)
    requires x + "/" + k == y + "/" + l && '/' !in x && '/' !in y
    ensures x == y
  {
    var s := x + "/" + k;
    assert s == y + "/" + l;
    assert s[|x|] == '/' && s[|y|] == '/';
    forall j | 0 <= j < |x| ensures s[j] != '/' {
      assert s[j] == x[j];
    }
    forall j | 0 <= j < |y| ensures s[j] != '/' {
      assert s[j] == y[j];
    }
    assert s[..|x|] == x && s[..|y|] == y;
  }

  /** A listing is asked of one collection, with a page size that is not
      negative and a token from that collection. */
  lemma ListRequestIs(q: ListRequest)
    ensures CheckList(q).Ok? <==>
              && (exists d :: d != "" && '/' !in d && q.parent == "docs/" + d)
              && q.pageSize >= 0 && !q.showMissing && (q.token == "" || q.parent + "/" <= q.token)
    ensures CheckList(q).Err? ==> CheckList(q).code in {InvalidArgument, Unimplemented}
    ensures CheckList(q) == Err(Unimplemented) ==> q.showMissing
  {
    hide Slashes;
    OneSlash();
    if "docs/" <= q.parent {
      var d := q.parent[5..];
      assert q.parent == "docs/" + d;
      SlashesOf("docs/", d);
      NoSlashes(d);
    }
    if d :| d != "" && '/' !in d && q.parent == "docs/" + d {
      assert "docs/" <= q.parent && q.parent[5..] == d;
    }
  }

  /** The number of entries a page may have: twenty unless asked for, at most a
      hundred. */
  predicate PageHas(size: int, n: nat) {
    n == if size == 0 then 20 else if size > 100 then 100 else size
  }

  /** A page is full when more follows, and never larger than asked for. */
  lemma PagesAreSized(docs: Docs, q: ListRequest, n: nat)
    requires ListPage(docs, q).Ok? && PageHas(q.pageSize, n)
    ensures |ListPage(docs, q).value.0| <= n
    ensures ListPage(docs, q).value.1 != "" ==> |ListPage(docs, q).value.0| == n
  {
    hide Sorted, After, Collection, CheckList, Masked;
    assert CheckList(q).Ok?;
    SizeIsNatural(q);
    PageIsStored(docs, q);
    var page := PageOf(Collection(docs, q.parent), q.token, Limit(q.pageSize, 20));
    MaskedLength(docs, page.keys, q.mask);
  }

  lemma SizeIsNatural(q: ListRequest)
    requires CheckList(q).Ok?
    ensures q.pageSize >= 0
  {
    hide Slashes;
  }

  lemma {:induction false} MaskedLength(docs: Docs, names: seq<string>, mask: Option<seq<string>>)
    requires forall n :: n in names ==> n in docs
    ensures Masked(docs, names, mask).Ok? ==>
              && |Masked(docs, names, mask).value| == |names|
              && forall i :: 0 <= i < |names| ==> MaskedDocument(docs[names[i]], mask) == Ok(Masked(docs, names, mask).value[i])
    decreases |names|
  {
    hide MaskedDocument;
    if names != [] {
      MaskedLength(docs, names[..|names| - 1], mask);
    }
  }

  // ----- queries -----

  /** Who a query's user names: the caller itself, or the user of that id. */
  predicate Means(user: string, uid: string, want: string) {
    want == if LastSegment(user) == "current" then uid else LastSegment(user)
  }

  /** A query is refused for another tenant, a negative number, or a search
      configuration other than that for friends, which takes users and each of
      them a friend. */
  lemma QueryRequestIs(q: Query, uid: string, friends: set<string>)
    ensures CheckQuery(q, uid, friends).Ok? <==>
              && (q.tenant == "" || q.tenant == "tenants/current" || q.tenant == "tenants/t-ba973ec6-lp1")
              && q.pageSize >= 0 && q.minVacancy >= 0 && q.minParticipants >= 0
              && (LastSegment(q.searchConfig) == ""
                  || (&& LastSegment(q.searchConfig) == "FriendSearch" && q.users != []
                      && OnlyFriends(q.users, uid, friends)))
    ensures CheckQuery(q, uid, friends) == Err(Unimplemented) ==> LastSegment(q.searchConfig) !in {"", "FriendSearch"}
    ensures CheckQuery(q, uid, friends) == Err(PermissionDenied) ==> LastSegment(q.searchConfig) == "FriendSearch"
  {
    hide LastSegment, SearchesFriends, OnlyFriends;
    FriendsOnly(q.users, uid, friends);
  }

  predicate OnlyFriends(users: seq<string>, uid: string, friends: set<string>) {
    forall i :: 0 <= i < |users| ==>
      if LastSegment(users[i]) == "current" then uid != "" && uid in friends
      else LastSegment(users[i]) != "" && LastSegment(users[i]) in friends
  }

  lemma FriendsOnly(users: seq<string>, uid: string, friends: set<string>)
    ensures SearchesFriends(users, uid, friends) <==> OnlyFriends(users, uid, friends)
  {
    hide LastSegment;
  }

  /** A query lists exactly the sessions that are shown to the caller, open, with
      enough places left and enough participants, that have every property asked
      for, and hold one of the users asked for, if any. */
  lemma QueryLists(rooms: map<string, Room>, q: Query, uid: string, friends: set<string>, id: string)
    requires id in rooms
    ensures var room := rooms[id];
            id in Sorted(Matching(rooms, q, uid, friends)) <==>
              && Admissions.Shown(room, uid, friends)
              && room.canParticipate
              && room.max - room.count >= q.minVacancy
              && room.count >= q.minParticipants
              && (forall k :: k in q.properties ==> k in room.properties && room.properties[k] == q.properties[k])
              && (q.users != [] ==>
                    exists i, j :: 0 <= i < |q.users| && 0 <= j < |room.users|
                                   && Means(q.users[i], uid, LastSegment(room.users[j].user)))
  {
    hide LastSegment, Admissions.Shown, RoomVisible;
    var room := rooms[id];
    assert id in Sorted(Matching(rooms, q, uid, friends)) <==> id in Elements(Sorted(Matching(rooms, q, uid, friends)));
    Admissions.ShownIsVisible(room, uid, friends);
    WantedIs(room, q.users, uid);
  }

  lemma WantedIs(room: Room, users: seq<string>, uid: string)
    ensures WantsUser(room, users, uid) <==>
              (users != [] ==>
                 exists i, j :: 0 <= i < |users| && 0 <= j < |room.users|
                                && Means(users[i], uid, LastSegment(room.users[j].user)))
  {
    hide LastSegment;
    if i, j :| 0 <= i < |users| && 0 <= j < |room.users| && Means(users[i], uid, LastSegment(room.users[j].user)) {
      assert ListsUid(room.users, Wanted(users[i], uid));
    }
    if users != [] && WantsUser(room, users, uid) {
      var i :| 0 <= i < |users| && ListsUid(room.users, Wanted(users[i], uid));
      var j :| 0 <= j < |room.users| && LastSegment(room.users[j].user) == Wanted(users[i], uid);
      assert Means(users[i], uid, LastSegment(room.users[j].user));
    }
  }

  /** A query's page is full when more follows, and never larger than asked for. */
  lemma QueriesAreSized(rooms: map<string, Room>, q: Query, uid: string, friends: set<string>, n: nat)
    requires QueryPage(rooms, q, uid, friends).Ok? && PageHas(q.pageSize, n)
    ensures |QueryPage(rooms, q, uid, friends).value.keys| <= n
    ensures QueryPage(rooms, q, uid, friends).value.next != "" ==> |QueryPage(rooms, q, uid, friends).value.keys| == n
  {
    hide Sorted, After, CheckSearch, Matching;
  }

  // ----- members -----

  /** The members of a session are listed to a member of it, who addresses it
      properly and asks for no negative number. */
  lemma MembersAreListed(rooms: map<string, Room>, parent: string, id: string, uid: string, pageSize: int)
    requires Admissions.Segment(id) && Admissions.Addresses(parent, id)
    ensures var r := Members.CheckMembers(rooms, parent, uid, pageSize);
            r == if pageSize < 0 then Err(InvalidArgument)
                 else if id !in rooms || !ListsUid(rooms[id].users, uid) then Err(PermissionDenied)
                 else Ok(rooms[id].users)
  {
    hide LastSegment, ListsUid, ValidSessionName, Admissions.Segment, Admissions.Addresses;
    Admissions.AddressIsValid(parent, id);
  }

  lemma MisaddressedMembers(rooms: map<string, Room>, parent: string, uid: string, pageSize: int)
    requires forall id :: Admissions.Segment(id) ==> !Admissions.Addresses(parent, id)
    ensures Members.CheckMembers(rooms, parent, uid, pageSize) == Err(InvalidArgument)
  {
    hide LastSegment, ListsUid, ValidSessionName, Admissions.Segment, Admissions.Addresses;
    Admissions.SessionNames(parent);
  }

  /** A page of members has at most the entries asked for, a hundred when none
      are, and is full when more follows. */
  lemma MemberPagesAreSized(s: seq<UserSession>, token: string, pageSize: int)
    requires pageSize >= 0
    ensures var page := Members.PageOf(s, token, Members.Limit(pageSize));
            var n := if 1 <= pageSize <= 100 then pageSize else 100;
            |page.users| <= n && (page.next != "" ==> |page.users| == n)
  {
    hide Members.Behind, Less;
  }
}
