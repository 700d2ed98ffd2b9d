// The paginated listing of a session's members (session_service.go,
// ListUserSessions), whose names need not be unique, and the exact condition
// under which following its tokens shows every member.

module Members {
  import opened Wrappers
  import opened Text
  import opened Rooms
  import opened Registry

  // ----- sorted members -----

  /** Sorted by name; members of one name in any order. */
  ghost predicate Sorted(s: seq<UserSession>) {
    forall i, j :: 0 <= i < j < |s| ==> !Less(s[j].name, s[i].name)
  }

  ghost predicate Named(s: seq<UserSession>) {
    forall i :: 0 <= i < |s| ==> s[i].name != ""
  }

  ghost predicate Unique(s: seq<UserSession>) {
    forall i, j :: 0 <= i < j < |s| ==> s[i].name != s[j].name
  }

  lemma NotLessTransitive(a: string, b: string, c: string)
    requires !Less(b, a) && Less(c, a)
    ensures Less(c, b)
  {
    LessTotal(a, b);
    if Less(a, b) {
      LessTransitive(c, a, b);
    }
  }

  /** sort.Slice by name. */
  method SortUsers(users: seq<UserSession>) returns (sorted: seq<UserSession>)
    ensures Sorted(sorted) && multiset(sorted) == multiset(users)
  {
    hide Less;
    sorted := [];
    var i := 0;
    while i < |users|
      invariant 0 <= i <= |users|
      invariant Sorted(sorted) && multiset(sorted) == multiset(users[..i])
    {
      sorted := InsertUser(sorted, users[i]);
      assert users[..i + 1] == users[..i] + [users[i]];
      i := i + 1;
    }
    assert users[..i] == users;
  }

  method InsertUser(s: seq<UserSession>, u: UserSession) returns (r: seq<UserSession>)
    requires Sorted(s)
    ensures Sorted(r) && multiset(r) == multiset(s) + multiset{u}
  {
    hide Less;
    var i := 0;
    while i < |s| && !Less(u.name, s[i].name)
      invariant 0 <= i <= |s|
      invariant forall j :: 0 <= j < i ==> !Less(u.name, s[j].name)
    {
      i := i + 1;
    }
    r := s[..i] + [u] + s[i..];
    InsertedIs(s, u, i);
  }

  lemma InsertedIs(s: seq<UserSession>, u: UserSession, i: nat)
    requires Sorted(s) && i <= |s| && (i < |s| ==> Less(u.name, s[i].name))
    requires forall j :: 0 <= j < i ==> !Less(u.name, s[j].name)
    ensures Sorted(s[..i] + [u] + s[i..]) && multiset(s[..i] + [u] + s[i..]) == multiset(s) + multiset{u}
  {
    hide Less;
    forall j | i <= j < |s| ensures !Less(s[j].name, u.name) {
      if Less(s[j].name, u.name) {
        LessTransitive(s[j].name, u.name, s[i].name);
        LessIrreflexive(s[i].name);
      }
    }
    InsertedSame(s, u, i);
  }

  lemma InsertedSame(s: seq<UserSession>, u: UserSession, i: nat)
    requires i <= |s|
    ensures multiset(s[..i] + [u] + s[i..]) == multiset(s) + multiset{u}
  {
    assert s == s[..i] + s[i..];
  }

  // ----- one page -----

  /** The members behind a token, in a sorted list. */
  function Behind(s: seq<UserSession>, token: string): (rest: seq<UserSession>)
    ensures |rest| <= |s| && rest == s[|s| - |rest|..]
  {
    if s == [] || Less(token, s[0].name) then s else Behind(s[1..], token)
  }

  datatype MemberPage = MemberPage(users: seq<UserSession>, next: string)

  function PageOf(s: seq<UserSession>, token: string, limit: nat): MemberPage
    requires limit > 0
  {
    var rest := Behind(s, token);
    if |rest| > limit then MemberPage(rest[..limit], rest[limit - 1].name) else MemberPage(rest, "")
  }

  lemma AllBehind(s: seq<UserSession>, token: string)
    requires Sorted(s) && |s| > 0 && Less(token, s[0].name)
    ensures forall j :: 0 <= j < |s| ==> Less(token, s[j].name)
  {
    hide Less;
    forall j | 0 < j < |s| ensures Less(token, s[j].name) {
      NotLessTransitive(s[0].name, s[j].name, token);
    }
  }

  lemma {:induction false} BehindIs(s: seq<UserSession>, token: string)
    requires Sorted(s)
    ensures var k := |s| - |Behind(s, token)|;
            && (forall j :: 0 <= j < k ==> !Less(token, s[j].name))
            && (forall j :: k <= j < |s| ==> Less(token, s[j].name))
    decreases |s|
  {
    hide Less;
    if s != [] {
      if Less(token, s[0].name) {
        AllBehind(s, token);
      } else {
        var rest := s[1..];
        BehindIs(rest, token);
        assert Behind(s, token) == Behind(rest, token);
        forall j | 1 <= j < |s| ensures s[j] == rest[j - 1] {
        }
      }
    }
  }

  /** The page loop, which skips members up to the token one by one. */
  method PageLoop(sorted: seq<UserSession>, token: string, limit: nat) returns (page: MemberPage)
    requires Sorted(sorted) && limit > 0
    ensures page == PageOf(sorted, token, limit)
  {
    hide Less, Behind, Sorted;
    BehindIs(sorted, token);
    ghost var rest := Behind(sorted, token);
    ghost var k := |sorted| - |rest|;
    var out := [];
    var i := 0;
    while i < |sorted|
      invariant 0 <= i <= |sorted| && |out| <= limit
      invariant |out| == (if i <= k then 0 else i - k) && out == rest[..|out|]
    {
      if Less(token, sorted[i].name) {
        assert i >= k && sorted[i] == rest[i - k];
        if |out| == limit {
          return MemberPage(out, out[limit - 1].name);
        }
        assert rest[..i - k + 1] == rest[..i - k] + [rest[i - k]];
        out := out + [sorted[i]];
      }
      i := i + 1;
    }
    assert rest[..|rest|] == rest;
    page := MemberPage(out, "");
  }

  function Limit(pageSize: int): nat
    requires pageSize >= 0
  {
    if pageSize == 0 || pageSize > 100 then 100 else pageSize
  }

  function CheckMembers(rooms: map<string, Room>, parent: string, uid: string, pageSize: int): Result<seq<UserSession>> {
    if !ValidSessionName(parent) || pageSize < 0 then Err(InvalidArgument)
    else if LastSegment(parent) !in rooms || !ListsUid(rooms[LastSegment(parent)].users, uid) then Err(PermissionDenied)
    else Ok(rooms[LastSegment(parent)].users)
  }

  /** ListUserSessions: one page of the session's members in some order by name,
      for a member of it. */
  method ListUserSessions(rooms: map<string, Room>, parent: string, uid: string, pageSize: int, token: string)
    returns (r: Result<MemberPage>, ghost sorted: seq<UserSession>)
    ensures var checked := CheckMembers(rooms, parent, uid, pageSize);
            && (checked.Err? ==> r == Err(checked.code))
            && (checked.Ok? ==>
                  && Sorted(sorted) && multiset(sorted) == multiset(checked.value)
                  && r == Ok(PageOf(sorted, token, Limit(pageSize))))
  {
    hide ValidSessionName, ListsUid, PageOf;
    sorted := [];
    var checked := CheckMembers(rooms, parent, uid, pageSize);
    if checked.Err? {
      return Err(checked.code), sorted;
    }
    var users := SortUsers(checked.value);
    var page := PageLoop(users, token, Limit(pageSize));
    r, sorted := Ok(page), users;
  }

  // ----- following the tokens -----

  lemma NextIsLater(s: seq<UserSession>, token: string, limit: nat)
    requires Sorted(s) && limit > 0 && |Behind(s, token)| > limit
    ensures var rest := Behind(s, token);
            && Sorted(rest)
            && Behind(s, rest[limit - 1].name) == Behind(rest, rest[limit - 1].name)
            && |Behind(rest, rest[limit - 1].name)| <= |rest| - limit
  {
    hide Less, Behind;
    var rest := Behind(s, token);
    var k, next := |s| - |rest|, rest[limit - 1].name;
    assert rest == s[k..];
    SuffixSorted(s, k);
    NotBehind(s, k + limit - 1);
    SameStart(s, k, next);
    NotBehind(rest, limit - 1);
    ShorterBehind(rest, limit, next);
  }

  lemma SuffixSorted(s: seq<UserSession>, k: nat)
    requires Sorted(s) && k <= |s|
    ensures Sorted(s[k..])
  {
    hide Less;
  }

  /** Members up to a name are not behind it. */
  lemma NotBehind(s: seq<UserSession>, k: nat)
    requires Sorted(s) && k < |s|
    ensures forall j :: 0 <= j <= k ==> !Less(s[k].name, s[j].name)
  {
    hide Less;
    LessIrreflexive(s[k].name);
  }

  lemma ShorterBehind(s: seq<UserSession>, limit: nat, next: string)
    requires Sorted(s) && limit <= |s| && forall j :: 0 <= j < limit ==> !Less(next, s[j].name)
    ensures |Behind(s, next)| <= |s| - limit
  {
    hide Less, Behind;
    BehindIs(s, next);
    var last := if limit > 0 then s[limit - 1].name else "";
    assert limit > 0 ==> !Less(next, last);
  }

  lemma {:induction false} SameStart(s: seq<UserSession>, k: nat, next: string)
    requires k <= |s| && forall j :: 0 <= j < k ==> !Less(next, s[j].name)
    ensures Behind(s, next) == Behind(s[k..], next)
    decreases k
  {
    hide Less;
    if k == 0 {
      assert s[0..] == s;
    } else {
      assert s[1..][k - 1..] == s[k..];
      SameStart(s[1..], k - 1, next);
    }
  }

  /** Everything a client is shown by asking again with each next token. */
  ghost function Shown(s: seq<UserSession>, token: string, limit: nat): seq<UserSession>
    requires Sorted(s) && limit > 0
    decreases |Behind(s, token)|
  {
    var page := PageOf(s, token, limit);
    if page.next == "" then page.users
    else
      NextIsLater(s, token, limit);
      page.users + Shown(s, page.next, limit)
  }

  /** Some page ends between two members of one name. */
  predicate Splits(s: seq<UserSession>, limit: nat)
    requires limit > 0
    decreases |s|
  {
    |s| > limit && (s[limit - 1].name == s[limit].name || Splits(s[limit..], limit))
  }

  lemma {:induction false} ShownIs(s: seq<UserSession>, token: string, limit: nat)
    requires Sorted(s) && Named(s) && limit > 0
    ensures |Shown(s, token, limit)| <= |Behind(s, token)|
    ensures Shown(s, token, limit) == Behind(s, token) <==> !Splits(Behind(s, token), limit)
    decreases |Behind(s, token)|
  {
    hide Less, Behind, Sorted;
    var rest, page := Behind(s, token), PageOf(s, token, limit);
    if |rest| > limit {
      assert page.next == s[|s| - |rest| + limit - 1].name;
      NextIsLater(s, token, limit);
      ShownIs(s, page.next, limit);
      if rest[limit].name != rest[limit - 1].name {
        NextStarts(rest, limit);
        SplitAt(rest, limit, Shown(s, page.next, limit));
      } else {
        SharedIsSkipped(rest, limit);
      }
    }
  }

  lemma SplitAt(rest: seq<UserSession>, limit: nat, tail: seq<UserSession>)
    requires limit <= |rest|
    ensures rest[..limit] + tail == rest <==> tail == rest[limit..]
  {
    assert rest == rest[..limit] + rest[limit..];
    if rest[..limit] + tail == rest {
      assert tail == (rest[..limit] + tail)[limit..];
    }
  }

  lemma NextStarts(rest: seq<UserSession>, limit: nat)
    requires Sorted(rest) && 0 < limit < |rest| && rest[limit].name != rest[limit - 1].name
    ensures Behind(rest, rest[limit - 1].name) == rest[limit..]
  {
    hide Less;
    var next := rest[limit - 1].name;
    BehindIs(rest, next);
    LessTotal(next, rest[limit].name);
    LessIrreflexive(next);
    forall j | 0 <= j < limit ensures !Less(next, rest[j].name) {
    }
  }

  lemma SharedIsSkipped(rest: seq<UserSession>, limit: nat)
    requires Sorted(rest) && 0 < limit < |rest| && rest[limit].name == rest[limit - 1].name
    ensures |Behind(rest, rest[limit - 1].name)| < |rest| - limit
  {
    hide Less;
    var next := rest[limit - 1].name;
    BehindIs(rest, next);
    LessIrreflexive(next);
  }

  /** The exact condition, page size by page size: the pages show every member,
      in order, once, if and only if no page ends between two members of one
      name. */
  lemma ListingIsCompleteExactly(s: seq<UserSession>, limit: nat)
    requires Sorted(s) && Named(s) && limit > 0
    ensures Shown(s, "", limit) == s <==> !Splits(s, limit)
  {
    ShownIs(s, "", limit);
    assert s != [] ==> Less("", s[0].name);
  }

  /** So every page size shows every member if and only if names are unique. */
  lemma EveryPageSizeIsCompleteExactly(s: seq<UserSession>)
    requires Sorted(s) && Named(s)
    ensures (forall limit :: 1 <= limit <= 100 ==> Shown(s, "", limit) == s) <==> Unique(s)
  {
    hide Less, Shown;
    if Unique(s) {
      forall limit | 1 <= limit <= 100 ensures Shown(s, "", limit) == s {
        UniqueNeverSplits(s, limit);
        ListingIsCompleteExactly(s, limit);
      }
    }
    ListingIsCompleteExactly(s, 1);
    if !Splits(s, 1) {
      UnsplitIsUnique(s);
    }
    assert Shown(s, "", 1) == s ==> Unique(s);
  }

  lemma {:induction false} UniqueNeverSplits(s: seq<UserSession>, limit: nat)
    requires Unique(s) && limit > 0
    ensures !Splits(s, limit)
    decreases |s|
  {
    if |s| > limit {
      UniqueNeverSplits(s[limit..], limit);
    }
  }

  lemma {:induction false} UnsplitIsUnique(s: seq<UserSession>)
    requires Sorted(s) && !Splits(s, 1)
    ensures Unique(s)
    decreases |s|
  {
    hide Less;
    if |s| > 1 {
      UnsplitIsUnique(s[1..]);
      LessTotal(s[0].name, s[1].name);
      forall j | 1 <= j < |s| ensures s[0].name != s[j].name {
        if j > 1 {
          NotLessTransitive(s[1].name, s[j].name, s[0].name);
          LessIrreflexive(s[0].name);
        }
      }
      forall i, j | 0 <= i < j < |s| ensures s[i].name != s[j].name {
        if i > 0 {
          assert s[1..][i - 1] == s[i] && s[1..][j - 1] == s[j];
        }
      }
    }
  }

  /** The smallest listing that loses a member: two of one name, a page of one. */
  lemma SharedNamesAreLost(u: UserSession, v: UserSession)
    requires u.name == v.name != ""
    ensures Sorted([u, v]) && Shown([u, v], "", 1) != [u, v]
  {
    LessIrreflexive(u.name);
    ListingIsCompleteExactly([u, v], 1);
  }
}
