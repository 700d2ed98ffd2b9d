// Pages of a sorted listing, and why following the page tokens visits every
// item once (gamesync_reads.go, ListDocuments; session_service.go,
// QueryGameSessions and ListUserSessions).

module Paging {
  import opened Text

  /** One page of keys, and the token of the next; the empty token ends a
      listing. */
  datatype Page = Page(keys: seq<string>, next: string)

  /** The keys of an ascending list that come after a token. */
  function After(keys: seq<string>, token: string): (rest: seq<string>)
    ensures |rest| <= |keys|
  {
    if keys == [] || Less(token, keys[0]) then keys else After(keys[1..], token)
  }

  function PageOf(keys: seq<string>, token: string, limit: nat): Page
    requires limit > 0
  {
    var rest := After(keys, token);
    if |rest| > limit then Page(rest[..limit], rest[limit - 1]) else Page(rest, "")
  }

  // ----- sorted lists of a set -----

  lemma {:induction false} Sortable(s: set<string>)
    ensures exists keys :: Ascending(keys) && Elements(keys) == s
    decreases |s|
  {
    if s == {} {
      assert Ascending([]) && Elements<string>([]) == {};
    } else {
      var x :| x in s;
      Sortable(s - {x});
      var rest :| Ascending(rest) && Elements(rest) == s - {x};
      assert x !in Elements(rest);
      var keys := Inserted(rest, x);
      assert Elements(keys) == s;
    }
  }

  /** The ascending list with one more key in its place. */
  lemma {:induction false} Inserted(s: seq<string>, x: string) returns (r: seq<string>)
    requires Ascending(s) && x !in s
    ensures Ascending(r) && Elements(r) == Elements(s) + {x}
    decreases |s|
  {
    if s == [] {
      r := [x];
    } else {
      var front, last := s[..|s| - 1], s[|s| - 1];
      LessTotal(last, x);
      ElementsSnoc(front, last);
      assert s == front + [last];
      if Less(last, x) {
        r := s + [x];
        forall i | 0 <= i < |s| ensures Less(s[i], x) {
          if i < |s| - 1 {
            LessTransitive(s[i], last, x);
          }
        }
        ElementsSnoc(s, x);
      } else {
        var start := Inserted(front, x);
        r := start + [last];
        forall i | 0 <= i < |start| ensures Less(start[i], last) {
          assert start[i] in Elements(start);
        }
        ElementsSnoc(start, last);
      }
    }
  }

  ghost function Sorted(s: set<string>): (keys: seq<string>)
    ensures Ascending(keys) && Elements(keys) == s
  {
    Sortable(s);
    var keys :| Ascending(keys) && Elements(keys) == s;
    keys
  }

  // ----- after a token -----

  lemma {:induction false} AfterIs(keys: seq<string>, token: string)
    requires Ascending(keys)
    ensures Ascending(After(keys, token))
    ensures forall k :: k in After(keys, token) <==> k in keys && Less(token, k)
    decreases |keys|
  {
    if keys != [] {
      if Less(token, keys[0]) {
        forall k | k in keys ensures Less(token, k) {
          FirstIsLeast(keys, k);
          if k != keys[0] {
            LessTransitive(token, keys[0], k);
          }
        }
      } else {
        AfterIs(keys[1..], token);
        assert keys == [keys[0]] + keys[1..];
      }
    }
  }

  function Later(s: set<string>, token: string): set<string> {
    set k | k in s && Less(token, k)
  }

  /** Filtering by the token before sorting, as ListDocuments does, or after, as
      the other listings do, is the same. */
  lemma SortedAfter(s: set<string>, token: string)
    ensures Sorted(Later(s, token)) == After(Sorted(s), token)
  {
    var keys := Sorted(s);
    AfterIs(keys, token);
    forall k ensures k in Later(s, token) <==> k in Elements(After(keys, token)) {
      assert k in keys <==> k in Elements(keys);
    }
    AscendingUnique(Sorted(Later(s, token)), After(keys, token));
  }

  /** The kept keys, in order. */
  function Kept(keys: seq<string>, keep: set<string>): seq<string> {
    if keys == [] then []
    else
      var last := keys[|keys| - 1];
      Kept(keys[..|keys| - 1], keep) + if last in keep then [last] else []
  }

  lemma {:induction false} KeptIs(keys: seq<string>, keep: set<string>)
    requires Ascending(keys)
    ensures Ascending(Kept(keys, keep)) && Elements(Kept(keys, keep)) == Elements(keys) * keep
    decreases |keys|
  {
    if keys == [] {
      assert Elements(Kept(keys, keep)) == {};
    } else {
      var front, last := keys[..|keys| - 1], keys[|keys| - 1];
      KeptIs(front, keep);
      ElementsSnoc(front, last);
      assert keys == front + [last];
      var kept := Kept(front, keep);
      forall i | 0 <= i < |kept| ensures Less(kept[i], last) {
        assert kept[i] in Elements(kept);
      }
      ElementsSnoc(kept, last);
      assert kept + [] == kept;
      assert Elements(keys) == Elements(front) + {last};
      assert Elements(Kept(keys, keep)) == if last in keep then Elements(kept) + {last} else Elements(kept);
    }
  }

  /** Keeping the later matching keys of a sorted listing lists them sorted. */
  lemma KeptSorted(keys: seq<string>, matching: set<string>, token: string)
    requires Ascending(keys) && matching <= Elements(keys)
    ensures Kept(keys, Later(matching, token)) == After(Sorted(matching), token)
  {
    KeptIs(keys, Later(matching, token));
    SortedAfter(matching, token);
    AscendingUnique(Kept(keys, Later(matching, token)), Sorted(Later(matching, token)));
  }

  lemma {:induction false} KeptPrefix(keys: seq<string>, i: nat, keep: set<string>)
    requires i <= |keys|
    ensures Kept(keys[..i], keep) <= Kept(keys, keep)
    decreases |keys|
  {
    if i < |keys| {
      assert keys[..|keys| - 1][..i] == keys[..i];
      KeptPrefix(keys[..|keys| - 1], i, keep);
    } else {
      assert keys[..i] == keys;
    }
  }

  lemma KeptNone(keep: set<string>)
    ensures Kept([], keep) == []
  {
  }

  lemma KeptSnoc(keys: seq<string>, i: nat, keep: set<string>)
    requires i < |keys|
    ensures Kept(keys[..i + 1], keep) == Kept(keys[..i], keep) + if keys[i] in keep then [keys[i]] else []
  {
    assert keys[..i + 1][..i] == keys[..i];
  }

  /** Where a listing stops that has kept `out` of the first keys: at the key
      that no longer fits its page, or at the end. */
  lemma PageStops(keys: seq<string>, i: nat, matching: set<string>, token: string, out: seq<string>, limit: nat)
    requires Ascending(keys) && matching <= Elements(keys) && limit > 0
    requires i <= |keys| && out == Kept(keys[..i], Later(matching, token)) && |out| <= limit
    ensures i == |keys| ==> PageOf(Sorted(matching), token, limit) == Page(out, "")
    ensures i < |keys| && |out| == limit && keys[i] in matching && Less(token, keys[i]) ==>
              PageOf(Sorted(matching), token, limit) == Page(out, out[limit - 1])
  {
    var keep := Later(matching, token);
    KeptSorted(keys, matching, token);
    if i == |keys| {
      assert keys[..i] == keys;
    } else {
      KeptSnoc(keys, i, keep);
      KeptPrefix(keys, i + 1, keep);
    }
  }

  // ----- following the tokens -----

  /** After the last key of a page come exactly the keys behind it. */
  lemma {:induction false} AfterKey(keys: seq<string>, i: nat)
    requires Ascending(keys) && i < |keys|
    ensures After(keys, keys[i]) == keys[i + 1..]
    decreases |keys|
  {
    LessIrreflexive(keys[0]);
    if i == 0 {
      if |keys| > 1 {
        assert keys[1..][0] == keys[1];
      }
    } else {
      NotBelow(keys[0], keys[i]);
      AfterKey(keys[1..], i - 1);
      assert keys[1..][i - 1] == keys[i] && keys[1..][i..] == keys[i + 1..];
    }
  }

  lemma NotBelow(a: string, b: string)
    requires Less(a, b)
    ensures !Less(b, a)
  {
    if Less(b, a) {
      LessTransitive(a, b, a);
      LessIrreflexive(a);
    }
  }

  lemma {:induction false} AfterAfter(keys: seq<string>, token: string, later: string)
    requires Ascending(keys) && Less(token, later)
    ensures After(After(keys, token), later) == After(keys, later)
    decreases |keys|
  {
    if keys != [] && !Less(token, keys[0]) {
      if Less(later, keys[0]) {
        LessTransitive(token, later, keys[0]);
      }
      AfterAfter(keys[1..], token, later);
    }
  }

  /** The keys collected by asking for page after page. */
  ghost function Collect(keys: seq<string>, token: string, limit: nat): seq<string>
    requires Ascending(keys) && "" !in keys && limit > 0
    decreases |After(keys, token)|
  {
    var page := PageOf(keys, token, limit);
    if page.next == "" then page.keys
    else
      NextIsLater(keys, token, limit);
      page.keys + Collect(keys, page.next, limit)
  }

  /** Each token leaves strictly less to list, so the tokens come to an end. */
  lemma NextIsLater(keys: seq<string>, token: string, limit: nat)
    requires Ascending(keys) && limit > 0 && PageOf(keys, token, limit).next != ""
    ensures var rest := After(keys, token);
            && |rest| > limit
            && After(keys, PageOf(keys, token, limit).next) == rest[limit..]
  {
    var rest := After(keys, token);
    AfterIs(keys, token);
    var last := rest[limit - 1];
    assert last in rest;
    AfterAfter(keys, token, last);
    AfterKey(rest, limit - 1);
  }

  /** Pages are complete: from any token on, the pages concatenate to exactly the
      later keys, each once, in order. */
  lemma {:induction false} CollectsTheRest(keys: seq<string>, token: string, limit: nat)
    requires Ascending(keys) && "" !in keys && limit > 0
    ensures Collect(keys, token, limit) == After(keys, token)
    decreases |After(keys, token)|
  {
    var rest, page := After(keys, token), PageOf(keys, token, limit);
    AfterIs(keys, token);
    assert |rest| > limit ==> page.next in rest;
    if page.next != "" {
      NextIsLater(keys, token, limit);
      CollectsTheRest(keys, page.next, limit);
      assert rest == rest[..limit] + rest[limit..];
    }
  }

  /** From the empty token the pages are the whole sorted listing. */
  lemma PagesAreComplete(keys: seq<string>, limit: nat)
    requires Ascending(keys) && "" !in keys && limit > 0
    ensures Collect(keys, "", limit) == keys
  {
    CollectsTheRest(keys, "", limit);
    if keys != [] {
      assert keys[0] in keys;
    }
  }
}
