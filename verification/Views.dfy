// What a subscribed client sees, said of documents and names alone: its
// messages one by one, and the contents of its views over every run
// (gamesync.go: targetMatchesDocument, installTarget, publish, publishDeleted).

module Views {
  import opened Wrappers
  import opened Values
  import opened Text
  import opened Documents
  import opened Batch
  import opened Store
  import opened Push
  import opened Machine
  import opened Rules
  import Commits
  import Runs

  // ----- messages -----

  /** An installed target is announced, sent its documents as existing, one by
      one in order, and declared listed. */
  lemma InstalledMessages(tid: string, docs: Docs, names: seq<string>) returns (sent: Log)
    requires forall n :: n in names ==> n in docs
    ensures Installed(tid, Snapshot(docs, names)) == [TargetUpdated(tid)] + sent + [TargetListed(tid)]
    ensures |sent| == |names| && forall i :: 0 <= i < |names| ==> sent[i] == DocumentExists(tid, docs[names[i]])
  {
    ExistAt(tid, docs, names);
    sent := ExistMessages(tid, Snapshot(docs, names));
  }

  lemma {:induction false} ExistAt(tid: string, docs: Docs, names: seq<string>)
    requires forall n :: n in names ==> n in docs
    ensures var log := ExistMessages(tid, Snapshot(docs, names));
            |log| == |names| && forall i :: 0 <= i < |names| ==> log[i] == DocumentExists(tid, docs[names[i]])
    decreases |names|
  {
    if names != [] {
      var front := names[..|names| - 1];
      ExistAt(tid, docs, front);
      var s := Snapshot(docs, names);
      assert s[..|s| - 1] == Snapshot(docs, front);
    }
  }

  /** A published change reaches each walked target once: the document as
      updated, or its name as deleted. */
  lemma {:induction false} PublishedMessages(order: seq<string>, c: Change)
    ensures |Published(order, c)| == |order|
    ensures forall i :: 0 <= i < |order| ==>
              Published(order, c)[i] == match c.document
                                        case Some(d) => DocumentUpdated(order[i], d)
                                        case None => DocumentDeleted(order[i], c.name)
    decreases |order|
  {
    if order != [] {
      PublishedMessages(order[..|order| - 1], c);
    }
  }

  // ----- targets -----

  /** A target is installed, and dropped, under the last segment of its name. */
  lemma TargetsAreKeyed(s: Sub, parent: string, tid: string, kind: TargetKind, docs: Docs, names: seq<string>)
    requires '/' !in tid && forall n :: n in names ==> n in docs
    ensures var target := Target(parent + "/" + tid, kind);
            && UpdateTarget(s, target, docs, names).targets == s.targets[tid := target]
            && DropTarget(s, parent + "/" + tid).targets == s.targets - {tid}
  {
    hide LastSegment;
    LastSegmentOf(parent, tid);
  }

  // ----- views over runs -----

  /** Every committed document is docs/c/i for some c and i without a slash. */
  lemma DocumentsAreNamed(st: Store, game: string, n: string) returns (c: string, i: string)
    requires StoreOk(st) && n in Of(st.documents, game)
    ensures n == Name(c, i) && '/' !in c && '/' !in i
  {
    hide DocumentPath, LastSegment, UserDocument, Attributed, Name;
    assert GameOkIn(st, game);
    if n in Of(st.owners, game) {
      ClientNamesOfOwners(game, st.sessions, Of(st.documents, game), Of(st.owners, game), n);
      NameOfPath(n);
      var path := DocumentPath(n).value;
      c, i := path.0, path.1;
    } else if n == FIXED {
      c, i := "__gs", "f";
    } else {
      var id :| id in st.sessions && st.sessions[id].gameSession == game && n == UsName(id);
      IdsAreSegments(st, id);
      c, i := "__us", id;
    }
  }

  lemma IdsAreSegments(st: Store, id: string)
    requires StoreOk(st) && id in st.sessions
    ensures '/' !in id
  {
    hide GameOkIn, SequencesOk;
  }

  /** Subscription coherence, for a collection: in every reachable state whose
      publication lock is free, what a live stream shows of docs/d are exactly
      the committed documents docs/d/i, each as committed. */
  lemma CollectionViewIs(run: seq<Action>, i: nat, k: nat, tid: string, d: string)
    requires IsRun(START, run) && i <= |run|
    requires !At(START, run, i).busy && k in At(START, run, i).subs && At(START, run, i).subs[k].live
    requires tid in At(START, run, i).subs[k].targets
    requires At(START, run, i).subs[k].targets[tid].kind == CollectionTarget("docs/" + d)
    ensures var m := At(START, run, i);
            var view, docs := Replay(m.subs[k].log, tid), Of(m.store.documents, m.subs[k].game);
            && (forall x :: '/' !in x ==> Get(view, Name(d, x)) == Get(docs, Name(d, x)))
            && (forall n :: n in view ==> exists x :: '/' !in x && n == Name(d, x))
  {
    hide IsRun, At, Replay, StoreOk, Name, TargetMatches;
    Runs.SubscriptionsAreCoherent(run, i, k, tid);
    var m := At(START, run, i);
    var target, docs := m.subs[k].targets[tid], Of(m.store.documents, m.subs[k].game);
    StoreIsOk(run, i);
    RestrictToCollection(m.store, m.subs[k].game, target, d);
  }

  lemma StoreIsOk(run: seq<Action>, i: nat)
    requires IsRun(START, run) && i <= |run|
    ensures StoreOk(At(START, run, i).store)
  {
    hide At, IsRun, HistoryOk, TimesOk, SubsOk, StoreOk;
    StartOk();
    RunKeeps(START, run, i);
  }

  lemma RestrictToCollection(st: Store, game: string, target: Target, d: string)
    requires StoreOk(st) && target.kind == CollectionTarget("docs/" + d)
    ensures var docs := Of(st.documents, game);
            var view := Restrict(docs, target);
            && (forall x :: '/' !in x ==> Get(view, Name(d, x)) == Get(docs, Name(d, x)))
            && (forall n :: n in view ==> exists x :: '/' !in x && n == Name(d, x))
  {
    hide StoreOk, TargetMatches, Name;
    var docs := Of(st.documents, game);
    var view := Restrict(docs, target);
    forall x | '/' !in x ensures Get(view, Name(d, x)) == Get(docs, Name(d, x)) {
      CollectionAsksFor(target, d, x);
    }
    forall n | n in view ensures exists x :: '/' !in x && n == Name(d, x) {
      var c, x := DocumentsAreNamed(st, game, n);
      TargetAsks(target, c, x);
      assert c == d by {
        assert ("docs/" + c)[5..] == c && ("docs/" + d)[5..] == d;
      }
      assert n == Name(d, x);
    }
  }

  lemma CollectionAsksFor(target: Target, d: string, x: string)
    requires target.kind == CollectionTarget("docs/" + d) && '/' !in x
    ensures TargetMatches(target, Name(d, x))
  {
    hide TargetMatches;
    CollectionAsks(target, "docs/" + d, x);
    assert Name(d, x) == ("docs/" + d) + "/" + x;
  }

  /** The same for a list of documents: a live stream shows exactly the listed
      ones that are committed. */
  lemma DocumentsViewIs(run: seq<Action>, i: nat, k: nat, tid: string, names: seq<string>)
    requires IsRun(START, run) && i <= |run|
    requires !At(START, run, i).busy && k in At(START, run, i).subs && At(START, run, i).subs[k].live
    requires tid in At(START, run, i).subs[k].targets
    requires At(START, run, i).subs[k].targets[tid].kind == DocumentsTarget(names)
    ensures var m := At(START, run, i);
            var view, docs := Replay(m.subs[k].log, tid), Of(m.store.documents, m.subs[k].game);
            forall n :: Get(view, n) == if n in names then Get(docs, n) else None
  {
    hide IsRun, At, Replay, StoreOk, Name, TargetMatches;
    Runs.SubscriptionsAreCoherent(run, i, k, tid);
    var m := At(START, run, i);
    var target, docs := m.subs[k].targets[tid], Of(m.store.documents, m.subs[k].game);
    StoreIsOk(run, i);
    forall n ensures Get(Restrict(docs, target), n) == if n in names then Get(docs, n) else None {
      if n in docs {
        var c, x := DocumentsAreNamed(m.store, m.subs[k].game, n);
        TargetAsks(target, c, x);
      }
    }
  }

  /** Joins are seen: a live stream that asks for docs/__us shows a document
      about every live member of its game session, saying what the store knows
      of that member, and none about anybody else. */
  lemma RosterViewIs(run: seq<Action>, i: nat, k: nat, tid: string, id: string)
    requires IsRun(START, run) && i <= |run| && '/' !in id
    requires !At(START, run, i).busy && k in At(START, run, i).subs && At(START, run, i).subs[k].live
    requires tid in At(START, run, i).subs[k].targets
    requires At(START, run, i).subs[k].targets[tid].kind == CollectionTarget("docs/__us")
    ensures var m := At(START, run, i);
            var view, n := Replay(m.subs[k].log, tid), Name("__us", id);
            && (n in view <==> id in m.store.sessions && m.store.sessions[id].gameSession == m.subs[k].game)
            && (n in view ==> Commits.Presents(view[n], m.store.sessions[id]))
  {
    hide IsRun, At, Replay, StoreOk, Name, LastSegment, Commits.Presents;
    assert "docs/" + "__us" == "docs/__us";
    CollectionViewIs(run, i, k, tid, "__us");
    StoreIsOk(run, i);
    var m := At(START, run, i);
    Commits.UsersAreRoster(m.store, m.subs[k].game, id);
    var view := Replay(m.subs[k].log, tid);
    assert Get(view, Name("__us", id)) == Get(Of(m.store.documents, m.subs[k].game), Name("__us", id));
  }
}
