// Push subscriptions (gamesync.go: installTarget, deleteTarget, publish,
// publishDeleted; gamesync_reads.go: committedSnapshot): the messages of one
// stream, what a client that replays them sees, and why that is the committed
// store.

module Push {
  import opened Wrappers
  import opened Values
  import opened Text
  import opened Documents

  datatype Message =
    | Echo(text: string)
    | TargetUpdated(target: string)
    | TargetListed(target: string)
    | TargetDeleted(target: string)
    | DocumentExists(target: string, document: Document)
    | DocumentUpdated(target: string, document: Document)
    | DocumentDeleted(target: string, name: string)

  type Log = seq<Message>

  // ----- what the client sees -----

  /** A target UPDATED starts its view over; EXIST and UPDATED put a document,
      DELETED removes it. Messages of other targets are ignored. */
  function ReplayStep(view: Docs, m: Message, tid: string): Docs {
    match m
    case TargetUpdated(t) => if t == tid then map[] else view
    case TargetDeleted(t) => if t == tid then map[] else view
    case DocumentExists(t, d) => if t == tid then view[d.name := d] else view
    case DocumentUpdated(t, d) => if t == tid then view[d.name := d] else view
    case DocumentDeleted(t, n) => if t == tid then view - {n} else view
    case _ => view
  }

  function ReplayFrom(view: Docs, log: Log, tid: string): Docs {
    if log == [] then view
    else ReplayStep(ReplayFrom(view, log[..|log| - 1], tid), log[|log| - 1], tid)
  }

  /** The view of target tid after the whole log. */
  function Replay(log: Log, tid: string): Docs {
    ReplayFrom(map[], log, tid)
  }

  lemma {:induction false} ReplayAppend(view: Docs, a: Log, b: Log, tid: string)
    ensures ReplayFrom(view, a + b, tid) == ReplayFrom(ReplayFrom(view, a, tid), b, tid)
    decreases |b|
  {
    if b == [] {
      assert a + b == a;
    } else {
      assert (a + b)[..|a + b| - 1] == a + b[..|b| - 1];
      ReplayAppend(view, a, b[..|b| - 1], tid);
    }
  }

  lemma ReplayOne(log: Log, m: Message, tid: string)
    ensures Replay(log + [m], tid) == ReplayStep(Replay(log, tid), m, tid)
  {
    assert (log + [m])[..|log|] == log;
  }

  /** The committed documents a target asks for. */
  function Restrict(docs: Docs, target: Target): Docs {
    map n | n in docs && TargetMatches(target, n) :: docs[n]
  }

  /** A write that is not published leaves a target's documents as they were
      exactly when the target does not ask for it or nothing changed: why a
      token reissue must bring back an equal user document. */
  lemma SilentWrite(docs: Docs, target: Target, n: string, d: Document)
    ensures Restrict(docs[n := d], target) == Restrict(docs, target)
            <==> !TargetMatches(target, n) || Get(docs, n) == Some(d)
  {
    var a, b := Restrict(docs[n := d], target), Restrict(docs, target);
    if TargetMatches(target, n) {
      assert Get(a, n) == Some(d) && Get(b, n) == Get(docs, n);
    }
    if !TargetMatches(target, n) || Get(docs, n) == Some(d) {
      forall k ensures Get(a, k) == Get(b, k) {
      }
      assert forall k :: k in a <==> Get(a, k).Some?;
      assert forall k :: k in b <==> Get(b, k).Some?;
    }
  }

  // ----- publishing one change -----

  /** A committed document, or its removal. */
  datatype Change = Change(name: string, document: Option<Document>)

  predicate Proper(c: Change) {
    c.document.Some? ==> c.document.value.name == c.name
  }

  function ChangeMessage(tid: string, c: Change): Message {
    if c.document.Some? then DocumentUpdated(tid, c.document.value) else DocumentDeleted(tid, c.name)
  }

  function Matching(targets: map<string, Target>, name: string): set<string> {
    set tid | tid in targets && TargetMatches(targets[tid], name)
  }

  ghost predicate Distinct<T>(s: seq<T>) {
    forall i, j :: 0 <= i < j < |s| ==> s[i] != s[j]
  }

  /** The order in which the map of targets happened to be walked. */
  ghost predicate Walk(order: seq<string>, targets: map<string, Target>, name: string) {
    Distinct(order) && Elements(order) == Matching(targets, name)
  }

  function Published(order: seq<string>, c: Change): Log {
    if order == [] then []
    else Published(order[..|order| - 1], c) + [ChangeMessage(order[|order| - 1], c)]
  }

  /** Publishing a change moves exactly the walked targets' views. */
  lemma {:induction false} ReplayPublished(view: Docs, order: seq<string>, c: Change, tid: string)
    requires Proper(c)
    ensures ReplayFrom(view, Published(order, c), tid) == if tid in order then Put(view, c.name, c.document) else view
    decreases |order|
  {
    if order != [] {
      var front, last := order[..|order| - 1], order[|order| - 1];
      ReplayPublished(view, front, c, tid);
      var log := Published(order, c);
      assert log[..|log| - 1] == Published(front, c) && log[|log| - 1] == ChangeMessage(last, c);
      assert order == front + [last];
    }
  }

  // ----- installing a target -----

  function Snapshot(docs: Docs, names: seq<string>): seq<Document>
    requires forall n :: n in names ==> n in docs
  {
    if names == [] then []
    else Snapshot(docs, names[..|names| - 1]) + [docs[names[|names| - 1]]]
  }

  function ExistMessages(tid: string, documents: seq<Document>): Log {
    if documents == [] then []
    else ExistMessages(tid, documents[..|documents| - 1]) + [DocumentExists(tid, documents[|documents| - 1])]
  }

  function Installed(tid: string, documents: seq<Document>): Log {
    [TargetUpdated(tid)] + ExistMessages(tid, documents) + [TargetListed(tid)]
  }

  /** committedSnapshot's names: sorted, and exactly the matching ones. */
  ghost predicate SnapshotNames(names: seq<string>, docs: Docs, target: Target) {
    Ascending(names) && Elements(names) == Restrict(docs, target).Keys
  }

  lemma {:induction false} ReplayExist(tid: string, docs: Docs, names: seq<string>, other: string)
    requires forall n :: n in names ==> n in docs && docs[n].name == n
    ensures var log := ExistMessages(tid, Snapshot(docs, names));
            && (other != tid ==> forall view :: ReplayFrom(view, log, other) == view)
            && ReplayFrom(map[], log, tid) == map n | n in names :: docs[n]
    decreases |names|
  {
    if names != [] {
      var front, last := names[..|names| - 1], names[|names| - 1];
      assert forall n :: n in names <==> n in front || n == last;
      ReplayExist(tid, docs, front, other);
      var s := Snapshot(docs, names);
      assert s[..|s| - 1] == Snapshot(docs, front);
      var log := ExistMessages(tid, s);
      assert log[..|log| - 1] == ExistMessages(tid, Snapshot(docs, front)) && log[|log| - 1] == DocumentExists(tid, docs[last]);
    }
  }

  /** An installed target's view starts at the committed documents it asks for,
      whatever it showed before; other targets' views do not move. */
  lemma ReplayInstalled(view: Docs, tid: string, target: Target, docs: Docs, names: seq<string>, other: string)
    requires SnapshotNames(names, docs, target) && forall n :: n in docs ==> docs[n].name == n
    requires forall n :: n in names ==> n in docs
    ensures var log := Installed(tid, Snapshot(docs, names));
            ReplayFrom(view, log, other) == if other == tid then Restrict(docs, target) else view
  {
    var head, exist, tail := [TargetUpdated(tid)], ExistMessages(tid, Snapshot(docs, names)), [TargetListed(tid)];
    ReplayExist(tid, docs, names, other);
    assert head[..0] == [] && tail[..0] == [];
    ReplayAppend(view, head + exist, tail, other);
    ReplayAppend(view, head, exist, other);
    var reset := ReplayFrom(view, head, other);
    assert reset == if other == tid then map[] else view;
    assert ReplayFrom(ReplayFrom(reset, exist, other), tail, other) == ReplayFrom(reset, exist, other);
    assert (map n | n in names :: docs[n]) == Restrict(docs, target) by {
      assert forall n :: n in names <==> n in Elements(names);
    }
  }

  // ----- one subscriber -----

  /** A stream of one game session: its installed targets, the messages it was
      sent, and the committed changes still to be published to it. A failed
      send makes it dead. */
  datatype Sub = Sub(game: string, targets: map<string, Target>, log: Log, pending: seq<Change>, live: bool)

  ghost predicate Names(changes: seq<Change>, n: string) {
    exists i :: 0 <= i < |changes| && changes[i].name == n
  }

  /** The view agrees with the store except on names still to be published, and
      those are queued with their committed state. */
  ghost predicate Converging(view: Docs, target: Target, pending: seq<Change>, docs: Docs) {
    && (forall i :: 0 <= i < |pending| ==> Proper(pending[i]) && pending[i].document == Get(docs, pending[i].name))
    && (forall n :: TargetMatches(target, n) && !Names(pending, n) ==> Get(view, n) == Get(docs, n))
    && (forall n :: n in view ==> TargetMatches(target, n))
  }

  ghost predicate SubOk(s: Sub, docs: Docs) {
    s.live ==> forall tid :: tid in s.targets ==> Converging(Replay(s.log, tid), s.targets[tid], s.pending, docs)
  }

  /** Once nothing is pending, converging is equality. */
  lemma ConvergedView(view: Docs, target: Target, docs: Docs)
    requires Converging(view, target, [], docs)
    ensures view == Restrict(docs, target)
  {
    forall n ensures Get(view, n) == Get(Restrict(docs, target), n) {
      assert !Names([], n);
    }
    assert forall n :: n in view <==> Get(view, n).Some?;
    assert forall n :: n in Restrict(docs, target) <==> Get(Restrict(docs, target), n).Some?;
  }

  /** A commit queues its changes: everything that differs is named, with its
      new state. */
  ghost predicate Explains(changes: seq<Change>, docs: Docs, docs': Docs) {
    && (forall i :: 0 <= i < |changes| ==> Proper(changes[i]) && changes[i].document == Get(docs', changes[i].name))
    && (forall n :: Get(docs, n) != Get(docs', n) ==> Names(changes, n))
  }

  lemma QueueKeepsSub(s: Sub, changes: seq<Change>, docs: Docs, docs': Docs)
    requires SubOk(s, docs) && s.pending == [] && Explains(changes, docs, docs')
    ensures SubOk(s.(pending := changes), docs')
  {
    if s.live {
      forall tid | tid in s.targets
        ensures Converging(Replay(s.log, tid), s.targets[tid], changes, docs')
      {
        var view, target := Replay(s.log, tid), s.targets[tid];
        forall n | TargetMatches(target, n) && !Names(changes, n) ensures Get(view, n) == Get(docs', n) {
          assert !Names([], n);
          assert Get(docs, n) == Get(docs', n);
        }
      }
    }
  }

  function Deliver(s: Sub, order: seq<string>): Sub
    requires s.pending != []
  {
    s.(log := s.log + Published(order, s.pending[0]), pending := s.pending[1..])
  }

  lemma DeliverConverges(view: Docs, target: Target, pending: seq<Change>, docs: Docs)
    requires pending != [] && Converging(view, target, pending, docs)
    ensures var c := pending[0];
            Converging(if TargetMatches(target, c.name) then Put(view, c.name, c.document) else view,
                       target, pending[1..], docs)
  {
    hide TargetMatches;
    var c, rest := pending[0], pending[1..];
    var view' := if TargetMatches(target, c.name) then Put(view, c.name, c.document) else view;
    forall n | TargetMatches(target, n) && !Names(rest, n) ensures Get(view', n) == Get(docs, n) {
      if Names(pending, n) {
        var i :| 0 <= i < |pending| && pending[i].name == n;
        assert i > 0 ==> rest[i - 1].name == n;
      }
    }
    forall n | n in view' ensures TargetMatches(target, n) {
      assert Get(view', n).Some?;
      assert n != c.name ==> Get(view', n) == Get(view, n);
    }
  }

  lemma DeliverKeepsSub(s: Sub, order: seq<string>, docs: Docs)
    requires SubOk(s, docs) && s.pending != [] && Walk(order, s.targets, s.pending[0].name)
    ensures SubOk(Deliver(s, order), docs)
  {
    var c, s' := s.pending[0], Deliver(s, order);
    if s.live {
      forall tid | tid in s.targets
        ensures Converging(Replay(s'.log, tid), s.targets[tid], s'.pending, docs)
      {
        var view := Replay(s.log, tid);
        assert Converging(view, s.targets[tid], s.pending, docs);
        ReplayAppend(map[], s.log, Published(order, c), tid);
        ReplayPublished(view, order, c, tid);
        assert tid in order <==> tid in Elements(order);
        DeliverConverges(view, s.targets[tid], s.pending, docs);
      }
    }
  }

  function UpdateTarget(s: Sub, target: Target, docs: Docs, names: seq<string>): Sub
    requires forall n :: n in names ==> n in docs
  {
    var tid := LastSegment(target.name);
    s.(targets := s.targets[tid := target], log := s.log + Installed(tid, Snapshot(docs, names)))
  }

  lemma RestrictConverges(target: Target, docs: Docs)
    ensures Converging(Restrict(docs, target), target, [], docs)
  {
    hide TargetMatches;
  }

  lemma UpdateKeepsSub(s: Sub, target: Target, docs: Docs, names: seq<string>)
    requires SubOk(s, docs) && s.pending == [] && SnapshotNames(names, docs, target)
    requires forall n :: n in docs ==> docs[n].name == n
    requires forall n :: n in names ==> n in docs
    ensures SubOk(UpdateTarget(s, target, docs, names), docs)
  {
    hide LastSegment, SnapshotNames, Converging, Restrict, ReplayFrom, Snapshot, Installed;
    var id, s' := LastSegment(target.name), UpdateTarget(s, target, docs, names);
    RestrictConverges(target, docs);
    forall tid | tid in s'.targets && s.live
      ensures Converging(Replay(s'.log, tid), s'.targets[tid], [], docs)
    {
      ReplayAppend(map[], s.log, Installed(id, Snapshot(docs, names)), tid);
      ReplayInstalled(Replay(s.log, tid), id, target, docs, names, tid);
    }
  }

  function DropTarget(s: Sub, name: string): Sub {
    var tid := LastSegment(name);
    s.(targets := s.targets - {tid}, log := s.log + [TargetDeleted(tid)])
  }

  lemma DropKeepsSub(s: Sub, name: string, docs: Docs)
    requires SubOk(s, docs)
    ensures SubOk(DropTarget(s, name), docs)
  {
    hide Converging;
    var id, s' := LastSegment(name), DropTarget(s, name);
    forall tid | tid in s'.targets && s.live
      ensures Converging(Replay(s'.log, tid), s'.targets[tid], s'.pending, docs)
    {
      ReplayOne(s.log, TargetDeleted(id), tid);
      assert tid in s.targets && s'.targets[tid] == s.targets[tid];
    }
  }

  function SendEcho(s: Sub, text: string): Sub {
    s.(log := s.log + [Echo(text)])
  }

  lemma EchoKeepsSub(s: Sub, text: string, docs: Docs)
    requires SubOk(s, docs)
    ensures SubOk(SendEcho(s, text), docs)
  {
    hide Converging;
    forall tid | tid in s.targets && s.live
      ensures Replay(SendEcho(s, text).log, tid) == Replay(s.log, tid)
    {
      ReplayOne(s.log, Echo(text), tid);
    }
  }

  // ----- several changes at once -----

  /** The committed state of each name, in the order given. */
  function ChangesOf(docs: Docs, order: seq<string>): seq<Change> {
    if order == [] then []
    else ChangesOf(docs, order[..|order| - 1]) + [Change(order[|order| - 1], Get(docs, order[|order| - 1]))]
  }

  lemma {:induction false} ChangesName(docs: Docs, order: seq<string>, n: string)
    ensures n in order ==> Names(ChangesOf(docs, order), n)
    ensures |ChangesOf(docs, order)| == |order|
    ensures forall i :: 0 <= i < |order| ==> ChangesOf(docs, order)[i] == Change(order[i], Get(docs, order[i]))
    decreases |order|
  {
    if order != [] {
      ChangesName(docs, order[..|order| - 1], n);
      assert forall i :: 0 <= i < |order| ==> ChangesOf(docs, order)[i] == Change(order[i], Get(docs, order[i]));
      if n in order {
        var i :| 0 <= i < |order| && order[i] == n;
        assert ChangesOf(docs, order)[i].name == n;
      }
    }
  }

  lemma ChangesExplain(docs: Docs, docs': Docs, order: seq<string>)
    requires forall n :: n in docs' ==> docs'[n].name == n
    requires forall n :: Get(docs, n) != Get(docs', n) ==> n in order
    ensures Explains(ChangesOf(docs', order), docs, docs')
  {
    ChangesName(docs', order, "");
    forall n | Get(docs, n) != Get(docs', n) ensures Names(ChangesOf(docs', order), n) {
      ChangesName(docs', order, n);
    }
  }

  function Moved(view: Docs, target: Target, c: Change): Docs {
    if TargetMatches(target, c.name) then Put(view, c.name, c.document) else view
  }

  /** A view after the changes a commit publishes. */
  function ViewAfter(view: Docs, target: Target, changes: seq<Change>): Docs {
    if changes == [] then view
    else Moved(ViewAfter(view, target, changes[..|changes| - 1]), target, changes[|changes| - 1])
  }

  lemma {:induction false} ViewAfterSettles(view: Docs, target: Target, changes: seq<Change>, docs': Docs, n: string)
    requires forall i :: 0 <= i < |changes| ==> changes[i].document == Get(docs', changes[i].name)
    ensures Get(ViewAfter(view, target, changes), n)
            == if TargetMatches(target, n) && Names(changes, n) then Get(docs', n) else Get(view, n)
    decreases |changes|
  {
    if changes == [] {
      assert !Names(changes, n);
    } else {
      var front, last := changes[..|changes| - 1], changes[|changes| - 1];
      ViewAfterSettles(view, target, front, docs', n);
      assert Names(changes, n) <==> Names(front, n) || last.name == n by {
        if Names(front, n) {
          var i :| 0 <= i < |front| && front[i].name == n;
          assert changes[i].name == n;
        }
        if Names(changes, n) && last.name != n {
          var i :| 0 <= i < |changes| && changes[i].name == n;
          assert front[i].name == n;
        }
      }
    }
  }

  /** Publishing everything a commit changed carries a coherent view over to the
      new documents. */
  lemma ViewAfterIsCoherent(target: Target, changes: seq<Change>, docs: Docs, docs': Docs)
    requires Explains(changes, docs, docs')
    ensures ViewAfter(Restrict(docs, target), target, changes) == Restrict(docs', target)
  {
    var view := ViewAfter(Restrict(docs, target), target, changes);
    forall n ensures Get(view, n) == Get(Restrict(docs', target), n) {
      ViewAfterSettles(Restrict(docs, target), target, changes, docs', n);
    }
    assert forall n :: n in view <==> Get(view, n).Some?;
    assert forall n :: n in Restrict(docs', target) <==> Get(Restrict(docs', target), n).Some?;
  }
}
