// The stream end of a subscription as the server holds it (gamesync.go,
// gamesyncSubscriber): targets and messages updated in place, over a stream
// whose sends may fail.

module Subscribers {
  import opened Wrappers
  import opened Values
  import opened Text
  import opened Documents
  import opened Push

  class Subscriber {
    var targets: map<string, Target>
    var log: Log
    /** Sends the stream will still take, and whether one has failed. */
    var accepts: nat
    var broken: bool

    constructor (accepts: nat)
      ensures targets == map[] && log == [] && !broken && this.accepts == accepts
    {
      targets, log, broken := map[], [], false;
      this.accepts := accepts;
    }

    /** What a client replaying this stream sees for one target. */
    ghost function Seen(tid: string): Docs
      reads this`log
    {
      Replay(log, tid)
    }

    /** Unless a send has failed, every target shows the documents it asks for. */
    ghost predicate Coherent(docs: Docs)
      reads this
    {
      !broken ==> forall tid :: tid in targets ==> Seen(tid) == Restrict(docs, targets[tid])
    }

    method Send(m: Message) returns (ok: bool)
      modifies this`log, this`accepts, this`broken
      ensures ok ==> log == old(log) + [m] && broken == old(broken)
      ensures !ok ==> log == old(log) && broken
      ensures ok == (old(accepts) > 0)
    {
      if accepts == 0 {
        broken := true;
        return false;
      }
      accepts := accepts - 1;
      log := log + [m];
      return true;
    }

    method InstallTarget(target: Target, documents: seq<Document>) returns (ok: bool)
      modifies this
      ensures targets == old(targets)[LastSegment(target.name) := target]
      ensures ok ==> log == old(log) + Installed(LastSegment(target.name), documents) && broken == old(broken)
      ensures !ok ==> broken
    {
      var tid := LastSegment(target.name);
      targets := targets[tid := target];
      ok := Send(TargetUpdated(tid));
      if !ok {
        return;
      }
      ok := SendExisting(tid, documents);
      if !ok {
        return;
      }
      ok := Send(TargetListed(tid));
      Regroup(old(log), [TargetUpdated(tid)], ExistMessages(tid, documents), [TargetListed(tid)]);
    }

    method SendExisting(tid: string, documents: seq<Document>) returns (ok: bool)
      modifies this`log, this`accepts, this`broken
      ensures ok ==> log == old(log) + ExistMessages(tid, documents) && broken == old(broken)
      ensures !ok ==> broken
    {
      var i := 0;
      while i < |documents|
        invariant 0 <= i <= |documents| && broken == old(broken)
        invariant log == old(log) + ExistMessages(tid, documents[..i])
      {
        ok := Send(DocumentExists(tid, documents[i]));
        if !ok {
          return;
        }
        assert documents[..i + 1][..i] == documents[..i];
        i := i + 1;
      }
      assert documents[..i] == documents;
      ok := true;
    }

    method DeleteTarget(name: string) returns (ok: bool)
      modifies this
      ensures targets == old(targets) - {LastSegment(name)}
      ensures ok ==> log == old(log) + [TargetDeleted(LastSegment(name))] && broken == old(broken)
      ensures !ok ==> broken && log == old(log)
    {
      var tid := LastSegment(name);
      targets := targets - {tid};
      ok := Send(TargetDeleted(tid));
    }

    /** The loop of publish and publishDeleted: every matching target is told
        once, in the order the map happens to be walked. */
    method SendMatching(c: Change) returns (ok: bool, ghost walk: seq<string>)
      modifies this`log, this`accepts, this`broken
      ensures ok ==> Walk(walk, targets, c.name) && log == old(log) + Published(walk, c) && broken == old(broken)
      ensures !ok ==> broken
    {
      hide TargetMatches;
      walk := [];
      var rest := targets.Keys;
      while rest != {}
        invariant rest <= targets.Keys && broken == old(broken)
        invariant Walk(walk, targets - rest, c.name)
        invariant log == old(log) + Published(walk, c)
        decreases |rest|
      {
        var tid :| tid in rest;
        if TargetMatches(targets[tid], c.name) {
          ok := Send(ChangeMessage(tid, c));
          if !ok {
            return;
          }
          PublishedSnoc(walk, tid, c);
        }
        WalkOn(walk, targets, rest, tid, c.name);
        walk := if TargetMatches(targets[tid], c.name) then walk + [tid] else walk;
        rest := rest - {tid};
      }
      assert targets - {} == targets;
      ok := true;
    }

    /** A published change moves the view of every matching target by the change,
        and no other view. */
    method Publish(c: Change) returns (ok: bool)
      requires Proper(c)
      modifies this`log, this`accepts, this`broken
      ensures ok ==> broken == old(broken) && |log| == |old(log)| + |Matching(targets, c.name)|
      ensures ok ==> forall tid :: tid in targets ==> Seen(tid) == Moved(old(Seen(tid)), targets[tid], c)
      ensures !ok ==> broken
    {
      ghost var walk;
      ok, walk := SendMatching(c);
      if ok {
        PublishedLength(walk, c, targets);
        forall tid | tid in targets ensures Seen(tid) == Moved(old(Seen(tid)), targets[tid], c) {
          PublishedMoves(old(log), walk, targets, c, tid);
        }
      }
    }
  }

  lemma Regroup(a: Log, b: Log, c: Log, d: Log)
    ensures a + b + c + d == a + (b + c + d)
  {
  }

  lemma PublishedSnoc(walk: seq<string>, tid: string, c: Change)
    ensures Published(walk + [tid], c) == Published(walk, c) + [ChangeMessage(tid, c)]
  {
    assert (walk + [tid])[..|walk|] == walk;
  }

  lemma WalkOn(walk: seq<string>, targets: map<string, Target>, rest: set<string>, tid: string, name: string)
    requires rest <= targets.Keys && tid in rest && Walk(walk, targets - rest, name)
    ensures Walk(if TargetMatches(targets[tid], name) then walk + [tid] else walk, targets - (rest - {tid}), name)
  {
    var before, after := Matching(targets - rest, name), Matching(targets - (rest - {tid}), name);
    assert tid !in Elements(walk);
    if TargetMatches(targets[tid], name) {
      assert after == before + {tid};
      assert Elements(walk + [tid]) == Elements(walk) + {tid};
    } else {
      assert after == before;
    }
  }

  lemma {:induction false} PublishedLength(walk: seq<string>, c: Change, targets: map<string, Target>)
    requires Walk(walk, targets, c.name)
    ensures |Published(walk, c)| == |Matching(targets, c.name)|
  {
    DistinctSize(walk);
    PublishedSize(walk, c);
  }

  lemma {:induction false} PublishedSize(walk: seq<string>, c: Change)
    ensures |Published(walk, c)| == |walk|
  {
    if walk != [] {
      PublishedSize(walk[..|walk| - 1], c);
    }
  }

  lemma {:induction false} DistinctSize<T>(s: seq<T>)
    requires Distinct(s)
    ensures |Elements(s)| == |s|
  {
    if s != [] {
      var front, last := s[..|s| - 1], s[|s| - 1];
      DistinctSize(front);
      assert last !in front;
      assert Elements(s) == Elements(front) + {last};
    }
  }

  lemma PublishedMoves(was: Log, walk: seq<string>, targets: map<string, Target>, c: Change, tid: string)
    requires Proper(c) && Walk(walk, targets, c.name) && tid in targets
    ensures Replay(was + Published(walk, c), tid) == Moved(Replay(was, tid), targets[tid], c)
  {
    ReplayAppend(map[], was, Published(walk, c), tid);
    ReplayPublished(Replay(was, tid), walk, c, tid);
    assert tid in walk <==> tid in Elements(walk);
  }

  /** One change told to every subscriber of a game session. */
  method PublishToAll(subs: set<Subscriber>, c: Change)
    requires Proper(c)
    modifies subs
    ensures forall s :: s in subs ==> s.targets == old(s.targets)
    ensures forall s :: s in subs && !s.broken ==> !old(s.broken) && Follows(s, old(s.log), [c])
  {
    var rest := subs;
    while rest != {}
      invariant rest <= subs
      invariant forall s :: s in subs ==> s.targets == old(s.targets)
      invariant forall s :: s in rest ==> s.log == old(s.log) && s.broken == old(s.broken)
      invariant forall s :: s in subs - rest && !s.broken ==> !old(s.broken) && Follows(s, old(s.log), [c])
      decreases |rest|
    {
      var s :| s in rest;
      rest := rest - {s};
      var ok := s.Publish(c);
      OneChange(c);
    }
  }

  /** The views of a subscriber have moved from those of the earlier log by the
      given changes. */
  ghost predicate Follows(s: Subscriber, was: Log, changes: seq<Change>)
    reads s
  {
    forall tid :: tid in s.targets ==> Replay(s.log, tid) == ViewAfter(Replay(was, tid), s.targets[tid], changes)
  }

  lemma OneChange(c: Change)
    ensures forall view, target :: ViewAfter(view, target, [c]) == Moved(view, target, c)
  {
    forall view, target ensures ViewAfter(view, target, [c]) == Moved(view, target, c) {
      assert [c][..0] == [];
    }
  }

  lemma ViewAfterSnoc(view: Docs, target: Target, changes: seq<Change>, c: Change)
    ensures ViewAfter(view, target, changes + [c]) == Moved(ViewAfter(view, target, changes), target, c)
  {
    assert (changes + [c])[..|changes|] == changes;
  }

  lemma FollowsOn(s: Subscriber, was: Log, mid: Log, changes: seq<Change>, c: Change)
    requires forall tid :: tid in s.targets ==> Replay(mid, tid) == ViewAfter(Replay(was, tid), s.targets[tid], changes)
    requires Follows(s, mid, [c])
    ensures Follows(s, was, changes + [c])
  {
    forall tid | tid in s.targets
      ensures Replay(s.log, tid) == ViewAfter(Replay(was, tid), s.targets[tid], changes + [c])
    {
      OneChange(c);
      ViewAfterSnoc(Replay(was, tid), s.targets[tid], changes, c);
    }
  }

  lemma ChangesSnoc(docs: Docs, names: seq<string>, i: nat)
    requires i < |names|
    ensures ChangesOf(docs, names[..i + 1]) == ChangesOf(docs, names[..i]) + [Change(names[i], Get(docs, names[i]))]
  {
    assert names[..i + 1][..i] == names[..i];
  }

  /** The committed state of each name, told to every subscriber. */
  method PublishNames(subs: set<Subscriber>, docs: Docs, names: seq<string>)
    requires forall n :: n in docs ==> docs[n].name == n
    modifies subs
    ensures forall s :: s in subs ==> s.targets == old(s.targets)
    ensures forall s :: s in subs && !s.broken ==> !old(s.broken) && Follows(s, old(s.log), ChangesOf(docs, names))
  {
    hide Replay;
    var i := 0;
    while i < |names|
      invariant 0 <= i <= |names|
      invariant forall s :: s in subs ==> s.targets == old(s.targets)
      invariant forall s :: s in subs && !s.broken ==> !old(s.broken) && Follows(s, old(s.log), ChangesOf(docs, names[..i]))
    {
      label before:
      PublishToAll(subs, Change(names[i], Get(docs, names[i])));
      ChangesSnoc(docs, names, i);
      forall s | s in subs && !s.broken
        ensures !old(s.broken) && Follows(s, old(s.log), ChangesOf(docs, names[..i + 1]))
      {
        FollowsOn(s, old(s.log), old@before(s.log), ChangesOf(docs, names[..i]), Change(names[i], Get(docs, names[i])));
      }
      i := i + 1;
    }
    assert names[..i] == names;
  }
}
