// Streams and reconnect timers at lock granularity (gamesync_store.go:
// streamStarted, streamEnded, scheduleDisconnect, expireSession): one step per
// critical section, because streamEnded and IssueToken release the lock before
// they schedule.

module Lifecycle {

  /** `counts` and `timers` are the server's own maps. The rest records what the
      maps are about: the timers ever scheduled and their sessions, those that
      ran, the streams started and not ended, and the schedule calls already
      decided but not made. */
  datatype Life = Life(
    counts: map<string, int>,
    timers: map<string, nat>,
    armed: map<nat, string>,
    fired: set<nat>,
    open: map<nat, string>,
    waiting: map<string, nat>)

  const IDLE := Life(map[], map[], map[], {}, map[], map[])

  function Count(l: Life, id: string): int {
    if id in l.counts then l.counts[id] else 0
  }

  function Waiting(l: Life, id: string): nat {
    if id in l.waiting then l.waiting[id] else 0
  }

  function OpenOn(l: Life, id: string): set<nat> {
    set s | s in l.open && l.open[s] == id
  }

  // ----- the critical sections -----

  function StreamStarted(l: Life, stream: nat, id: string): Life {
    l.(counts := l.counts[id := Count(l, id) + 1], timers := l.timers - {id}, open := l.open[stream := id])
  }

  /** The first half of streamEnded; the last stream leaves a schedule call. */
  function StreamEnded(l: Life, stream: nat): Life
    requires stream in l.open
  {
    var id := l.open[stream];
    var n := Count(l, id) - 1;
    l.(counts := l.counts[id := n],
       open := l.open - {stream},
       waiting := if n <= 0 then l.waiting[id := Waiting(l, id) + 1] else l.waiting)
  }

  /** IssueToken has remembered the session and will schedule its expiry. */
  function TokenIssued(l: Life, id: string): Life {
    l.(waiting := l.waiting[id := Waiting(l, id) + 1])
  }

  /** scheduleDisconnect; a replaced timer is stopped, which does not recall one
      that is already running. */
  function Scheduled(l: Life, id: string, timer: nat): Life
    requires Waiting(l, id) > 0
  {
    var called := l.(waiting := l.waiting[id := Waiting(l, id) - 1]);
    if Count(l, id) > 0 then called
    else called.(timers := l.timers[id := timer], armed := l.armed[timer := id])
  }

  /** Does this firing expire the session? */
  predicate Expires(l: Life, id: string, timer: nat, live: bool) {
    Count(l, id) <= 0 && id in l.timers && l.timers[id] == timer && live
  }

  /** The lifecycle half of expireSession. */
  function Fired(l: Life, id: string, timer: nat, live: bool): Life {
    var ran := l.(fired := l.fired + {timer});
    if Expires(l, id, timer, live) then ran.(counts := l.counts - {id}, timers := l.timers - {id}) else ran
  }

  // ----- the invariant -----

  ghost predicate CountsOk(l: Life) {
    forall id :: Count(l, id) == |OpenOn(l, id)|
  }

  ghost predicate TimersOk(l: Life) {
    && l.fired <= l.armed.Keys
    && forall id :: id in l.timers ==>
         Count(l, id) == 0 && l.timers[id] in l.armed && l.armed[l.timers[id]] == id
  }

  ghost predicate HasTimer(l: Life, id: string) {
    id in l.timers && l.timers[id] !in l.fired
  }

  /** A live session without streams either has a current unfired timer or a
      schedule call under way. */
  ghost predicate WatchedOk(l: Life, live: set<string>) {
    forall id :: id in live && Count(l, id) == 0 && Waiting(l, id) == 0 ==> HasTimer(l, id)
  }

  ghost predicate LifeOk(l: Life, live: set<string>) {
    CountsOk(l) && TimersOk(l) && WatchedOk(l, live)
  }

  lemma IdleOk()
    ensures LifeOk(IDLE, {})
  {
    forall id ensures OpenOn(IDLE, id) == {} {
    }
  }

  lemma OpenAdded(l: Life, stream: nat, id: string, i: string)
    requires stream !in l.open
    ensures |OpenOn(StreamStarted(l, stream, id), i)| == |OpenOn(l, i)| + if i == id then 1 else 0
  {
    var l' := StreamStarted(l, stream, id);
    assert OpenOn(l', i) == if i == id then OpenOn(l, i) + {stream} else OpenOn(l, i);
  }

  lemma StartKeeps(l: Life, stream: nat, id: string, live: set<string>)
    requires LifeOk(l, live) && stream !in l.open
    ensures LifeOk(StreamStarted(l, stream, id), live)
  {
    var l' := StreamStarted(l, stream, id);
    forall i ensures Count(l', i) == |OpenOn(l', i)| {
      OpenAdded(l, stream, id, i);
    }
  }

  lemma EndKeeps(l: Life, stream: nat, live: set<string>)
    requires LifeOk(l, live) && stream in l.open
    ensures LifeOk(StreamEnded(l, stream), live)
  {
    var l', id := StreamEnded(l, stream), l.open[stream];
    assert stream in OpenOn(l, id);
    forall i ensures Count(l', i) == |OpenOn(l', i)| {
      assert OpenOn(l', i) == if i == id then OpenOn(l, i) - {stream} else OpenOn(l, i);
    }
  }

  lemma IssueKeeps(l: Life, id: string, live: set<string>)
    requires LifeOk(l, live)
    ensures LifeOk(TokenIssued(l, id), live + {id})
  {
    var l' := TokenIssued(l, id);
    forall i ensures Count(l', i) == |OpenOn(l', i)| {
      assert OpenOn(l', i) == OpenOn(l, i);
    }
  }

  lemma ScheduleKeeps(l: Life, id: string, timer: nat, live: set<string>)
    requires LifeOk(l, live) && Waiting(l, id) > 0 && timer !in l.armed
    ensures LifeOk(Scheduled(l, id, timer), live)
  {
    var l' := Scheduled(l, id, timer);
    forall i ensures Count(l', i) == |OpenOn(l', i)| {
      assert OpenOn(l', i) == OpenOn(l, i);
    }
  }

  lemma FireKeeps(l: Life, id: string, timer: nat, live: set<string>)
    requires LifeOk(l, live) && timer in l.armed && l.armed[timer] == id
    ensures LifeOk(Fired(l, id, timer, id in live), if Expires(l, id, timer, id in live) then live - {id} else live)
  {
    var l' := Fired(l, id, timer, id in live);
    forall i ensures Count(l', i) == |OpenOn(l', i)| {
      assert OpenOn(l', i) == OpenOn(l, i);
    }
  }

  // ----- what it means -----

  /** While counts are the open streams, an open stream alone keeps any firing
      from expiring its session, whatever the timers say. */
  lemma OpenStreamGuards(l: Life, stream: nat, timer: nat, live: bool)
    requires CountsOk(l) && stream in l.open
    ensures !Expires(l, l.open[stream], timer, live)
  {
    assert stream in OpenOn(l, l.open[stream]);
  }

  /** A session with an open stream has no current timer, and no firing expires
      it. */
  lemma OpenStreamIsSafe(l: Life, live: set<string>, stream: nat, timer: nat)
    requires LifeOk(l, live) && stream in l.open
    ensures l.open[stream] !in l.timers
    ensures !Expires(l, l.open[stream], timer, l.open[stream] in live)
  {
    assert stream in OpenOn(l, l.open[stream]);
  }

  /** A superseded timer that fires late changes nothing but its own record. */
  lemma SupersededTimerIsInert(l: Life, id: string, timer: nat, live: bool)
    requires !(id in l.timers && l.timers[id] == timer)
    ensures Fired(l, id, timer, live) == l.(fired := l.fired + {timer})
  {
  }

  /** The firing of a session's current timer always expires it. */
  lemma CurrentTimerExpires(l: Life, live: set<string>, id: string)
    requires LifeOk(l, live) && id in live && id in l.timers
    ensures Expires(l, id, l.timers[id], true)
  {
  }
}
