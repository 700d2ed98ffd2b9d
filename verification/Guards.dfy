// Optimistic concurrency over batches: what an update_time or an exists=false
// precondition promises its caller (gamesync_store.go, checkPrecondition).

module Guards {
  import opened Wrappers
  import opened Values
  import opened Text
  import opened Documents
  import opened Batch

  /** Some operation on document n demands that its update time be t. */
  ghost predicate GuardedBy(ops: seq<WriteOp>, n: string, t: Time) {
    exists i :: 0 <= i < |ops| && GuardsOn(ops[i], n, t)
  }

  predicate GuardsOn(op: WriteOp, n: string, t: Time) {
    !op.EmptyOp? && op.name == n && Current(op) == Some(UpdateTime(Some(t)))
  }

  /** No guard for t on n can hold any more: the document is gone or newer. */
  predicate Spent(docs: Docs, n: string, t: Time) {
    n in docs ==> docs[n].updateTime > t
  }

  lemma {:induction false} OpsKeepSpent(c: Context, ops: seq<WriteOp>, w: Work, n: string, t: Time)
    requires ApplyOps(c, ops, w).Ok? && Spent(w.docs, n, t) && c.now > t
    ensures Spent(ApplyOps(c, ops, w).value.0.docs, n, t)
    decreases |ops|
  {
    if ops != [] {
      var front, last := ops[..|ops| - 1], ops[|ops| - 1];
      OpsKeepSpent(c, front, w, n, t);
      var mid := ApplyOps(c, front, w).value.0;
      AppliedOp(c, last, mid);
      assert Get(mid.docs, n).Some? ==> mid.docs[n].updateTime > t;
      if last.name == n && !last.Delete? {
        assert WrittenBy(c, n, Get(ApplyOps(c, ops, w).value.0.docs, n), Get(mid.docs, n));
      }
    }
  }

  lemma PrefixOk(c: Context, ops: seq<WriteOp>, i: nat, w: Work)
    requires i <= |ops| && ApplyOps(c, ops, w).Ok?
    ensures ApplyOps(c, ops[..i], w).Ok?
  {
    if ApplyOps(c, ops[..i], w).Err? {
      OpsFail(c, ops, i, w);
    }
  }

  /** The working copies a successful batch had before operation i. */
  ghost function Before(c: Context, ops: seq<WriteOp>, i: nat, w: Work): Work
    requires i <= |ops| && ApplyOps(c, ops, w).Ok?
  {
    PrefixOk(c, ops, i, w);
    ApplyOps(c, ops[..i], w).value.0
  }

  lemma StepOk(c: Context, ops: seq<WriteOp>, i: nat, w: Work)
    requires i < |ops| && ApplyOps(c, ops, w).Ok?
    ensures ApplyOp(c, ops[i], Before(c, ops, i, w)).Ok?
    ensures Before(c, ops, i + 1, w) == ApplyOp(c, ops[i], Before(c, ops, i, w)).value.0
  {
    PrefixOk(c, ops, i + 1, w);
    PrefixOk(c, ops, i, w);
    assert ops[..i + 1][..i] == ops[..i];
  }

  lemma RangeOk(c: Context, ops: seq<WriteOp>, i: nat, j: nat, w: Work)
    requires i <= j <= |ops| && ApplyOps(c, ops, w).Ok?
    ensures ApplyOps(c, ops[i..j], Before(c, ops, i, w)).Ok?
    ensures ApplyOps(c, ops[i..j], Before(c, ops, i, w)).value.0 == Before(c, ops, j, w)
  {
    hide ApplyOps;
    var start, middle, end := ops[..i], ops[i..j], ops[..j];
    PrefixOk(c, ops, i, w);
    PrefixOk(c, ops, j, w);
    assert end == start + middle;
    OpsCompose(c, start, middle, w);
    ContinuesFrom(c, ApplyOps(c, start, w).value, middle);
  }

  lemma ContinuesFrom(c: Context, r: (Work, seq<WriteResult>), ops: seq<WriteOp>)
    requires Continue(c, Ok(r), ops).Ok?
    ensures ApplyOps(c, ops, r.0).Ok? && Continue(c, Ok(r), ops).value.0 == ApplyOps(c, ops, r.0).value.0
  {
  }

  lemma SpentGuardRefused(c: Context, op: WriteOp, w: Work, n: string, t: Time)
    requires GuardsOn(op, n, t) && Spent(w.docs, n, t)
    ensures ApplyOp(c, op, w) == Err(FailedPrecondition)
  {
  }

  /** A batch whose guard is spent fails. */
  lemma SpentGuardFails(c: Context, ops: seq<WriteOp>, w: Work, n: string, t: Time)
    requires GuardedBy(ops, n, t) && Spent(w.docs, n, t) && c.now > t
    ensures ApplyOps(c, ops, w).Err?
  {
    if ApplyOps(c, ops, w).Ok? {
      var i :| 0 <= i < |ops| && GuardsOn(ops[i], n, t);
      StepOk(c, ops, i, w);
      PrefixOk(c, ops, i, w);
      OpsKeepSpent(c, ops[..i], w, n, t);
      SpentGuardRefused(c, ops[i], Before(c, ops, i, w), n, t);
    }
  }

  /** A successful batch spends its guards, unless a guard named the batch's own
      commit time. */
  lemma GuardIsSpent(c: Context, ops: seq<WriteOp>, w: Work, n: string, t: Time)
    requires GuardedBy(ops, n, t) && ApplyOps(c, ops, w).Ok? && c.now > t
    ensures Spent(ApplyOps(c, ops, w).value.0.docs, n, t)
  {
    var i :| 0 <= i < |ops| && GuardsOn(ops[i], n, t);
    var mid, after := Before(c, ops, i, w), Before(c, ops, i + 1, w);
    StepOk(c, ops, i, w);
    AppliedOp(c, ops[i], mid);
    assert Get(after.docs, n).Some? ==> WrittenBy(c, n, Get(after.docs, n), Get(mid.docs, n));
    RangeOk(c, ops, i + 1, |ops|, w);
    assert ops[..|ops|] == ops;
    OpsKeepSpent(c, ops[i + 1..|ops|], after, n, t);
  }

  /** A guard that held in a successful batch names a time some stored document
      had, or the batch's own commit time. */
  lemma {:induction false} TimesOfBatch(c: Context, ops: seq<WriteOp>, w: Work, n: string)
    requires ApplyOps(c, ops, w).Ok?
    ensures var d := Get(ApplyOps(c, ops, w).value.0.docs, n);
            d.Some? ==> d.value.updateTime == c.now || d == Get(w.docs, n)
    decreases |ops|
  {
    if ops != [] {
      var front, last := ops[..|ops| - 1], ops[|ops| - 1];
      TimesOfBatch(c, front, w, n);
      AppliedOp(c, last, ApplyOps(c, front, w).value.0);
    }
  }

  lemma GuardTimeWasStored(c: Context, ops: seq<WriteOp>, w: Work, n: string, t: Time)
    requires GuardedBy(ops, n, t) && ApplyOps(c, ops, w).Ok?
    ensures t == c.now || (n in w.docs && w.docs[n].updateTime == t)
  {
    var i :| 0 <= i < |ops| && GuardsOn(ops[i], n, t);
    StepOk(c, ops, i, w);
    PrefixOk(c, ops, i, w);
    TimesOfBatch(c, ops[..i], w, n);
    var d := Get(Before(c, ops, i, w).docs, n);
    assert d.Some? && d.value.updateTime == t;
  }

  /** A document a batch touched carries the batch's commit time, if it is still
      there. */
  lemma TouchedTime(c: Context, ops: seq<WriteOp>, i: nat, w: Work)
    requires i < |ops| && ApplyOps(c, ops, w).Ok? && !ops[i].EmptyOp?
    ensures var d := Get(ApplyOps(c, ops, w).value.0.docs, ops[i].name);
            d.Some? ==> d.value.updateTime == c.now
  {
    hide ApplyOp, ApplyOps;
    var n, mid, after := ops[i].name, Before(c, ops, i, w), Before(c, ops, i + 1, w);
    StepOk(c, ops, i, w);
    AppliedOp(c, ops[i], mid);
    assert Get(after.docs, n).Some? ==> WrittenBy(c, n, Get(after.docs, n), Get(mid.docs, n));
    RangeOk(c, ops, i + 1, |ops|, w);
    assert ops[..|ops|] == ops;
    TimesOfBatch(c, ops[i + 1..|ops|], after, n);
  }

  /** After a batch guarded by t, the same guard can be met again exactly when
      the document is still there and t is the batch's own commit time. */
  lemma GuardReuseExactly(c: Context, ops: seq<WriteOp>, w: Work, n: string, t: Time)
    requires GuardedBy(ops, n, t) && ApplyOps(c, ops, w).Ok?
    ensures var d := Get(ApplyOps(c, ops, w).value.0.docs, n);
            CheckPrecondition(Some(UpdateTime(Some(t))), d).Ok? <==> d.Some? && t == c.now
  {
    hide ApplyOp, ApplyOps;
    var i :| 0 <= i < |ops| && GuardsOn(ops[i], n, t);
    TouchedTime(c, ops, i, w);
  }

  /** A write of one's own player document that demands the update time t. */
  function PlayerWrite(s: Session, t: Option<Time>): WriteOp {
    Update(Name("p", FormatInt(s.sequence)), Some(map[]), None, if t.Some? then Some(UpdateTime(t)) else None)
  }

  lemma PlayerWriteSucceeds(c: Context, w: Work, t: Option<Time>)
    requires c.session.sequence >= 0
    requires var n := Name("p", FormatInt(c.session.sequence));
             t.Some? ==> n in w.docs && w.docs[n].updateTime == t.value
    ensures var r, n := ApplyOp(c, PlayerWrite(c.session, t), w), Name("p", FormatInt(c.session.sequence));
            r.Ok? && n in r.value.0.docs && r.value.0.docs[n].updateTime == c.now
  {
    var id := FormatInt(c.session.sequence);
    SplitName("p", id);
    assert id[0] != '.';
    assert DocumentPath(Name("p", id)) == Some(("p", id));
  }

  /** The one way a guard survives its own batch: it names that batch's commit
      time. Then a later batch with the same guard commits too. */
  lemma OwnTimeGuardsTwice(c: Context, later: Context, w: Work)
    requires c.session.sequence >= 0 && later.session == c.session
    ensures var n := Name("p", FormatInt(c.session.sequence));
            var guarded := PlayerWrite(c.session, Some(c.now));
            var first := ApplyOps(c, [PlayerWrite(c.session, None), guarded], w);
            && GuardedBy([PlayerWrite(c.session, None), guarded], n, c.now) && first.Ok?
            && GuardedBy([guarded], n, c.now) && ApplyOps(later, [guarded], first.value.0).Ok?
  {
    hide ApplyOp;
    var n := Name("p", FormatInt(c.session.sequence));
    var plain, guarded := PlayerWrite(c.session, None), PlayerWrite(c.session, Some(c.now));
    var ops := [plain, guarded];
    assert ops[..1] == [plain] && [plain][..0] == [] && [guarded][..0] == [];
    PlayerWriteSucceeds(c, w, None);
    var w1 := ApplyOp(c, plain, w).value.0;
    PlayerWriteSucceeds(c, w1, Some(c.now));
    var w2 := ApplyOp(c, guarded, w1).value.0;
    PlayerWriteSucceeds(later, w2, Some(c.now));
    assert GuardsOn(ops[1], n, c.now) && GuardsOn([guarded][0], n, c.now);
    assert ApplyOps(c, [plain], w).Ok? && ApplyOps(c, [plain], w).value.0 == w1 by {
      assert ApplyOps(c, [], w) == Ok((w, []));
    }
    assert ApplyOps(c, ops, w).Ok? && ApplyOps(c, ops, w).value.0 == w2;
    assert ApplyOps(later, [], w2) == Ok((w2, []));
  }

  // ----- create-only writes -----

  predicate CreatesOnly(op: WriteOp, n: string) {
    op.Update? && op.name == n && op.current == Some(Exists(false))
  }

  /** A create-only operation succeeds only where the document is missing, and
      leaves it there. */
  lemma CreateNeedsAbsence(c: Context, op: WriteOp, w: Work, n: string)
    requires CreatesOnly(op, n) && ApplyOp(c, op, w).Ok?
    ensures n !in w.docs && n in ApplyOp(c, op, w).value.0.docs
  {
    AppliedOp(c, op, w);
    assert Get(ApplyOp(c, op, w).value.0.docs, n).Some?;
  }

  /** Only a delete operation on n makes it disappear from a batch. */
  lemma {:induction false} OnlyDeleteRemoves(c: Context, ops: seq<WriteOp>, w: Work, n: string)
    requires ApplyOps(c, ops, w).Ok? && n in w.docs && n !in ApplyOps(c, ops, w).value.0.docs
    ensures exists i :: 0 <= i < |ops| && ops[i].Delete? && ops[i].name == n
    decreases |ops|
  {
    if ops != [] {
      var front, last := ops[..|ops| - 1], ops[|ops| - 1];
      var mid := ApplyOps(c, front, w).value.0;
      if n in mid.docs {
        AppliedOp(c, last, mid);
        assert Get(mid.docs, n).Some? && Get(ApplyOps(c, ops, w).value.0.docs, n).None?;
        assert last.Delete? && last.name == n;
      } else {
        OnlyDeleteRemoves(c, front, w, n);
        var i :| 0 <= i < |front| && front[i].Delete? && front[i].name == n;
        assert ops[i] == front[i];
      }
    }
  }

  /** Between two create-only operations of one batch on one name there is a
      delete of it. */
  lemma CreatesAreSeparated(c: Context, ops: seq<WriteOp>, w: Work, n: string, i: nat, j: nat)
    requires ApplyOps(c, ops, w).Ok? && i < j < |ops| && CreatesOnly(ops[i], n) && CreatesOnly(ops[j], n)
    ensures exists k :: i < k < j && ops[k].Delete? && ops[k].name == n
  {
    StepOk(c, ops, i, w);
    StepOk(c, ops, j, w);
    CreateNeedsAbsence(c, ops[i], Before(c, ops, i, w), n);
    CreateNeedsAbsence(c, ops[j], Before(c, ops, j, w), n);
    RangeOk(c, ops, i + 1, j, w);
    DeletedBetween(c, ops, i + 1, j, w, n);
  }

  lemma DeletedBetween(c: Context, ops: seq<WriteOp>, i: nat, j: nat, w: Work, n: string)
    requires i <= j <= |ops| && ApplyOps(c, ops, w).Ok?
    requires n in Before(c, ops, i, w).docs && n !in Before(c, ops, j, w).docs
    ensures exists k :: i <= k < j && ops[k].Delete? && ops[k].name == n
  {
    RangeOk(c, ops, i, j, w);
    OnlyDeleteRemoves(c, ops[i..j], Before(c, ops, i, w), n);
    var k :| 0 <= k < |ops[i..j]| && ops[i..j][k].Delete? && ops[i..j][k].name == n;
    assert ops[i + k] == ops[i..j][k];
  }

  /** Where the document is present, the first create-only operation on it fails
      the batch unless a delete of it comes first. */
  lemma CreateFailsWhilePresent(c: Context, ops: seq<WriteOp>, w: Work, n: string, j: nat)
    requires j < |ops| && CreatesOnly(ops[j], n) && n in w.docs
    requires forall k :: 0 <= k < j ==> !(ops[k].Delete? && ops[k].name == n)
    ensures ApplyOps(c, ops, w).Err?
  {
    if ApplyOps(c, ops, w).Ok? {
      StepOk(c, ops, j, w);
      CreateNeedsAbsence(c, ops[j], Before(c, ops, j, w), n);
      assert ops[..0] == [];
      DeletedBetween(c, ops, 0, j, w, n);
    }
  }
}
