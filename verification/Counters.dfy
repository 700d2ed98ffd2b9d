// Numbers drawn from the session-wide counter by the batches of a run.

module Counters {
  import opened Wrappers
  import opened Values
  import opened Documents
  import opened Batch
  import opened Transforms

  /** The number an operation drew, if it drew one. */
  function Drawn(op: WriteOp, result: WriteResult): seq<int> {
    if op.Transform? && result.TransformResult? then DrawnValues(op.transforms, result.results) else []
  }

  /** The numbers a committed batch answered, in order. */
  function DrawnBy(ops: seq<WriteOp>, results: seq<WriteResult>): seq<int>
    requires |ops| == |results|
  {
    if ops == [] then []
    else DrawnBy(ops[..|ops| - 1], results[..|ops| - 1]) + Drawn(ops[|ops| - 1], results[|ops| - 1])
  }

  /** The same for answers of unknown length. */
  function DrawnIn(ops: seq<WriteOp>, results: seq<WriteResult>): seq<int> {
    if |ops| == |results| then DrawnBy(ops, results) else []
  }

  predicate DisciplinedOp(op: WriteOp) {
    op.Transform? ==> Disciplined(op.transforms)
  }

  ghost predicate DisciplinedOps(ops: seq<WriteOp>) {
    forall i :: 0 <= i < |ops| ==> DisciplinedOp(ops[i])
  }

  ghost predicate Increasing(s: seq<int>) {
    forall i, j :: 0 <= i < j < |s| ==> s[i] < s[j]
  }

  /** The counter moved from `before` to `after` by drawing exactly `numbers`. */
  ghost predicate CounterRan(numbers: seq<int>, before: Fields, after: Fields) {
    && Increasing(numbers)
    && (numbers == [] ==> after == before)
    && (numbers != [] ==>
          && COUNTER in after && after[COUNTER].Integer? && after[COUNTER].i == numbers[|numbers| - 1]
          && (COUNTER in before ==> before[COUNTER].Integer? && before[COUNTER].i < numbers[0]))
  }

  lemma CounterRanOn(a: seq<int>, b: seq<int>, x: Fields, y: Fields, z: Fields)
    requires CounterRan(a, x, y) && CounterRan(b, y, z)
    ensures CounterRan(a + b, x, z)
  {
    if a == [] {
      assert a + b == b;
    } else if b == [] {
      assert a + b == a;
    } else {
      forall i, j | 0 <= i < j < |a + b| ensures (a + b)[i] < (a + b)[j] {
        assert i < |a| ==> a[i] <= a[|a| - 1];
        assert j >= |a| ==> b[0] <= b[j - |a|];
      }
    }
  }

  /** The numbers a transform list stored back, in order. */
  function DrawnValues(fts: seq<FieldTransform>, values: seq<Value>): seq<int> {
    if |fts| != |values| || fts == [] then []
    else
      var last := |fts| - 1;
      DrawnValues(fts[..last], values[..last])
      + if fts[last].kind.StoreGlobal? && values[last].Integer? then [values[last].i] else []
  }

  lemma {:induction false} TransformsRunCounter(t: Cells, fts: seq<FieldTransform>, now: Time)
    requires Disciplined(fts) && ApplyTransforms(t, fts, now).Ok?
    ensures var (end, values) := ApplyTransforms(t, fts, now).value;
            && |values| == |fts|
            && CounterRan(DrawnValues(fts, values), t.globals, end.globals)
            && Underway(Track(fts), end)
    decreases |fts|
  {
    hide ApplyTransform, Advance, Underway;
    if fts == [] {
      NothingUnderway(t);
    } else {
      var front, last := fts[..|fts| - 1], fts[|fts| - 1];
      BrokenStays(Track(front), last);
      TransformsRunCounter(t, front, now);
      var (mid, values) := ApplyTransforms(t, front, now).value;
      AdvanceStep(Track(front), mid, last, now);
      var (end, v) := ApplyTransform(mid, last, now).value;
      assert (values + [v])[..|front|] == values;
      CounterRanOn(DrawnValues(front, values), if last.kind.StoreGlobal? then [v.i] else [], t.globals, mid.globals,
                   end.globals);
    }
  }

  lemma NothingUnderway(t: Cells)
    ensures Underway(Idle, t)
  {
  }

  lemma BrokenStays(s: Progress, ft: FieldTransform)
    requires !Advance(s, ft).Broken?
    ensures !s.Broken?
  {
  }

  lemma EditRunsCounter(op: WriteOp, existing: Option<Document>, draft: Document, globals: Fields, now: Time)
    requires DisciplinedOp(op) && EditOf(op, existing, draft, globals, now).Ok?
    ensures var e := EditOf(op, existing, draft, globals, now).value;
            CounterRan(Drawn(op, e.result), globals, e.globals)
  {
    if op.Transform? {
      TransformsRunCounter(Cells(draft.fields, globals), op.transforms, now);
    }
  }

  lemma OpRunsCounter(c: Context, op: WriteOp, w: Work)
    requires DisciplinedOp(op) && ApplyOp(c, op, w).Ok?
    ensures var (w', r) := ApplyOp(c, op, w).value;
            CounterRan(Drawn(op, r), w.globals, w'.globals)
  {
    var existing := Get(w.docs, op.name);
    EditRunsCounter(op, existing, Draft(op.name, existing, c.now), w.globals, c.now);
  }

  lemma {:induction false} ResultPerOp(c: Context, ops: seq<WriteOp>, w: Work)
    requires ApplyOps(c, ops, w).Ok?
    ensures |ApplyOps(c, ops, w).value.1| == |ops|
    decreases |ops|
  {
    if ops != [] {
      ResultPerOp(c, ops[..|ops| - 1], w);
    }
  }

  /** A disciplined batch draws strictly increasing numbers, above the counter
      it found, and leaves the counter at the last of them. */
  lemma {:induction false} BatchRunsCounter(c: Context, ops: seq<WriteOp>, w: Work)
    requires DisciplinedOps(ops) && ApplyOps(c, ops, w).Ok?
    ensures var (w', results) := ApplyOps(c, ops, w).value;
            |results| == |ops| && CounterRan(DrawnBy(ops, results), w.globals, w'.globals)
    decreases |ops|
  {
    hide ApplyOp, Drawn, DisciplinedOp;
    ResultPerOp(c, ops, w);
    if ops != [] {
      var front, last := ops[..|ops| - 1], ops[|ops| - 1];
      BatchRunsCounter(c, front, w);
      var (mid, results) := ApplyOps(c, front, w).value;
      OpRunsCounter(c, last, mid);
      var (end, r) := ApplyOp(c, last, mid).value;
      assert (results + [r])[..|front|] == results;
      CounterRanOn(DrawnBy(front, results), Drawn(last, r), w.globals, mid.globals, end.globals);
    }
  }
}
