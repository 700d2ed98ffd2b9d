// The loops of WriteDocuments and of the snapshot a new target is listed from
// (gamesync_store.go, WriteDocuments; gamesync_reads.go, committedSnapshot),
// each against the function that says what it computes.

module Writes {
  import opened Wrappers
  import opened Values
  import opened Text
  import opened FieldTree
  import opened Documents
  import opened Batch
  import opened Store
  import opened Push
  import Transforms

  /** The fields with all of extra written over base but those of rest. */
  ghost function MergedBut(base: Fields, extra: Fields, rest: set<string>): Fields {
    base + (extra - rest)
  }

  /** A merge writes field after field, in whatever order the map is walked. */
  method MergeLoop(base: Fields, extra: Fields) returns (r: Fields)
    ensures r == base + extra
  {
    hide MergedBut;
    MergeEnds(base, extra);
    r := base;
    var rest := extra.Keys;
    while rest != {}
      invariant rest <= extra.Keys
      invariant r == MergedBut(base, extra, rest)
      decreases |rest|
    {
      var k :| k in rest;
      MergeOne(base, extra, rest, k);
      r := r[k := extra[k]];
      rest := rest - {k};
    }
  }

  lemma MergeEnds(base: Fields, extra: Fields)
    ensures MergedBut(base, extra, extra.Keys) == base && MergedBut(base, extra, {}) == base + extra
  {
    assert extra - extra.Keys == map[];
    assert extra - {} == extra;
  }

  lemma MergeOne(base: Fields, extra: Fields, rest: set<string>, k: string)
    requires rest <= extra.Keys && k in rest
    ensures MergedBut(base, extra, rest)[k := extra[k]] == MergedBut(base, extra, rest - {k})
  {
    assert extra - (rest - {k}) == (extra - rest)[k := extra[k]];
  }

  method EditLoop(op: WriteOp, existing: Option<Document>, draft: Document, globals: Fields, now: Time)
    returns (r: Result<Edit>)
    ensures r == EditOf(op, existing, draft, globals, now)
  {
    match op
    case EmptyOp =>
      return Err(InvalidArgument);
    case Update(_, fields, mask, _) =>
      if fields.None? {
        return Err(InvalidArgument);
      }
      var f := CopyMaskLoop(draft.fields, fields.value, mask);
      if f.Err? {
        return Err(f.code);
      }
      return Ok(Edit(Some(f.value), globals, UpdateResult));
    case Merge(_, fields) =>
      if fields.None? {
        return Err(InvalidArgument);
      }
      var merged := MergeLoop(draft.fields, fields.value);
      return Ok(Edit(Some(merged), globals, UpdateResult));
    case Transform(name, transforms) =>
      if existing.None? {
        return Err(FailedPrecondition);
      }
      if !("docs/__pus/" <= name) {
        return Err(Unimplemented);
      }
      var t := Transforms.ApplyTransformsLoop(Transforms.Cells(draft.fields, globals), transforms, now);
      if t.Err? {
        return Err(t.code);
      }
      return Ok(Edit(Some(t.value.0.fields), t.value.0.globals, TransformResult(t.value.1)));
    case Delete(_, _) =>
      return Ok(Edit(None, globals, DeleteResult));
  }

  /** One turn of the operations loop. */
  method ApplyOperation(c: Context, op: WriteOp, w: Work) returns (r: Result<(Work, WriteResult)>)
    ensures r == ApplyOp(c, op, w)
  {
    if op.EmptyOp? {
      return Err(InvalidArgument);
    }
    var existing := Get(w.docs, op.name);
    var met := CheckPrecondition(Current(op), existing);
    if met.Err? {
      return Err(met.code);
    }
    var doc := Draft(op.name, existing, c.now);
    var e := EditLoop(op, existing, doc, w.globals, c.now);
    if e.Err? {
      return Err(e.code);
    }
    var allowed := WritableDocument(op.name, e.value.fields, c.session, w.owners, existing.Some?, c.sessions);
    if allowed.Err? {
      return Err(allowed.code);
    }
    if op.Delete? {
      r := Ok((Work(w.docs - {op.name}, w.owners - {op.name}, e.value.globals), e.value.result));
    } else {
      var written := doc.(fields := e.value.fields.value);
      r := Ok((Work(w.docs[op.name := written], w.owners[op.name := SessionId(c.session)], e.value.globals), e.value.result));
    }
  }

  method ApplyOperations(c: Context, ops: seq<WriteOp>, w0: Work)
    returns (r: Result<(Work, seq<WriteResult>)>, changed: set<string>)
    ensures r == ApplyOps(c, ops, w0)
    ensures r.Ok? ==> changed == NamesOf(ops)
  {
    hide EditOf, CheckPrecondition, WritableDocument, Draft, Save, NamesOf;
    NamesOfNone();
    var w, results := w0, [];
    changed := {};
    var i := 0;
    while i < |ops|
      invariant 0 <= i <= |ops|
      invariant ApplyOps(c, ops[..i], w0) == Ok((w, results))
      invariant changed == NamesOf(ops[..i])
    {
      var step := ApplyOperation(c, ops[i], w);
      assert ops[..i + 1][..i] == ops[..i];
      if step.Err? {
        OpsFail(c, ops, i + 1, w0);
        return Err(step.code), changed;
      }
      NamesSnoc(ops[..i + 1]);
      assert !ops[i].EmptyOp?;
      w, results := step.value.0, results + [step.value.1];
      changed := changed + {ops[i].name};
      i := i + 1;
    }
    assert ops[..i] == ops;
    r := Ok((w, results));
  }

  // ----- deferments -----

  lemma {:induction false} DeferredFails(c: Context, writes: seq<WriteOp>, i: nat, docs: Docs, owners: Owners)
    requires i <= |writes| && CheckDeferred(c, writes[..i], docs, owners).Err?
    ensures CheckDeferred(c, writes, docs, owners) == Err(CheckDeferred(c, writes[..i], docs, owners).code)
    decreases |writes|
  {
    if i < |writes| {
      assert writes[..|writes| - 1][..i] == writes[..i];
      DeferredFails(c, writes[..|writes| - 1], i, docs, owners);
    } else {
      assert writes[..i] == writes;
    }
  }

  method CheckDeferredLoop(c: Context, writes: seq<WriteOp>, docs: Docs, owners: Owners) returns (r: Result<()>)
    ensures r == CheckDeferred(c, writes, docs, owners)
  {
    hide WritableDocument;
    var i := 0;
    while i < |writes|
      invariant 0 <= i <= |writes|
      invariant CheckDeferred(c, writes[..i], docs, owners) == Ok(())
    {
      var op := writes[i];
      var step := if !op.Delete? then Err(Unimplemented)
                  else WritableDocument(op.name, None, c.session, owners, op.name in docs, c.sessions);
      assert writes[..i + 1][..i] == writes[..i];
      if step.Err? {
        DeferredFails(c, writes, i + 1, docs, owners);
        return Err(step.code);
      }
      assert step.value == ();
      i := i + 1;
    }
    assert writes[..i] == writes;
    r := Ok(());
  }

  lemma {:induction false} DefermentsFail(c: Context, ops: seq<DefermentOp>, i: nat, defs: map<string, Deferment>,
                                          docs: Docs, owners: Owners)
    requires i <= |ops| && ApplyDeferments(c, ops[..i], defs, docs, owners).Err?
    ensures ApplyDeferments(c, ops, defs, docs, owners) == Err(ApplyDeferments(c, ops[..i], defs, docs, owners).code)
    decreases |ops|
  {
    if i < |ops| {
      assert ops[..|ops| - 1][..i] == ops[..i];
      DefermentsFail(c, ops[..|ops| - 1], i, defs, docs, owners);
    } else {
      assert ops[..i] == ops;
    }
  }

  method ApplyDefermentStep(c: Context, op: DefermentOp, defs: map<string, Deferment>, docs: Docs, owners: Owners)
    returns (r: Result<map<string, Deferment>>)
    ensures r == ApplyDeferment(c, op, defs, docs, owners)
  {
    if op.DeleteDeferment? {
      if !DefermentBelongs(op.name, c.session) {
        return Err(PermissionDenied);
      }
      return Ok(defs - {op.name});
    }
    if op.EmptyDeferment? || op.deferment.None? {
      return Err(InvalidArgument);
    }
    var d := op.deferment.value;
    if !DefermentBelongs(d.name, c.session) || |d.writes| == 0 {
      return Err(InvalidArgument);
    }
    var allowed := CheckDeferredLoop(c, d.writes, docs, owners);
    if allowed.Err? {
      return Err(allowed.code);
    }
    r := Ok(defs[d.name := d]);
  }

  method ApplyDefermentsLoop(c: Context, ops: seq<DefermentOp>, defs0: map<string, Deferment>, docs: Docs,
                             owners: Owners)
    returns (r: Result<map<string, Deferment>>)
    ensures r == ApplyDeferments(c, ops, defs0, docs, owners)
  {
    var defs := defs0;
    var i := 0;
    while i < |ops|
      invariant 0 <= i <= |ops|
      invariant ApplyDeferments(c, ops[..i], defs0, docs, owners) == Ok(defs)
    {
      var step := ApplyDefermentStep(c, ops[i], defs, docs, owners);
      assert ops[..i + 1][..i] == ops[..i];
      if step.Err? {
        DefermentsFail(c, ops, i + 1, defs0, docs, owners);
        return Err(step.code);
      }
      defs := step.value;
      i := i + 1;
    }
    assert ops[..i] == ops;
    r := Ok(defs);
  }

  // ----- what an expiry removes -----

  /** The deferment loops of expireSession: documents the stored deletes name,
      while the member owns them and their precondition still holds. */
  method DeferredLoop(st: Store, id: string, game: string) returns (names: set<string>)
    ensures names == Deferred(st, id, game)
  {
    var defs := Of(st.deferments, id);
    names := {};
    var rest := defs.Keys;
    while rest != {}
      invariant rest <= defs.Keys
      invariant names == DeferredOf(st, id, game, defs - rest)
      decreases |rest|
    {
      var k :| k in rest;
      var more := DeferredWrites(st, id, game, defs[k].writes);
      DeferredSplit(st, id, game, defs, rest, k);
      names := names + more;
      rest := rest - {k};
    }
    assert defs - {} == defs;
  }

  ghost function DeferredOf(st: Store, id: string, game: string, defs: map<string, Deferment>): set<string> {
    set k, i | k in defs && 0 <= i < |defs[k].writes| && DeferredDelete(st, id, game, defs[k].writes[i])
      :: defs[k].writes[i].name
  }

  ghost function DeferredIn(st: Store, id: string, game: string, writes: seq<WriteOp>): set<string> {
    set i | 0 <= i < |writes| && DeferredDelete(st, id, game, writes[i]) :: writes[i].name
  }

  lemma DeferredSplit(st: Store, id: string, game: string, defs: map<string, Deferment>, rest: set<string>, k: string)
    requires rest <= defs.Keys && k in rest
    ensures DeferredOf(st, id, game, defs - (rest - {k}))
            == DeferredOf(st, id, game, defs - rest) + DeferredIn(st, id, game, defs[k].writes)
  {
    var wide, narrow := defs - (rest - {k}), defs - rest;
    forall n | n in DeferredOf(st, id, game, narrow) + DeferredIn(st, id, game, defs[k].writes)
      ensures n in DeferredOf(st, id, game, wide)
    {
      if n in DeferredOf(st, id, game, narrow) {
        var j, i :| j in narrow && 0 <= i < |narrow[j].writes| && DeferredDelete(st, id, game, narrow[j].writes[i])
                    && n == narrow[j].writes[i].name;
        assert j in wide && wide[j] == narrow[j];
      } else {
        var i :| 0 <= i < |defs[k].writes| && DeferredDelete(st, id, game, defs[k].writes[i]) && n == defs[k].writes[i].name;
        assert k in wide && wide[k] == defs[k];
      }
    }
    forall n | n in DeferredOf(st, id, game, wide)
      ensures n in DeferredOf(st, id, game, narrow) + DeferredIn(st, id, game, defs[k].writes)
    {
      var j, i :| j in wide && 0 <= i < |wide[j].writes| && DeferredDelete(st, id, game, wide[j].writes[i])
                  && n == wide[j].writes[i].name;
      assert j != k ==> j in narrow && narrow[j] == wide[j];
    }
  }

  method DeferredWrites(st: Store, id: string, game: string, writes: seq<WriteOp>) returns (names: set<string>)
    ensures names == DeferredIn(st, id, game, writes)
  {
    names := {};
    var i := 0;
    while i < |writes|
      invariant 0 <= i <= |writes|
      invariant names == DeferredIn(st, id, game, writes[..i])
    {
      DeferredSnoc(st, id, game, writes, i);
      if DeferredDelete(st, id, game, writes[i]) {
        names := names + {writes[i].name};
      }
      i := i + 1;
    }
    assert writes[..i] == writes;
  }

  lemma DeferredSnoc(st: Store, id: string, game: string, writes: seq<WriteOp>, i: nat)
    requires i < |writes|
    ensures DeferredIn(st, id, game, writes[..i + 1])
            == DeferredIn(st, id, game, writes[..i])
               + (if DeferredDelete(st, id, game, writes[i]) then {writes[i].name} else {})
  {
    var wide, narrow := writes[..i + 1], writes[..i];
    assert forall j :: 0 <= j < i ==> wide[j] == narrow[j];
    forall n | n in DeferredIn(st, id, game, narrow) ensures n in DeferredIn(st, id, game, wide) {
      var j :| 0 <= j < i && DeferredDelete(st, id, game, narrow[j]) && n == narrow[j].name;
      assert wide[j] == narrow[j];
    }
    assert wide[i] == writes[i];
  }

  /** The owner loop of expireSession. */
  method OwnedLoop(owners: Owners, id: string) returns (names: set<string>)
    ensures names == set n | n in owners && owners[n] == id
  {
    names := {};
    var rest := owners.Keys;
    while rest != {}
      invariant rest <= owners.Keys
      invariant names == set n | n in owners && n !in rest && owners[n] == id
      decreases |rest|
    {
      var n :| n in rest;
      if owners[n] == id {
        names := names + {n};
      }
      rest := rest - {n};
    }
  }

  /** The keys of a set in some order. */
  method Walked(names: set<string>) returns (order: seq<string>)
    ensures Distinct(order) && Elements(order) == names
  {
    order := [];
    var rest := names;
    while rest != {}
      invariant rest <= names && Distinct(order) && Elements(order) == names - rest
      decreases |rest|
    {
      var n :| n in rest;
      assert n !in Elements(order);
      ElementsSnoc(order, n);
      order := order + [n];
      rest := rest - {n};
    }
  }

  // ----- the snapshot of a target -----

  method CommittedSnapshot(docs: Docs, target: Target) returns (documents: seq<Document>, ghost names: seq<string>)
    ensures SnapshotNames(names, docs, target)
    ensures forall n :: n in names ==> n in docs
    ensures documents == Snapshot(docs, names)
  {
    var matching := {};
    var rest := docs.Keys;
    while rest != {}
      invariant rest <= docs.Keys
      invariant matching == set n | n in docs && n !in rest && TargetMatches(target, n)
      decreases |rest|
    {
      var n :| n in rest;
      if TargetMatches(target, n) {
        matching := matching + {n};
      }
      rest := rest - {n};
    }
    var sorted := SortNames(matching);
    names := sorted;
    assert forall n :: n in names <==> n in Elements(names);
    documents := [];
    var i := 0;
    while i < |sorted|
      invariant 0 <= i <= |sorted|
      invariant forall n :: n in sorted[..i] ==> n in docs
      invariant documents == Snapshot(docs, sorted[..i])
    {
      assert sorted[..i + 1][..i] == sorted[..i];
      assert sorted[i] in sorted;
      documents := documents + [docs[sorted[i]]];
      i := i + 1;
    }
    assert sorted[..i] == sorted;
  }
}
